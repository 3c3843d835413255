/**
 * The older, integer-only emulator. Its registers are Python integers kept
 * in range by masking, and its instruction set differs from the current
 * one in the register numbering (source 0 is L and 1 is X here).
 *
 * Python's `v & mask` is written out on the integer: for a single-bit mask
 * 2^k it is the bit test `(v / 2^k) % 2 == 1` (Bits.AndBit), and for a low
 * mask 2^k - 1 it is `v % 2^k` (Bits.AndLowMask); `h << 8 | l` is
 * Bits.BitOr(Bits.ShiftLeft(h, 8), l).
 */
module LegacyEmulator {
  import opened Wrappers
  import Bits

  const MemorySize: nat := 32768

  predicate IsByte(v: int) { 0 <= v < 256 }

  /** `v & weight` is non-zero, for a single-bit weight. */
  predicate Has(v: int, weight: int)
    requires weight >= 1
  {
    (v / weight) % 2 == 1
  }

  /** The bit test agrees with Python's `&` on every integer. */
  lemma HasIsAnd(v: int, k: nat)
    ensures Has(v, Bits.Pow2(k)) <==> Bits.BitAnd(v, Bits.Pow2(k)) != 0
  {
    Bits.AndBit(v, k);
  }

  /** Masking with 0xFF and 0x7F is reduction modulo 256 and 128, for every integer. */
  lemma MasksAreMod(v: int)
    ensures Bits.BitAnd(v, 0xFF) == v % 256
    ensures Bits.BitAnd(v, 0x7F) == v % 128
  {
    Bits.AndLowMask(v, 8);
    Bits.AndLowMask(v, 7);
  }

  /** `H << 8 | L`, the memory address. */
  function Address(h: int, l: int): (r: nat)
    requires 0 <= h < 128 && IsByte(l)
    ensures r == h * 256 + l
    ensures r < MemorySize
  {
    assert Bits.Pow2(8) == 256;
    Bits.OrShifted(h, 8, l);
    Bits.BitOr(Bits.ShiftLeft(h, 8), l)
  }

  datatype Machine = Machine(
    L: int, H: int, PC: int, X: int, Y: int, IN: int,
    CF: bool, IF: bool,
    RAM: seq<int>, ROM: seq<int>)

  /** Every register holds a byte (H 7 bits), memory holds bytes, ROM is at least 2^15 long. */
  predicate ValidState(s: Machine) {
    && IsByte(s.L) && 0 <= s.H < 128 && IsByte(s.X) && IsByte(s.Y) && IsByte(s.IN)
    && 0 <= s.PC
    && |s.RAM| == MemorySize && (forall i :: 0 <= i < |s.RAM| ==> IsByte(s.RAM[i]))
    && |s.ROM| >= MemorySize
  }

  /** The machine after power-on: every register zero, RAM cleared, and ROM the program padded with zeros to 2^15 entries. */
  function Initial(program: seq<int>): (s: Machine)
    ensures ValidState(s)
    ensures s.L == 0 && s.H == 0 && s.PC == 0 && s.X == 0 && s.Y == 0 && s.IN == 0 && !s.CF && !s.IF
    ensures forall i :: 0 <= i < MemorySize ==> s.RAM[i] == 0
    ensures |s.ROM| == if |program| < MemorySize then MemorySize else |program|
    ensures s.ROM[..|program|] == program
    ensures forall i :: |program| <= i < |s.ROM| ==> s.ROM[i] == 0
  {
    var padding := if |program| < MemorySize then MemorySize - |program| else 0;
    Machine(0, 0, 0, 0, 0, 0, false, false, seq(MemorySize, _ => 0), program + seq(padding, _ => 0))
  }

  function Memory(s: Machine): (r: int)
    requires ValidState(s)
    ensures IsByte(r)
  {
    s.RAM[Address(s.H, s.L)]
  }

  datatype AluResult = AluResult(out: int, carry: bool)

  /** Bit 8 of a result (its `& 0x100`). */
  predicate Bit8(v: int) { Has(v, 0x100) }

  /** An add-like result whose carry is bit 8 of the result. */
  function Carry(result: int): AluResult { AluResult(result, Bit8(result)) }

  /** A subtract-like result whose carry is the complement of bit 8 of the result. */
  function Borrow(result: int): AluResult { AluResult(result, !Bit8(result)) }

  /** `execute_al` as written: opcode 14 is Python's boolean `or`, and the carry tests bit 8 of X, which a byte never has. */
  function AluAsWritten(opcode: int, x: int, b: int, cf: bool): AluResult {
    var plain := (r: int) => AluResult(r, cf);
    var carryX := (r: int) => AluResult(r, Bit8(x));
    var borrowX := (r: int) => AluResult(r, !Bit8(x));
    if opcode == 0 then plain(Bits.BitNot(x))
    else if opcode == 1 then plain(Bits.BitOr(Bits.BitNot(x), b))
    else if opcode == 2 then plain(Bits.BitNot(Bits.BitAnd(x, b)))
    else if opcode == 3 then plain(Bits.BitNot(b))
    else if opcode == 4 then borrowX(x - 1)
    else if opcode == 5 then carryX(b - x)
    else if opcode == 6 then plain(Bits.BitNot(Bits.BitAnd(x, b)))
    else if opcode == 7 then borrowX(b - 1)
    else if opcode == 8 then borrowX(-x)
    else if opcode == 9 then carryX(x + b)
    else if opcode == 10 then plain(Bits.BitAnd(x, b))
    else if opcode == 11 then borrowX(b + 1)
    else if opcode == 12 then borrowX(x + 1)
    else if opcode == 13 then carryX(x - b)
    else if opcode == 14 then plain(if x != 0 then x else b)
    else if opcode == 15 then borrowX(-b)
    else plain(0)
  }

  /** `execute_al` corrected: opcode 14 is the bitwise or, and the carry tests bit 8 of the result. */
  function Alu(opcode: int, x: int, b: int, cf: bool): AluResult {
    if opcode == 0 then AluResult(Bits.BitNot(x), cf)
    else if opcode == 1 then AluResult(Bits.BitOr(Bits.BitNot(x), b), cf)
    else if opcode == 2 then AluResult(Bits.BitNot(Bits.BitAnd(x, b)), cf)
    else if opcode == 3 then AluResult(Bits.BitNot(b), cf)
    else if opcode == 4 then Borrow(x - 1)
    else if opcode == 5 then Carry(b - x)
    else if opcode == 6 then AluResult(Bits.BitNot(Bits.BitAnd(x, b)), cf)
    else if opcode == 7 then Borrow(b - 1)
    else if opcode == 8 then Borrow(-x)
    else if opcode == 9 then Carry(x + b)
    else if opcode == 10 then AluResult(Bits.BitAnd(x, b), cf)
    else if opcode == 11 then Borrow(b + 1)
    else if opcode == 12 then Borrow(x + 1)
    else if opcode == 13 then Carry(x - b)
    else if opcode == 14 then AluResult(Bits.BitOr(x, b), cf)
    else if opcode == 15 then Borrow(-b)
    else AluResult(0, cf)
  }

  /** As written, `or` of 1 and 2 gives 1 and an add that overflows leaves the carry clear. */
  lemma AluAsWrittenDiffers()
    ensures AluAsWritten(14, 1, 2, false).out == 1
    ensures Alu(14, 1, 2, false).out == 3
    ensures !AluAsWritten(9, 255, 1, false).carry
    ensures Alu(9, 255, 1, false).carry
  {
    assert Bits.BitOr(1, 2) == 3 by {
      assert Bits.BitOr(0, 1) == 1;
    }
    assert Bit8(256);
  }

  /** As written, no byte X ever sets the carry from an add, whatever b is. */
  lemma AddCarryAsWrittenNeverSet(x: int, b: int, cf: bool)
    requires IsByte(x)
    ensures !AluAsWritten(9, x, b, cf).carry
  {
  }

  /** Corrected add: the byte result is (x + b) mod 256 and the carry is set exactly when x + b overflows. */
  lemma AluAdd(x: int, b: int, cf: bool)
    requires IsByte(x) && IsByte(b)
    ensures Alu(9, x, b, cf).out % 256 == (x + b) % 256
    ensures Alu(9, x, b, cf).carry <==> x + b >= 256
  {
  }

  /** Corrected or: opcode 14 is the bitwise or of the two bytes, so it covers both bytes, stays a byte and keeps the carry. */
  lemma AluOr(x: int, b: int, cf: bool)
    requires IsByte(x) && IsByte(b)
    ensures Alu(14, x, b, cf) == AluResult(Bits.BitOr(x, b), cf)
    ensures var r := Alu(14, x, b, cf); x <= r.out < 256 && b <= r.out && r.carry == cf
  {
    assert Bits.Pow2(8) == 256;
    Bits.OrBelow(x, b, 8);
  }

  /** Arithmetic and logic: the result, reduced to a byte, goes to X when bit 5 is set and to L otherwise. */
  function AluStep(s: Machine, toX: bool, m: bool, opcode: int): (r: Machine)
    requires ValidState(s)
    ensures ValidState(r)
    ensures r.PC == s.PC && r.ROM == s.ROM
  {
    var b := if m then Memory(s) else s.L;
    var result := Alu(opcode, s.X, b, s.CF);
    if toX then s.(X := result.out % 256, CF := result.carry) else s.(L := result.out % 256, CF := result.carry)
  }

  /** The source of a move or an output: 0 L, 1 X, 2 IN, 3 Y when bit 4 is set and memory otherwise. */
  function SourceValue(s: Machine, instruction: int): (r: int)
    requires ValidState(s)
    ensures IsByte(r)
  {
    var src := instruction % 4;
    if src == 1 then s.X
    else if src == 2 then s.IN
    else if src == 3 && Has(instruction, 0x10) then s.Y
    else if src == 3 then Memory(s)
    else s.L
  }

  /** The move as written: for destination 3 it tests the source field, `src == 3 & s`, which is `src == 0`. */
  function MoveStepAsWritten(s: Machine, instruction: int): (r: Machine)
    requires ValidState(s)
    ensures ValidState(r)
  {
    var src := instruction % 4;
    var value := SourceValue(s, instruction);
    var dst := (instruction / 4) % 4;
    if dst == 0 then s.(L := value)
    else if dst == 1 then s.(X := value)
    else if dst == 2 then s.(H := value % 128)
    else if src == Bits.BitAnd(3, if Has(instruction, 0x10) then 0x10 else 0) then s.(RAM := s.RAM[Address(s.H, s.L) := value])
    else if src == 3 then s.(Y := value)
    else s
  }

  /** The move corrected: destination 3 is memory when bit 4 is set and Y otherwise, mirroring the source field. */
  function MoveStep(s: Machine, instruction: int): (r: Machine)
    requires ValidState(s)
    ensures ValidState(r)
    ensures r.PC == s.PC && r.ROM == s.ROM
  {
    var value := SourceValue(s, instruction);
    var dst := (instruction / 4) % 4;
    if dst == 0 then s.(L := value)
    else if dst == 1 then s.(X := value)
    else if dst == 2 then s.(H := value % 128)
    else if Has(instruction, 0x10) then s.(RAM := s.RAM[Address(s.H, s.L) := value])
    else s.(Y := value)
  }

  /** As written, `mov L Y` (0x2C) stores L into memory, and `mov X M` (0x3D) is dropped. */
  lemma MoveAsWrittenDiffers(s: Machine)
    requires ValidState(s)
    ensures MoveStepAsWritten(s, 0x2C) == s.(RAM := s.RAM[Address(s.H, s.L) := s.L])
    ensures MoveStep(s, 0x2C) == s.(Y := s.L)
    ensures MoveStepAsWritten(s, 0x3D) == s
    ensures MoveStep(s, 0x3D) == s.(RAM := s.RAM[Address(s.H, s.L) := s.X])
  {
    assert Bits.BitAnd(3, 0) == 0;
    assert Bits.BitAnd(3, 0x10) == 0 by {
      assert Bits.BitAnd(1, 8) == 0 by {
        assert Bits.BitAnd(0, 4) == 0;
      }
    }
  }

  /** The compare jumps as written: the positive test is `0 < X < 127`, and the negative test reads bit 0 instead of bit 2. */
  predicate CompareTakenAsWritten(instruction: int, x: int) {
    || (Has(instruction, 0x01) && 0 < x < 127)
    || (Has(instruction, 0x02) && x == 0)
    || (Has(instruction, 0x01) && x >= 128)
  }

  /** The compare jumps corrected: bit 0 on positive X (1..127), bit 1 on zero, bit 2 on negative X (128..255). */
  predicate CompareTaken(instruction: int, x: int) {
    || (Has(instruction, 0x01) && 0 < x < 128)
    || (Has(instruction, 0x02) && x == 0)
    || (Has(instruction, 0x04) && x >= 128)
  }

  /** As written, a positive-only jump is not taken at X = 127 but is taken at X = 200, and a negative-only jump is never taken. */
  lemma CompareAsWrittenDiffers(x: int)
    requires IsByte(x)
    ensures !CompareTakenAsWritten(0x19, 127) && CompareTaken(0x19, 127)
    ensures CompareTakenAsWritten(0x19, 200) && !CompareTaken(0x19, 200)
    ensures !CompareTakenAsWritten(0x1C, x)
    ensures CompareTaken(0x1C, x) <==> x >= 128
  {
  }

  /** With the corrected test, exactly one of a positive, zero and negative condition holds for every X. */
  lemma CompareCovers(x: int)
    requires IsByte(x)
    ensures CompareTaken(0x19, x) != CompareTaken(0x1E, x)
    ensures CompareTaken(0x1A, x) != CompareTaken(0x1D, x)
    ensures CompareTaken(0x1C, x) != CompareTaken(0x1B, x)
  {
  }

  function JumpStep(s: Machine, instruction: int): (r: Machine)
    requires ValidState(s)
    ensures ValidState(r)
  {
    var taken :=
      if Has(instruction, 0x08) then CompareTaken(instruction, s.X)
      else (Has(instruction, 0x02) && s.CF) || (Has(instruction, 0x04) && s.IF);
    if taken then s.(PC := Address(s.H, s.L)) else s
  }

  /** The outcome of a display write: the display's rows are strings, which cannot be assigned into, so it raises TypeError. */
  function DisplayData(v: int): (r: Outcome)
    ensures r.Fail?
  {
    Fail(Python("TypeError"))
  }

  /** Output: only a data write (bit 2) does anything, and that raises. */
  function OutputStep(s: Machine, instruction: int): (r: Outcome)
    requires ValidState(s)
    ensures r.Fail? <==> Has(instruction, 0x04)
  {
    var value := SourceValue(s, instruction);
    if Has(instruction, 0x04) then DisplayData(value) else Pass
  }

  /** Carry increment: 3 increments H when CF is set, 2 when it is clear; H is then masked to 7 bits. */
  function CarryStep(s: Machine, instruction: int): (r: Machine)
    requires ValidState(s)
    ensures ValidState(r)
    ensures r.PC == s.PC && r.ROM == s.ROM
  {
    var h := if (s.CF && instruction == 3) || (!s.CF && instruction == 2) then s.H + 1 else s.H;
    s.(H := h % 128)
  }

  /** The machine after one `execute`, and whether it raised. */
  datatype After = After(state: Machine, outcome: Outcome)

  /** One step: a PC past the end of ROM raises IndexError; otherwise the highest of bits 7..1 picks the instruction
      class, and a byte matching no branch (0, 4, 5) changes nothing at all. */
  function Step(s: Machine): (r: After)
    requires ValidState(s)
    ensures ValidState(r.state)
  {
    if s.PC >= |s.ROM| then After(s, Fail(Python("IndexError")))
    else
      var i := s.ROM[s.PC];
      var next := s.PC + 1;
      if Has(i, 0x80) then After(s.(L := i % 128, PC := next), Pass)
      else if Has(i, 0x40) then After(AluStep(s, Has(i, 0x20), Has(i, 0x10), i % 16).(PC := next), Pass)
      else if Has(i, 0x20) then After(MoveStep(s, i).(PC := next), Pass)
      else if Has(i, 0x10) then After(JumpStep(s.(PC := next), i), Pass)
      else if Has(i, 0x08) then After(s.(PC := next), OutputStep(s, i))
      else if Has(i, 0x40) || i == 1 then After(s.(PC := next), Pass)
      else if Has(i, 0x02) then After(CarryStep(s, i).(PC := next), Pass)
      else After(s, Pass)
  }

  /** Step, one branch at a time. */
  lemma StepBranches(s: Machine)
    requires ValidState(s)
    ensures s.PC >= |s.ROM| ==> Step(s) == After(s, Fail(Python("IndexError")))
    ensures s.PC < |s.ROM| ==>
      var i := s.ROM[s.PC];
      var t := s.(PC := s.PC + 1);
      (Has(i, 0x80) ==> Step(s) == After(s.(L := i % 128, PC := s.PC + 1), Pass))
      && (!Has(i, 0x80) && Has(i, 0x40) ==>
            Step(s) == After(AluStep(s, Has(i, 0x20), Has(i, 0x10), i % 16).(PC := s.PC + 1), Pass))
      && (!Has(i, 0x80) && !Has(i, 0x40) && Has(i, 0x20) ==> Step(s) == After(MoveStep(s, i).(PC := s.PC + 1), Pass))
      && (!Has(i, 0x80) && !Has(i, 0x40) && !Has(i, 0x20) && Has(i, 0x10) ==> Step(s) == After(JumpStep(t, i), Pass))
      && (!Has(i, 0x80) && !Has(i, 0x40) && !Has(i, 0x20) && !Has(i, 0x10) && Has(i, 0x08) ==>
            Step(s) == After(t, OutputStep(s, i)))
      && (!Has(i, 0x80) && !Has(i, 0x40) && !Has(i, 0x20) && !Has(i, 0x10) && !Has(i, 0x08) ==>
            Step(s) == (if i == 1 then After(t, Pass)
                        else if Has(i, 0x02) then After(CarryStep(s, i).(PC := s.PC + 1), Pass)
                        else After(s, Pass)))
  {
  }

  /** Byte 0 (and 4 and 5) matches no branch: nothing changes, PC included, so the machine stays there. */
  lemma HaltStep(s: Machine)
    requires ValidState(s) && s.PC < |s.ROM| && (s.ROM[s.PC] == 0 || s.ROM[s.PC] == 4 || s.ROM[s.PC] == 5)
    ensures Step(s) == After(s, Pass)
  {
  }

  /** A byte with the top bit set loads its low 7 bits into L and advances PC by one. */
  lemma LoadStep(s: Machine)
    requires ValidState(s) && s.PC < |s.ROM| && 128 <= s.ROM[s.PC] < 256
    ensures Step(s) == After(s.(L := s.ROM[s.PC] - 128, PC := s.PC + 1), Pass)
  {
  }

  /** ALU results are reduced to a byte before they reach X or L. */
  lemma AluResultIsByte(s: Machine, toX: bool, m: bool, opcode: int)
    requires ValidState(s)
    ensures IsByte(AluStep(s, toX, m, opcode).X) && IsByte(AluStep(s, toX, m, opcode).L)
  {
  }

  /** A jump first advances PC and then, when its condition holds, moves it to H:L. */
  lemma JumpStepPC(s: Machine)
    requires ValidState(s) && s.PC < |s.ROM| && 0x10 <= s.ROM[s.PC] < 0x20
    ensures Step(s).state.PC == s.PC + 1 || Step(s).state.PC == s.H * 256 + s.L
    ensures Step(s).state == s.(PC := Step(s).state.PC)
  {
  }

  /** The carry instructions: 3 increments H iff CF, 2 iff not CF, H wraps at 7 bits, PC advances. */
  lemma CarryStepH(s: Machine)
    requires ValidState(s) && s.PC < |s.ROM| && 2 <= s.ROM[s.PC] <= 3
    ensures Step(s).state.H == if s.CF == (s.ROM[s.PC] == 3) then (s.H + 1) % 128 else s.H
    ensures Step(s).state.PC == s.PC + 1
  {
    var i := s.ROM[s.PC];
    assert !Has(i, 0x80) && !Has(i, 0x40) && !Has(i, 0x20) && !Has(i, 0x10) && !Has(i, 0x08);
    assert i != 1 && Has(i, 0x02);
    assert Step(s) == After(CarryStep(s, i).(PC := s.PC + 1), Pass);
  }

  /** A move into H keeps only the low 7 bits of the source (here X). */
  lemma MoveIntoHStep(s: Machine)
    requires ValidState(s) && s.PC < |s.ROM| && s.ROM[s.PC] == 0x29
    ensures Step(s) == After(s.(H := s.X % 128, PC := s.PC + 1), Pass)
  {
  }

  class Display {
    var cursorLine: int
    var cursorPos: int
    var text: seq<string>

    constructor()
      ensures cursorLine == 0 && cursorPos == 0
      ensures |text| == 4 && forall i :: 0 <= i < |text| ==> text[i] == "                    "
    {
      cursorLine, cursorPos := 0, 0;
      text := seq(4, _ => "                    ");
    }

    /** Writing a character assigns into a string, which raises TypeError before anything changes. */
    method Data(v: int) returns (r: Outcome)
      ensures r == DisplayData(v)
    {
      r := Fail(Python("TypeError"));
    }
  }

  class Computer {
    var L: int
    var H: int
    var PC: int
    var X: int
    var Y: int
    var IN: int
    var CF: bool
    var IF: bool
    const RAM: array<int>
    var ROM: seq<int>
    const display: Display

    function State(): Machine
      reads this, RAM
    {
      Machine(L, H, PC, X, Y, IN, CF, IF, RAM[..], ROM)
    }

    predicate Valid()
      reads this, RAM
    {
      ValidState(State())
    }

    constructor(program: seq<int>)
      ensures Valid() && fresh(RAM)
      ensures State() == Initial(program)
    {
      L, H, PC, X, Y, IN := 0, 0, 0, 0, 0, 0;
      CF, IF := false, false;
      RAM := new int[MemorySize](_ => 0);
      ROM := program;
      ROM := ROM + seq(if |program| < MemorySize then MemorySize - |program| else 0, _ => 0);
      display := new Display();
      new;
      assert RAM[..] == Initial(program).RAM;
    }

    method Input(v: int)
      requires IsByte(v)
      modifies this
      ensures State() == old(State()).(IN := v, IF := true)
    {
      IN := v;
      IF := true;
    }

    function ReadMem(): (r: int)
      requires Valid()
      reads this, RAM
      ensures r == Memory(State())
    {
      RAM[Address(H, L)]
    }

    method WriteMem(v: int)
      requires Valid() && IsByte(v)
      modifies RAM
      ensures RAM[..] == old(RAM[..])[Address(H, L) := v]
    {
      RAM[Address(H, L)] := v;
    }

    method ExecuteAl(toX: bool, m: bool, opcode: int)
      requires Valid()
      modifies this
      ensures Valid()
      ensures State() == AluStep(old(State()), toX, m, opcode)
    {
      ghost var s := State();
      var b := if m then ReadMem() else L;
      assert b == if m then Memory(s) else s.L;
      var result := Alu(opcode, X, b, CF);
      CF := result.carry;
      if toX {
        X := result.out % 256;
      } else {
        L := result.out % 256;
      }
    }

    method Move(instruction: int)
      requires Valid()
      modifies this, RAM
      ensures Valid()
      ensures State() == MoveStep(old(State()), instruction)
    {
      var value := SourceValue(State(), instruction);
      var dst := (instruction / 4) % 4;
      if dst == 0 {
        L := value;
      } else if dst == 1 {
        X := value;
      } else if dst == 2 {
        H := value % 128;
      } else if Has(instruction, 0x10) {
        WriteMem(value);
      } else {
        Y := value;
      }
    }

    method Jump(instruction: int)
      requires Valid()
      modifies this
      ensures Valid()
      ensures State() == JumpStep(old(State()), instruction)
    {
      var taken :=
        if Has(instruction, 0x08) then CompareTaken(instruction, X)
        else (Has(instruction, 0x02) && CF) || (Has(instruction, 0x04) && IF);
      if taken {
        PC := Address(H, L);
      }
    }

    method Carry(instruction: int)
      requires Valid()
      modifies this
      ensures Valid()
      ensures State() == CarryStep(old(State()), instruction)
    {
      if CF && instruction == 3 {
        H := H + 1;
      }
      if !CF && instruction == 2 {
        H := H + 1;
      }
      H := H % 128;
    }

    /** Executes a single instruction; a raised exception is returned as the outcome. */
    method Execute() returns (r: Outcome)
      requires Valid()
      modifies this, RAM
      ensures Valid()
      ensures After(State(), r) == Step(old(State()))
    {
      ghost var s := State();
      StepBranches(s);
      if PC >= |ROM| {
        return Fail(Python("IndexError"));
      }
      var instruction := ROM[PC];
      r := Pass;
      if Has(instruction, 0x80) {
        L := instruction % 128;
        PC := PC + 1;
        assert State() == s.(L := instruction % 128, PC := s.PC + 1);
      } else if Has(instruction, 0x40) {
        ExecuteAl(Has(instruction, 0x20), Has(instruction, 0x10), instruction % 16);
        ghost var t := State();
        PC := PC + 1;
        assert State() == t.(PC := t.PC + 1);
      } else if Has(instruction, 0x20) {
        Move(instruction);
        ghost var t := State();
        PC := PC + 1;
        assert State() == t.(PC := t.PC + 1);
      } else {
        r := Control(instruction);
      }
    }

    /** The branches of `execute` after the move: jumps, output, the no-op
        and the carry increment, none of which touches RAM. */
    method Control(instruction: int) returns (r: Outcome)
      requires Valid() && PC < |ROM| && instruction == ROM[PC]
      requires !Has(instruction, 0x80) && !Has(instruction, 0x40) && !Has(instruction, 0x20)
      modifies this
      ensures Valid()
      ensures After(State(), r) == Step(old(State()))
    {
      ghost var s := State();
      StepBranches(s);
      r := Pass;
      if Has(instruction, 0x10) {
        PC := PC + 1;
        assert State() == s.(PC := s.PC + 1);
        Jump(instruction);
      } else if Has(instruction, 0x08) {
        PC := PC + 1;
        assert State() == s.(PC := s.PC + 1);
        var value := SourceValue(State(), instruction);
        assert value == SourceValue(s, instruction);
        if Has(instruction, 0x04) {
          r := display.Data(value);
        }
        assert r == OutputStep(s, instruction);
      } else if Has(instruction, 0x40) || instruction == 1 {
        PC := PC + 1;
        assert State() == s.(PC := s.PC + 1);
      } else if Has(instruction, 0x02) {
        Carry(instruction);
        ghost var t := State();
        PC := PC + 1;
        assert State() == t.(PC := t.PC + 1);
      }
    }
  }
}
