/**
 * The emulator's CPU: one `execute` step of the HADLoC machine, and the
 * 20 x 4 character display that the output instructions drive.
 *
 * The machine state is abstracted as the value `State`, and `Step` is the
 * reference definition of one fetch-decode-execute cycle. The `Computer` and
 * `Display` classes keep the source's mutable fields, and their methods are
 * proved to move the object from `s` to `Step(s)`.
 */
module Emulator {
  import opened Words

  const DisplayWidth: nat := 20
  const DisplayHeight: nat := 4
  const DisplayCells: nat := 80

  /** OPCODE_MAPPING: the six ALU control bits, from bit 5 down: zero x, negate x, zero b, negate b, add (else and), negate out. */
  function OpcodeMapping(opcode: bv4): bv6 {
    if opcode == 0x0 then 0x0D
    else if opcode == 0x3 then 0x31
    else if opcode == 0x8 then 0x0F
    else if opcode == 0xF then 0x33
    else if opcode == 0xC then 0x1F
    else if opcode == 0xB then 0x37
    else if opcode == 0x4 then 0x0E
    else if opcode == 0x7 then 0x32
    else if opcode == 0xD then 0x13
    else if opcode == 0x5 then 0x07
    else if opcode == 0xA then 0x00
    else if opcode == 0xE then 0x15
    else if opcode == 0x9 then 0x02
    else if opcode == 0x1 then 0x05
    else 0x01
  }

  predicate Control(control: bv6, i: bv6)
    requires i < 6
  {
    (control >> i) & 1 == 1
  }

  /** What one pass through the ALU yields: the output word and the new carry flag. */
  datatype AluResult = AluResult(out: bv8, carry: bool)

  /** The ALU applies the control bits in turn to x and b; only the add path changes the carry. */
  function Alu(control: bv6, x: bv8, b: bv8, carry: bool): AluResult {
    var x1 := if Control(control, 5) then 0 else x;
    var x2 := if Control(control, 4) then !x1 else x1;
    var b1 := if Control(control, 3) then 0 else b;
    var b2 := if Control(control, 2) then !b1 else b1;
    var sum := Add(x2, b2);
    var out := if Control(control, 1) then sum.value else x2 & b2;
    var cf := if Control(control, 1) then sum.carry else carry;
    AluResult(if Control(control, 0) then !out else out, cf)
  }

  /** The encoded add (opcode 9) computes x + b and sets the carry from it. */
  lemma AluAdd(x: bv8, b: bv8, cf: bool)
    ensures Alu(OpcodeMapping(0x9), x, b, cf) == AluResult(x + b, Add(x, b).carry)
  {
  }

  /** The encoded and (opcode 0xA) computes x & b and keeps the carry. */
  lemma AluAnd(x: bv8, b: bv8, cf: bool)
    ensures Alu(OpcodeMapping(0xA), x, b, cf) == AluResult(x & b, cf)
  {
  }

  /** The encoded or (opcode 0xE) computes x | b and keeps the carry. */
  lemma AluOr(x: bv8, b: bv8, cf: bool)
    ensures Alu(OpcodeMapping(0xE), x, b, cf) == AluResult(x | b, cf)
  {
  }

  /** The encoded sub: opcode 0xD computes x - b, opcode 0x5 computes b - x. */
  lemma AluSub(x: bv8, b: bv8, cf: bool)
    ensures Alu(OpcodeMapping(0xD), x, b, cf).out == x - b
    ensures Alu(OpcodeMapping(0x5), x, b, cf).out == b - x
  {
  }

  /** The encoded not: opcode 0 complements x, opcode 3 complements b; neither touches the carry. */
  lemma AluNot(x: bv8, b: bv8, cf: bool)
    ensures Alu(OpcodeMapping(0x0), x, b, cf) == AluResult(!x, cf)
    ensures Alu(OpcodeMapping(0x3), x, b, cf) == AluResult(!b, cf)
  {
  }

  /** The encoded neg: opcode 8 negates x, opcode 0xF negates b. */
  lemma AluNeg(x: bv8, b: bv8, cf: bool)
    ensures Alu(OpcodeMapping(0x8), x, b, cf).out == 0 - x
    ensures Alu(OpcodeMapping(0xF), x, b, cf).out == 0 - b
  {
  }

  /** The encoded inc: opcode 0xC adds one to x, opcode 0xB adds one to b. */
  lemma AluInc(x: bv8, b: bv8, cf: bool)
    ensures Alu(OpcodeMapping(0xC), x, b, cf).out == x + 1
    ensures Alu(OpcodeMapping(0xB), x, b, cf).out == b + 1
  {
  }

  /** The encoded dec: opcode 4 subtracts one from x, opcode 7 from b. */
  lemma AluDec(x: bv8, b: bv8, cf: bool)
    ensures Alu(OpcodeMapping(0x4), x, b, cf).out == x - 1
    ensures Alu(OpcodeMapping(0x7), x, b, cf).out == b - 1
  {
  }

  /** The display's state: a grid of characters, the cursor and its direction. */
  datatype Screen = Screen(text: seq<seq<char>>, address: int, increment: int)

  predicate ValidScreen(d: Screen) {
    && |d.text| == DisplayHeight
    && (forall row :: 0 <= row < |d.text| ==> |d.text[row]| == DisplayWidth)
    && 0 <= d.address < DisplayCells
    && (d.increment == 1 || d.increment == -1)
  }

  function BlankRow(): (r: seq<char>)
    ensures |r| == DisplayWidth
    ensures forall i :: 0 <= i < |r| ==> r[i] == ' '
  {
    seq(DisplayWidth, _ => ' ')
  }

  /** A new or cleared display: blank, the cursor home and moving forward. */
  function ClearedScreen(): (r: Screen)
    ensures ValidScreen(r)
    ensures r.address == 0 && r.increment == 1
    ensures forall row, col :: 0 <= row < DisplayHeight && 0 <= col < DisplayWidth ==> r.text[row][col] == ' '
  {
    Screen(seq(DisplayHeight, _ => BlankRow()), 0, 1)
  }

  function Chr(v: bv8): char {
    (v as int) as char
  }

  /** Writing data puts the character at the cursor and moves the cursor one cell, wrapping around the 80 cells. */
  function ScreenData(d: Screen, v: bv8): (r: Screen)
    requires ValidScreen(d)
    ensures ValidScreen(r)
    ensures r.text[d.address / DisplayWidth][d.address % DisplayWidth] == Chr(v)
    ensures forall row, col :: 0 <= row < DisplayHeight && 0 <= col < DisplayWidth && row * DisplayWidth + col != d.address ==>
      r.text[row][col] == d.text[row][col]
    ensures r.address == (d.address + d.increment) % DisplayCells && r.increment == d.increment
  {
    var row := d.address / DisplayWidth;
    var column := d.address % DisplayWidth;
    Screen(d.text[row := d.text[row][column := Chr(v)]], (d.address + d.increment) % DisplayCells, d.increment)
  }

  /** Instruction words: 1 clears the display, 2..3 return the cursor home, 4..7 set the direction from bit 1. */
  function ScreenInstruction(d: Screen, v: bv8): (r: Screen)
    requires ValidScreen(d)
    ensures ValidScreen(r)
  {
    var msb := Msb(v);
    if msb == 0 then ClearedScreen()
    else if msb == 1 then d.(address := 0)
    else if msb == 2 then d.(increment := if Bit(v, 1) then 1 else -1)
    else d
  }

  lemma ScreenInstructions(d: Screen, v: bv8)
    requires ValidScreen(d)
    ensures v == 1 ==> ScreenInstruction(d, v) == ClearedScreen()
    ensures 2 <= v <= 3 ==> ScreenInstruction(d, v) == d.(address := 0)
    ensures 4 <= v <= 7 ==> ScreenInstruction(d, v) == d.(increment := if v & 2 == 2 then 1 else -1)
    ensures (v == 0 || v >= 8) ==> ScreenInstruction(d, v) == d
  {
  }

  /** Moving backwards from the first cell wraps around to the last one. */
  lemma ScreenDataWraps(d: Screen, v: bv8)
    requires ValidScreen(d) && d.address == 0 && d.increment == -1
    ensures ScreenData(d, v).address == DisplayCells - 1
  {
  }

  class Display {
    var text: seq<seq<char>>
    var address: int
    var increment: int

    function Model(): Screen
      reads this
    {
      Screen(text, address, increment)
    }

    predicate Valid()
      reads this
    {
      ValidScreen(Model())
    }

    constructor()
      ensures Model() == ClearedScreen()
    {
      text := ClearedScreen().text;
      address := 0;
      increment := 1;
    }

    method Data(v: bv8)
      requires Valid()
      modifies this
      ensures Model() == ScreenData(old(Model()), v)
    {
      var row := address / DisplayWidth;
      var column := address % DisplayWidth;
      text := text[row := text[row][column := Chr(v)]];
      address := (address + increment) % DisplayCells;
    }

    method Instruction(v: bv8)
      requires Valid()
      modifies this
      ensures Model() == ScreenInstruction(old(Model()), v)
    {
      var msb := Msb(v);
      if msb == 0 {
        address := 0;
        increment := 1;
        text := ClearedScreen().text;
      }
      if msb == 1 {
        address := 0;
      }
      if msb == 2 {
        increment := if Bit(v, 1) then 1 else -1;
      }
    }
  }

  /** The whole machine state. */
  datatype Machine = Machine(
    L: bv8, H: bv7, PC: int, X: bv8, Y: bv8, IN: bv8,
    CF: bool, IF: bool,
    RAM: seq<bv8>, ROM: seq<bv8>, screen: Screen)

  predicate ValidState(s: Machine) {
    0 <= s.PC < MemorySize && |s.RAM| == MemorySize && |s.ROM| == MemorySize && ValidScreen(s.screen)
  }

  /** The machine after power-on with `program` at the start of ROM. */
  function Initial(program: seq<bv8>): (s: Machine)
    requires |program| <= MemorySize
    ensures ValidState(s)
    ensures s.L == 0 && s.H == 0 && s.PC == 0 && s.X == 0 && s.Y == 0 && s.IN == 0 && !s.CF && !s.IF
    ensures forall i :: 0 <= i < MemorySize ==> s.RAM[i] == 0
    ensures forall i :: 0 <= i < |program| ==> s.ROM[i] == program[i]
    ensures forall i :: |program| <= i < MemorySize ==> s.ROM[i] == 0
  {
    Machine(0, 0, 0, 0, 0, 0, false, false,
      seq(MemorySize, _ => 0), program + seq(MemorySize - |program|, _ => 0), ClearedScreen())
  }

  /** The byte at H:L. */
  function Memory(s: Machine): bv8
    requires ValidState(s)
  {
    s.RAM[Address(s.H, s.L)]
  }

  function Fetch(s: Machine): bv8
    requires ValidState(s)
  {
    s.ROM[s.PC]
  }

  predicate Terminated(s: Machine)
    requires ValidState(s)
  {
    Fetch(s) == 0
  }

  /** Arithmetic and logic: the low 4 bits select the opcode, bit 4 selects memory over L as b, bit 5 selects X over L as the result. */
  function AluStep(s: Machine, outX: bool, m: bool, opcode: bv4): (r: Machine)
    requires ValidState(s)
    ensures ValidState(r)
  {
    var b := if m then Memory(s) else s.L;
    var result := Alu(OpcodeMapping(opcode), s.X, b, s.CF);
    if outX then s.(X := result.out, CF := result.carry) else s.(L := result.out, CF := result.carry)
  }

  /** The move source: bits 0..1 give X, L, IN or memory, and memory becomes Y when bit 4 is set. */
  function SourceField(instruction: bv8): (r: bv8)
    ensures r <= 4
  {
    var field := instruction & 3;
    if field == 3 then field + ((instruction >> 4) & 1) else field
  }

  /** The move destination: bits 2..3 give X, L, H or Y, and Y becomes memory when bit 4 is set. */
  function DestinationField(instruction: bv8): (r: bv8)
    ensures r <= 4
  {
    var field := (instruction >> 2) & 3;
    if field == 3 then field + ((instruction >> 4) & 1) else field
  }

  function MoveSource(s: Machine, source: bv8): bv8
    requires ValidState(s)
  {
    if source == 1 then s.L
    else if source == 2 then s.IN
    else if source == 3 then Memory(s)
    else if source == 4 then s.Y
    else s.X
  }

  function MoveStep(s: Machine, instruction: bv8): (r: Machine)
    requires ValidState(s)
    ensures ValidState(r)
  {
    var value := MoveSource(s, SourceField(instruction));
    var destination := DestinationField(instruction);
    if destination == 0 then s.(X := value)
    else if destination == 1 then s.(L := value)
    else if destination == 2 then s.(H := (value & 0x7F) as bv7)
    else if destination == 3 then s.(Y := value)
    else s.(RAM := s.RAM[Address(s.H, s.L) := value])
  }

  /** Whether a compare jump (bit 3 set) is taken: bit 0 on positive X, bit 1 on zero X, bit 2 on negative X (X read as two's complement). */
  predicate CompareTaken(instruction: bv8, x: bv8) {
    || (Bit(instruction, 0) && 0 < x < 128)
    || (Bit(instruction, 1) && x == 0)
    || (Bit(instruction, 2) && x >= 128)
  }

  /** The positive test as the emulator writes it, `0 < X < 127`. */
  predicate CompareTakenAsWritten(instruction: bv8, x: bv8) {
    || (Bit(instruction, 0) && 0 < x < 127)
    || (Bit(instruction, 1) && x == 0)
    || (Bit(instruction, 2) && x >= 128)
  }

  /** Whether a jump is taken: compare jumps test X, the others test the carry flag (bit 1) and the input flag (bit 2). */
  predicate JumpTaken(instruction: bv8, x: bv8, cf: bool, inputFlag: bool) {
    if Bit(instruction, 3) then CompareTaken(instruction, x)
    else (Bit(instruction, 1) && cf) || (Bit(instruction, 2) && inputFlag)
  }

  function JumpStep(s: Machine, instruction: bv8): (r: Machine)
    requires ValidState(s)
    ensures ValidState(r)
  {
    if JumpTaken(instruction, s.X, s.CF, s.IF) then s.(PC := Address(s.H, s.L)) else s
  }

  /** Output: bits 0..1 pick X, L, IN or memory; bit 2 sends the word to the display as data, otherwise as an instruction. */
  function OutputStep(s: Machine, instruction: bv8): (r: Machine)
    requires ValidState(s)
    ensures ValidState(r)
  {
    var source := instruction & 3;
    var value := if source == 1 then s.L else if source == 2 then s.IN else if source == 3 then Memory(s) else s.X;
    if Bit(instruction, 2) then s.(screen := ScreenData(s.screen, value))
    else s.(screen := ScreenInstruction(s.screen, value))
  }

  /** Carry increment: H goes up by one (wrapping at 7 bits) exactly when CF equals bit 0. */
  function CarryStep(s: Machine, instruction: bv8): (r: Machine)
    requires ValidState(s)
    ensures ValidState(r)
  {
    if s.CF == Bit(instruction, 0) then s.(H := s.H + 1) else s
  }

  /** Decoding: the instruction class is the index of the highest set bit of the instruction. */
  function Dispatch(t: Machine, instruction: bv8): (r: Machine)
    requires ValidState(t)
    ensures ValidState(r)
  {
    var msb := Msb(instruction);
    if msb == 7 then t.(L := instruction & 0x7F)
    else if msb == 6 then AluStep(t, Bit(instruction, 5), Bit(instruction, 4), (instruction & 0xF) as bv4)
    else if msb == 5 then MoveStep(t, instruction)
    else if msb == 4 then JumpStep(t, instruction)
    else if msb == 3 then OutputStep(t, instruction)
    else if msb == 1 then CarryStep(t, instruction)
    else t
  }

  /** One fetch-decode-execute cycle: the zero instruction halts; any other advances PC (wrapping at 15 bits) and then takes effect. */
  function Step(s: Machine): (r: Machine)
    requires ValidState(s)
    ensures ValidState(r)
  {
    var instruction := Fetch(s);
    if instruction == 0 then s
    else Dispatch(s.(PC := (s.PC + 1) % MemorySize), instruction)
  }

  /** The machine with PC advanced past the current instruction. */
  function Advance(s: Machine): (r: Machine)
    requires ValidState(s)
    ensures ValidState(r)
  {
    s.(PC := (s.PC + 1) % MemorySize)
  }

  /** The zero instruction halts: the machine is terminated and a step changes nothing. */
  lemma HaltStep(s: Machine)
    requires ValidState(s) && Fetch(s) == 0
    ensures Terminated(s) && Step(s) == s
  {
  }

  /** An instruction with the top bit set loads its low 7 bits into L and changes nothing else but PC. */
  lemma LoadStep(s: Machine)
    requires ValidState(s) && Fetch(s) >= 0x80
    ensures Step(s) == Advance(s).(L := Fetch(s) & 0x7F)
    ensures Step(s).L < 0x80
  {
  }

  /** Instructions 0x40..0x7F run the ALU on X and L or memory (bit 4) and write X or L (bit 5) and the carry. */
  lemma AluInstructionStep(s: Machine)
    requires ValidState(s) && 0x40 <= Fetch(s) < 0x80
    ensures var i := Fetch(s);
      var result := Alu(OpcodeMapping((i & 0xF) as bv4), s.X, if i & 0x10 != 0 then Memory(s) else s.L, s.CF);
      Step(s) == if i & 0x20 != 0 then Advance(s).(X := result.out, CF := result.carry)
                 else Advance(s).(L := result.out, CF := result.carry)
  {
  }

  /** Instructions 0x10..0x1F jump to H:L when their condition holds and otherwise only advance PC. */
  lemma JumpInstructionStep(s: Machine)
    requires ValidState(s) && 0x10 <= Fetch(s) < 0x20
    ensures Step(s) == if JumpTaken(Fetch(s), s.X, s.CF, s.IF) then s.(PC := Address(s.H, s.L)) else Advance(s)
  {
  }

  /** Instructions 2 and 3 increment H (wrapping at 7 bits) exactly when CF is clear or set in turn. */
  lemma CarryInstructionStep(s: Machine)
    requires ValidState(s) && 2 <= Fetch(s) <= 3
    ensures Step(s) == Advance(s).(H := if s.CF == (Fetch(s) == 3) then s.H + 1 else s.H)
  {
  }

  /** Instructions 1 and 4..7 only advance PC. */
  lemma NoEffectStep(s: Machine)
    requires ValidState(s) && (Fetch(s) == 1 || 4 <= Fetch(s) < 8)
    ensures Step(s) == Advance(s)
  {
  }

  /** Memory is reached through H:L: a move from memory reads that cell and a move into memory writes only that cell. */
  lemma MemoryMoveStep(s: Machine)
    requires ValidState(s) && Fetch(s) == 0x3C
    ensures Step(s) == Advance(s).(RAM := s.RAM[Address(s.H, s.L) := s.X])
  {
  }

  /** A move into H keeps only the low 7 bits of the source. */
  lemma MoveIntoHStep(s: Machine)
    requires ValidState(s) && Fetch(s) == 0x28
    ensures Step(s) == Advance(s).(H := (s.X & 0x7F) as bv7)
  {
  }

  /** The compare jumps as written skip the positive value 127, which the corrected test takes. */
  lemma CompareAsWrittenSkips127()
    ensures !CompareTakenAsWritten(0x19, 127) && CompareTaken(0x19, 127)
    ensures !CompareTakenAsWritten(0x1E, 127)
  {
  }

  /** With the corrected test, exactly one of a positive, zero and negative condition holds for every X. */
  lemma CompareCovers(x: bv8)
    ensures CompareTaken(0x19, x) != CompareTaken(0x1E, x)
    ensures CompareTaken(0x1A, x) != CompareTaken(0x1D, x)
    ensures CompareTaken(0x1C, x) != CompareTaken(0x1B, x)
  {
  }

  class Computer {
    var L: bv8
    var H: bv7
    var PC: int
    var X: bv8
    var Y: bv8
    var IN: bv8
    var CF: bool
    var IF: bool
    const RAM: array<bv8>
    const ROM: array<bv8>
    const display: Display

    predicate Valid()
      reads this, display
    {
      0 <= PC < MemorySize && RAM.Length == MemorySize && ROM.Length == MemorySize && RAM != ROM && display.Valid()
    }

    function State(): Machine
      reads this, RAM, ROM, display
    {
      Machine(L, H, PC, X, Y, IN, CF, IF, RAM[..], ROM[..], display.Model())
    }

    constructor(program: seq<bv8>)
      requires |program| <= MemorySize
      ensures Valid() && fresh(RAM) && fresh(ROM) && fresh(display)
      ensures State() == Initial(program)
    {
      L, H, PC, X, Y, IN := 0, 0, 0, 0, 0, 0;
      CF, IF := false, false;
      var rom := new bv8[MemorySize](_ => 0);
      for i := 0 to |program|
        invariant forall j :: 0 <= j < i ==> rom[j] == program[j]
        invariant forall j :: i <= j < MemorySize ==> rom[j] == 0
      {
        rom[i] := program[i];
      }
      ROM := rom;
      RAM := new bv8[MemorySize](_ => 0);
      display := new Display();
      new;
      assert RAM[..] == Initial(program).RAM;
      assert ROM[..] == Initial(program).ROM;
    }

    predicate Terminated()
      requires Valid()
      reads this, ROM, display
    {
      ROM[PC] == 0
    }

    /** Input arrives: IN takes the value and the input flag is raised. */
    method Input(v: bv8)
      modifies this
      ensures State() == old(State()).(IN := v, IF := true)
    {
      IN := v;
      IF := true;
    }

    function ReadMem(): bv8
      requires Valid()
      reads this, RAM, display
    {
      RAM[Address(H, L)]
    }

    method WriteMem(v: bv8)
      requires Valid()
      modifies RAM
      ensures RAM[..] == old(RAM[..])[Address(H, L) := v]
    {
      RAM[Address(H, L)] := v;
    }

    method ExecuteAl(outX: bool, m: bool, opcode: bv4)
      requires Valid()
      modifies this
      ensures Valid()
      ensures State() == AluStep(old(State()), outX, m, opcode)
    {
      ghost var s := State();
      var b := if m then ReadMem() else L;
      assert b == if m then Memory(s) else s.L;
      var result := Alu(OpcodeMapping(opcode), X, b, CF);
      CF := result.carry;
      if outX {
        X := result.out;
      } else {
        L := result.out;
      }
    }

    method Move(instruction: bv8)
      requires Valid()
      modifies this, RAM
      ensures Valid()
      ensures State() == MoveStep(old(State()), instruction)
    {
      var value := MoveSource(State(), SourceField(instruction));
      var destination := DestinationField(instruction);
      if destination == 0 {
        X := value;
      } else if destination == 1 {
        L := value;
      } else if destination == 2 {
        H := (value & 0x7F) as bv7;
      } else if destination == 3 {
        Y := value;
      } else {
        WriteMem(value);
      }
    }

    method Output(instruction: bv8)
      requires Valid()
      modifies display
      ensures Valid()
      ensures State() == OutputStep(old(State()), instruction)
    {
      var source := instruction & 3;
      var value := X;
      if source == 1 {
        value := L;
      } else if source == 2 {
        value := IN;
      } else if source == 3 {
        value := ReadMem();
      }
      if Bit(instruction, 2) {
        display.Data(value);
      } else {
        display.Instruction(value);
      }
    }

    method Jump(instruction: bv8)
      requires Valid()
      modifies this
      ensures Valid()
      ensures State() == JumpStep(old(State()), instruction)
    {
      if JumpTaken(instruction, X, CF, IF) {
        PC := Address(H, L);
      }
    }

    method CarryIncrement(instruction: bv8)
      requires Valid()
      modifies this
      ensures Valid()
      ensures State() == CarryStep(old(State()), instruction)
    {
      if CF == Bit(instruction, 0) {
        H := H + 1;
      }
    }

    method Decode(instruction: bv8)
      requires Valid()
      modifies this, RAM, display
      ensures Valid()
      ensures State() == Dispatch(old(State()), instruction)
    {
      var msb := Msb(instruction);
      if msb == 7 {
        L := instruction & 0x7F;
      } else if msb == 6 {
        ExecuteAl(Bit(instruction, 5), Bit(instruction, 4), (instruction & 0xF) as bv4);
      } else if msb == 5 {
        Move(instruction);
      } else if msb == 4 {
        Jump(instruction);
      } else if msb == 3 {
        Output(instruction);
      } else if msb == 1 {
        CarryIncrement(instruction);
      }
    }

    /** Executes a single instruction. */
    method Execute()
      requires Valid()
      modifies this, RAM, display
      ensures Valid()
      ensures State() == Step(old(State()))
    {
      var instruction := ROM[PC];
      if instruction == 0 {
        return;
      }
      PC := (PC + 1) % MemorySize;
      Decode(instruction);
    }
  }
}
