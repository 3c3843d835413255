/** The byte encoding of assembly instructions (assembler/codewriter.py):
    the lookup tables, `instruction_value`, `arithmetic_value`, and the byte
    array that `write_code` builds before writing its files. */
module CodeWriter {
  import opened Wrappers
  import opened Assembly
  import Bits

  /** The register table: the number of each register in a register field
      (I and H share 2, M and Y share 3). */
  function RegisterNumber(r: Register): bv8 {
    match r
    case X => 0x00 case L => 0x01 case I => 0x02 case H => 0x02 case M => 0x03 case Y => 0x03
  }

  /** Jump condition bits. */
  const GT: bv8 := 0x09
  const LT: bv8 := 0x0C
  const EQ: bv8 := 0x0A
  const JMP: bv8 := 0x10

  /** The table of instructions without operands, which always encode to
      the same byte. */
  function Fixed(k: Keyword): Option<bv8> {
    match k
    case Jmp => Some(JMP | LT | EQ | GT)
    case Jlt => Some(JMP | LT)
    case Jeq => Some(JMP | EQ)
    case Jgt => Some(JMP | GT)
    case Jle => Some(JMP | LT | EQ)
    case Jge => Some(JMP | EQ | GT)
    case Jne => Some(JMP | LT | GT)
    case Nop => Some(0x01)
    case Jcs => Some(JMP | 0x02)
    case Jis => Some(JMP | 0x04)
    case Hlt => Some(0x00)
    case Ics => Some(0x03)
    case Icc => Some(0x02)
    case _ => None
  }

  /** ALU opcodes of the one-source instructions, when the source is X ... */
  function UnaryX(k: Keyword): Option<bv8> {
    match k
    case Not => Some(0x0) case Neg => Some(0x8) case Inc => Some(0xC) case Dec => Some(0x4)
    case _ => None
  }

  /** ... and when it is L or M. */
  function UnaryLM(k: Keyword): Option<bv8> {
    match k
    case Not => Some(0x3) case Neg => Some(0xF) case Inc => Some(0xB) case Dec => Some(0x7)
    case _ => None
  }

  function Binary(k: Keyword): Option<bv8> {
    match k
    case And => Some(0xA) case Or => Some(0xE) case Add => Some(0x9)
    case _ => None
  }

  /** The `arith` list of ALU mnemonics. */
  predicate IsArith(k: Keyword) { k == Add || k == Sub || k == Or || k == And || k == Not || k == Neg || k == Inc || k == Dec }

  function ArgumentError(message: string, args: seq<string>): Error { Compiler("Argument", message, args) }

  /** The messages of the Argument errors. */
  const MoveIntoI := "Cannot move into the 'I' register. The 'I' register is read only"
  const MoveOutOfH := "Cannot move out of the 'H' register. The 'H' register write only"
  const BadDestination := "The destination register of arithmetic and logic instructions must be 'X' or 'L'"
  const BothX := "'X' cannot be both arguments in arithmetic and logic instructions"
  const NoX := "Arithmetic and logic instructions must have at least one argument be 'X'"

  const OutputNotUsable := "The '{}' register cannot be used as the argument to the '{}' instruction"
  /** (The source's two literals join without a space.) */
  const ArithmeticNotUsable := "The '{}' register cannot be used as an argument for the arithmetic andlogic instructions"

  /** `registers[o]`: a KeyError for anything but a register. */
  function RegisterField(o: Operand): Result<bv8> {
    if o.Reg? then Success(RegisterNumber(o.register)) else Failure(Python("KeyError"))
  }

  /** The integer that `instruction_value` returns: a byte, or (for `ldb`
      with an operand outside 0..255) an integer outside the byte range. */
  datatype Value = Byte(byte: bv8) | OutOfRange(value: int)

  function Widen(r: Result<bv8>): Result<Value> {
    match r
    case Success(b) => Success(Byte(b))
    case Failure(e) => Failure(e)
  }

  /** `instruction_value`: the machine code of one instruction. */
  function InstructionValue(instruction: Instruction): Result<Value> {
    var command := instruction.command;
    if Fixed(command).Some? then Success(Byte(Fixed(command).value))
    else if command == Ldb then LoadValue(instruction.args)
    else if command == Mov then Widen(MoveValue(instruction.args))
    else if command == Opd || command == Opi then Widen(OutputValue(command, instruction.args))
    else
      var a :- ArithmeticValue(instruction);
      if a.None? then Failure(Compiler("Encoding", "Instruction not encoded: {}", []))
      else Success(Byte(a.value))
  }

  /** The `ldb` branch: `0x80 | v`, Python's bitwise or on integers. */
  function LoadValue(args: seq<Operand>): (r: Result<Value>)
    ensures r.Success? && r.value.OutOfRange? ==> !(0 <= r.value.value < 256)
  {
    if |args| < 1 then Failure(Python("IndexError"))
    else if !args[0].Number? then Failure(Python("TypeError"))
    else
      var v := args[0].value;
      if 0 <= v < 256 then Success(Byte(0x80 | v as bv8))
      else Success(OutOfRange(Bits.BitOr(0x80, v)))
  }

  /** The `mov src dst` branch. */
  function MoveValue(args: seq<Operand>): Result<bv8> {
    if |args| < 2 then Failure(Python("IndexError"))
    else
      var src, dst := args[0], args[1];
      if dst == Reg(I) then Failure(ArgumentError(MoveIntoI, []))
      else if src == Reg(H) then Failure(ArgumentError(MoveOutOfH, []))
      else if dst == Reg(M) && src == Reg(M) then Success(Fixed(Nop).value)
      else if src == Reg(Y) && dst == Reg(Y) then Success(Fixed(Nop).value)
      else
        var s: bv8 := if dst == Reg(M) || src == Reg(Y) then 1 else 0;
        var d :- RegisterField(dst);
        var r :- RegisterField(src);
        Success(0x20 | (s << 4) | (d << 2) | r)
  }

  /** The `opd`/`opi` branch, rejecting both Y and H as the register list
      in the source evidently means to (see OutputValueAsWritten). */
  function OutputValue(command: Keyword, args: seq<Operand>): Result<bv8>
    requires command == Opd || command == Opi
  {
    if |args| < 1 then Failure(Python("IndexError"))
    else if args[0] == Reg(Y) || args[0] == Reg(H) then
      Failure(ArgumentError(OutputNotUsable, [RegisterText(args[0].register), KeywordText(command)]))
    else
      var d: bv8 := if command == Opd then 1 else 0;
      var r :- RegisterField(args[0]);
      Success(0x08 | (d << 2) | r)
  }

  /** The `opd`/`opi` branch as written: the list `['Y' or 'H']` is `['Y']`,
      so only Y is rejected. */
  function OutputValueAsWritten(command: Keyword, args: seq<Operand>): Result<bv8>
    requires command == Opd || command == Opi
  {
    if |args| < 1 then Failure(Python("IndexError"))
    else if args[0] == Reg(Y) then
      Failure(ArgumentError(OutputNotUsable, [RegisterText(args[0].register), KeywordText(command)]))
    else
      var d: bv8 := if command == Opd then 1 else 0;
      var r :- RegisterField(args[0]);
      Success(0x08 | (d << 2) | r)
  }

  predicate Unusable(o: Operand) { o == Reg(I) || o == Reg(Y) || o == Reg(H) }

  /** `arithmetic_value`: None when the mnemonic is not an ALU instruction. */
  function ArithmeticValue(instruction: Instruction): Result<Option<bv8>> {
    var op, args := instruction.command, instruction.args;
    if !IsArith(op) then Success(None)
    else if |args| < 2 then Failure(Python("IndexError"))
    else
      var dst, arg1 := args[0], args[1];
      if dst != Reg(X) && dst != Reg(L) then Failure(ArgumentError(BadDestination, []))
      else if Unusable(arg1) then Failure(ArgumentError(ArithmeticNotUsable, [RegisterText(arg1.register)]))
      else
        var x: bv8 := if dst == Reg(X) then 1 else 0;
        var m: bv8 := if arg1 == Reg(M) then 1 else 0;
        if UnaryX(op).Some? then
          var opcode := if arg1 == Reg(X) then UnaryX(op).value else UnaryLM(op).value;
          Success(Some(0x40 | (x << 5) | (m << 4) | opcode))
        else if |args| < 3 then Failure(Python("IndexError"))
        else
          var arg2 := args[2];
          if Unusable(arg2) then Failure(ArgumentError(ArithmeticNotUsable, [RegisterText(arg2.register)]))
          else
            var m' := if arg2 == Reg(M) then 1 else m;
            if arg1 == Reg(X) && arg2 == Reg(X) then Failure(ArgumentError(BothX, []))
            else if arg1 != Reg(X) && arg2 != Reg(X) then Failure(ArgumentError(NoX, []))
            else
              var opcode := if op == Sub then (if arg1 == Reg(X) then 0xD else 0x5) else Binary(op).value;
              Success(Some(0x40 | (x << 5) | (m' << 4) | opcode))
  }

  predicate IsByte(r: Result<Value>) { r.Success? && r.value.Byte? }

  /** The byte array of `write_code`: one byte per instruction, byte i
      being `instruction_value(instructions[i])`. The first instruction that
      cannot be encoded raises its error; a value outside 0..255 makes
      Python's `bytes` raise ValueError once all are encoded. */
  method MachineCode(instructions: seq<Instruction>) returns (r: Result<seq<bv8>>)
    ensures r.Success? <==>
      forall i :: 0 <= i < |instructions| ==> IsByte(InstructionValue(instructions[i]))
    ensures r.Success? ==> |r.value| == |instructions|
    ensures r.Success? ==>
      forall i :: 0 <= i < |instructions| ==> InstructionValue(instructions[i]) == Success(Byte(r.value[i]))
    ensures r.Failure? ==>
      (exists i :: 0 <= i < |instructions| && InstructionValue(instructions[i]) == Failure(r.error) &&
         forall j :: 0 <= j < i ==> InstructionValue(instructions[j]).Success?) ||
      ((forall i :: 0 <= i < |instructions| ==> InstructionValue(instructions[i]).Success?) &&
       r.error == Python("ValueError"))
  {
    var machinecode := new Value[|instructions|](_ => Byte(0));
    for i := 0 to |instructions|
      invariant forall j :: 0 <= j < i ==> InstructionValue(instructions[j]) == Success(machinecode[j])
    {
      var v := InstructionValue(instructions[i]);
      if v.Failure? {
        return Failure(v.error);
      }
      machinecode[i] := v.value;
    }
    var bytes: seq<bv8> := [];
    for i := 0 to |instructions|
      invariant |bytes| == i
      invariant forall j :: 0 <= j < i ==> machinecode[j] == Byte(bytes[j])
    {
      if machinecode[i].OutOfRange? {
        assert !IsByte(InstructionValue(instructions[i]));
        return Failure(Python("ValueError"));
      }
      bytes := bytes + [machinecode[i].byte];
    }
    return Success(bytes);
  }

  /** Every instruction without operands encodes to its table byte,
      whatever follows the mnemonic. */
  lemma FixedEncoding(command: Keyword, args: seq<Operand>)
    requires Fixed(command).Some?
    ensures InstructionValue(Instruction(command, args)) == Success(Byte(Fixed(command).value))
  {
  }

  /** The table bytes: halt 0x00, nop 0x01, carry-increment 0x02/0x03, and
      the special jumps 0001 0010 (carry set) and 0001 0100 (input set) ... */
  lemma FixedBytes()
    ensures Fixed(Hlt) == Some(0x00) && Fixed(Nop) == Some(0x01) && Fixed(Icc) == Some(0x02)
    ensures Fixed(Ics) == Some(0x03) && Fixed(Jcs) == Some(0x12) && Fixed(Jis) == Some(0x14)
  {
  }

  /** ... and the conditional jumps 0001 1leg, with l, e and g the
      less-than, equal and greater-than bits. */
  lemma JumpBytes()
    ensures Fixed(Jgt) == Some(0x19) && Fixed(Jeq) == Some(0x1A) && Fixed(Jge) == Some(0x1B)
    ensures Fixed(Jlt) == Some(0x1C) && Fixed(Jne) == Some(0x1D) && Fixed(Jle) == Some(0x1E)
    ensures Fixed(Jmp) == Some(0x1F)
  {
  }

  /** An ALU mnemonic is encoded by `arithmetic_value` alone: its error is
      raised, and its byte is the instruction's value. */
  lemma ArithmeticDispatch(instruction: Instruction)
    requires IsArith(instruction.command)
    ensures ArithmeticValue(instruction).Failure? ==>
      InstructionValue(instruction) == Failure(ArithmeticValue(instruction).error)
    ensures ArithmeticValue(instruction).Success? ==>
      ArithmeticValue(instruction).value.Some? &&
      InstructionValue(instruction) == Success(Byte(ArithmeticValue(instruction).value.value))
  {
  }

  /** For an operand in 0..255 the byte computed by `LoadValue` is exactly
      Python's integer `0x80 | v`. */
  lemma LoadValueIsPythonOr(v: int)
    requires 0 <= v < 256
    ensures (0x80 | v as bv8) as int == Bits.BitOr(0x80, v)
  {
    assert Bits.Pow2(7) == 0x80;
    var b := v as bv8;
    ByteRoundTrip(v);
    if v < 128 {
      Bits.OrHighBit(7, v);
      OrIntoLowByte(b);
    } else {
      Bits.OrSetBit(7, v);
      OrIntoHighByte(b);
    }
  }

  lemma ByteRoundTrip(v: int)
    requires 0 <= v < 256
    ensures (v as bv8) as int == v
    ensures v < 128 <==> v as bv8 < 0x80
  {
  }

  lemma OrIntoLowByte(b: bv8)
    requires b < 0x80
    ensures (0x80 | b) as int == 0x80 + b as int
    ensures (0x80 | b) & 0x80 == 0x80 && (0x80 | b) & 0x7F == b
  {
  }

  lemma OrIntoHighByte(b: bv8)
    requires 0x80 <= b
    ensures 0x80 | b == b
  {
  }

  /** `ldb v` for 0 <= v <= 127 is 0x80 | v: the top bit is set and the low
      seven bits give back v. */
  lemma LoadByteEncoding(args: seq<Operand>, v: int)
    requires |args| >= 1 && args[0] == Number(v) && 0 <= v <= 127
    ensures var r := InstructionValue(Instruction(Ldb, args));
      r.Success? && r.value.Byte? && r.value.byte as int == 0x80 + v &&
      r.value.byte & 0x80 == 0x80 && r.value.byte & 0x7F == v as bv8
  {
    var b := v as bv8;
    ByteRoundTrip(v);
    OrIntoLowByte(b);
    assert InstructionValue(Instruction(Ldb, args)) == LoadValue(args) == Success(Byte(0x80 | b));
  }

  /** A move into I, or out of H, is an Argument error. */
  lemma MoveRejected(args: seq<Operand>)
    requires |args| >= 2 && (args[1] == Reg(I) || args[0] == Reg(H))
    ensures var r := InstructionValue(Instruction(Mov, args));
      r.Failure? && r.error.Compiler? && r.error.kind == "Argument"
  {
  }

  /** Every other move between registers: `mov M M` and `mov Y Y` are nops,
      and the rest are 001s ddrr with s set iff the destination is M or the
      source is Y, dd the destination's and rr the source's number. */
  lemma MoveEncoding(args: seq<Operand>, src: Register, dst: Register)
    requires |args| >= 2 && args[0] == Reg(src) && args[1] == Reg(dst)
    requires dst != I && src != H
    ensures var r := InstructionValue(Instruction(Mov, args));
      r.Success? && r.value.Byte? &&
      var b := r.value.byte;
      if (src == M && dst == M) || (src == Y && dst == Y) then b == 0x01
      else
        var s: bv8 := if dst == M || src == Y then 1 else 0;
        0x20 <= b <= 0x3F && (b >> 4) & 1 == s && (b >> 2) & 3 == RegisterNumber(dst) &&
        b & 3 == RegisterNumber(src)
  {
    if !((src == M && dst == M) || (src == Y && dst == Y)) {
      MoveFields(if dst == M || src == Y then 1 else 0, RegisterNumber(dst), RegisterNumber(src));
    }
  }

  lemma MoveFields(s: bv8, d: bv8, r: bv8)
    requires s <= 1 && d <= 3 && r <= 3
    ensures var b := 0x20 | (s << 4) | (d << 2) | r;
      0x20 <= b <= 0x3F && (b >> 4) & 1 == s && (b >> 2) & 3 == d && b & 3 == r
  {
  }

  /** `opd`/`opi` with a register: Y and H are rejected, every other register
      gives 0000 1drr with d set only for opd. */
  lemma OutputEncoding(command: Keyword, args: seq<Operand>, reg: Register)
    requires command == Opd || command == Opi
    requires |args| >= 1 && args[0] == Reg(reg)
    ensures var r := InstructionValue(Instruction(command, args));
      if reg == Y || reg == H then r.Failure? && r.error.Compiler? && r.error.kind == "Argument"
      else
        r.Success? && r.value.Byte? &&
        var b := r.value.byte;
        0x08 <= b <= 0x0F && (b >> 2) & 1 == (if command == Opd then 1 else 0) && b & 3 == RegisterNumber(reg)
  {
  }

  /** As written, `opd H` is accepted and encodes exactly as `opd I`. */
  lemma OutputAsWrittenAcceptsH()
    ensures OutputValueAsWritten(Opd, [Reg(H)]) == Success(0x0E)
    ensures OutputValueAsWritten(Opd, [Reg(I)]) == Success(0x0E)
    ensures OutputValue(Opd, [Reg(H)]).Failure?
  {
  }

  predicate Usable(r: Register) { r != I && r != Y && r != H }

  /** The register checks of the one-source ALU instructions: the
      destination must be X or L and the source not I, Y or H. */
  lemma UnaryChecks(op: Keyword, args: seq<Operand>, dst: Register, arg1: Register)
    requires op == Not || op == Neg || op == Inc || op == Dec
    requires |args| >= 2 && args[0] == Reg(dst) && args[1] == Reg(arg1)
    ensures var r := InstructionValue(Instruction(op, args));
      (r.Success? <==> (dst == X || dst == L) && Usable(arg1)) &&
      (r.Failure? ==> r.error.Compiler? && r.error.kind == "Argument")
  {
    ArithmeticDispatch(Instruction(op, args));
  }

  /** Their byte is 01xm oooo: x set iff the destination is X, m iff the
      source is M, and the opcode from the X table when the source is X,
      else from the L/M table. */
  lemma UnaryEncoding(op: Keyword, args: seq<Operand>, dst: Register, arg1: Register)
    requires op == Not || op == Neg || op == Inc || op == Dec
    requires |args| >= 2 && args[0] == Reg(dst) && args[1] == Reg(arg1)
    requires (dst == X || dst == L) && Usable(arg1)
    ensures var r := InstructionValue(Instruction(op, args));
      r.Success? && r.value.Byte? &&
      var b := r.value.byte;
      0x40 <= b <= 0x7F && ((b >> 5) & 1 == 1 <==> dst == X) && ((b >> 4) & 1 == 1 <==> arg1 == M) &&
      b & 0xF == (if arg1 == X then UnaryX(op).value else UnaryLM(op).value)
  {
    ArithmeticDispatch(Instruction(op, args));
  }

  /** The register checks of the two-source ALU instructions: the
      destination must be X or L, no argument I, Y or H, and exactly one
      argument X. */
  lemma BinaryChecks(op: Keyword, args: seq<Operand>, dst: Register, arg1: Register, arg2: Register)
    requires op == Add || op == Sub || op == Or || op == And
    requires |args| >= 3 && args[0] == Reg(dst) && args[1] == Reg(arg1) && args[2] == Reg(arg2)
    ensures var r := InstructionValue(Instruction(op, args));
      (r.Success? <==> (dst == X || dst == L) && Usable(arg1) && Usable(arg2) && ((arg1 == X) != (arg2 == X))) &&
      (r.Failure? ==> r.error.Compiler? && r.error.kind == "Argument")
  {
    ArithmeticDispatch(Instruction(op, args));
  }

  /** Their byte is 01xm oooo with m set iff either argument is M; sub
      takes opcode 0xD when its first argument is X and 0x5 otherwise. */
  lemma BinaryEncoding(op: Keyword, args: seq<Operand>, dst: Register, arg1: Register, arg2: Register)
    requires op == Add || op == Sub || op == Or || op == And
    requires |args| >= 3 && args[0] == Reg(dst) && args[1] == Reg(arg1) && args[2] == Reg(arg2)
    requires (dst == X || dst == L) && Usable(arg1) && Usable(arg2) && ((arg1 == X) != (arg2 == X))
    ensures var r := InstructionValue(Instruction(op, args));
      r.Success? && r.value.Byte? &&
      var b := r.value.byte;
      0x40 <= b <= 0x7F && ((b >> 5) & 1 == 1 <==> dst == X) && ((b >> 4) & 1 == 1 <==> arg1 == M || arg2 == M) &&
      b & 0xF == (if op == Sub then (if arg1 == X then 0xD else 0x5) else Binary(op).value)
  {
    ArithmeticDispatch(Instruction(op, args));
  }
}
