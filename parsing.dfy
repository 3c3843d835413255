/**
 * The assembler's parser (assembler/parser.py) as functions on its state.
 * The parser reads rows of tokens, one row per source line, each token a
 * type and a value; it walks them with a line number and an index into the
 * line, fills the label and constant tables, records the labels and
 * constants it sees used, and appends instruction lists. Each function
 * here is one method of the parser applied to a State value and returns its
 * result with the new State, or the exception it raises; the class of
 * parser.dfy runs the same steps on its fields.
 *
 * Token values are those of the CodeObjects the source compares (an int or
 * a str); the text they carry only serves the error messages. Error
 * messages are kept as templates, without the values formatted into them,
 * except the mnemonic that the load and define paths put in.
 */
module AsmParsing {
  import opened Wrappers
  import opened Bits
  import O = CStringObjects
  import A = Assembly
  import CodeWriter

  /** The token types the parser compares with. */
  datatype TokenType = KeywordToken | IdentifierToken | IntegerToken | RegisterToken | SymbolToken

  /** A token of a row: `(type, value)`. */
  datatype Token = Token(kind: TokenType, value: O.Value)

  type Row = seq<Token>

  /** An instruction list: the mnemonic, then its arguments. */
  type Instr = seq<O.Value>

  /** The fields of a Parser. Labels and constants are keyed by the value
      of the identifier, as the CodeObject's hash and equality are. */
  datatype State = State(
    line: nat, index: nat,
    labels: map<O.Value, int>, constants: map<O.Value, O.Value>,
    instructions: seq<Instr>,
    usedLabels: seq<O.Value>, usedConstants: seq<O.Value>)

  /** A result together with the state after the step that computed it. */
  datatype Parsed<T> = Parsed(result: T, state: State)

  const Nop: Instr := [O.StrValue("nop")]
  const Hlt: Instr := [O.StrValue("hlt")]
  const NotLL: Instr := [O.StrValue("not"), O.StrValue("L"), O.StrValue("L")]
  const MovLH: Instr := [O.StrValue("mov"), O.StrValue("L"), O.StrValue("H")]

  const MultipleDefinitions := "The identifier '{}' has multiple definitions"
  const ExpectedIdentifier := "Expected identifier after a 'define' keyword"
  const InvalidName := "Invalid name, '{}', used in expression. Constants must be defined before they are used, and labels cannot be used in expressions"
  const LiteralRange := "Integer literals must be in the range -32768 to 65535 (inclusive)"
  const UnmatchedBracket := "Unmatched bracket"
  const ExpectedClosing := "Invalid Syntax. Expected closing bracket"
  const MissingValue := "Missing value for '{}' instruction. Expected label, constant, or expression involving constants"
  const UnexpectedValue := "Unexpected token. Expected label, constant, or expression involving constants"
  const ExpectedArgument := "Expected {0} for argument {1} in '{2}' instruction"
  const UnexpectedToken := "Unexpected Token"
  const Undefined := "The identifier '{}' has not been defined"

  /** The state `__init__` sets up before parsing: two nops. */
  function Initial(): State {
    State(0, 0, map[], map[], [Nop, Nop], [], [])
  }

  /** The line exists and the index lies within it or just past its end. */
  predicate Fits(rows: seq<Row>, s: State) {
    s.line < |rows| && s.index <= |rows[s.line]|
  }

  /** `type(offset)`: the type of a token on the current line, None (the
      empty string) past its end. */
  function TypeAt(rows: seq<Row>, s: State, offset: nat): Option<TokenType>
    requires s.line < |rows|
  {
    if s.index + offset >= |rows[s.line]| then None else Some(rows[s.line][s.index + offset].kind)
  }

  /** `value(offset)`: the value of a token on the current line, None past
      its end. */
  function ValueAt(rows: seq<Row>, s: State, offset: nat): Option<O.Value>
    requires s.line < |rows|
  {
    if s.index + offset >= |rows[s.line]| then None else Some(rows[s.line][s.index + offset].value)
  }

  /** `value(offset) == w` for a str w. */
  predicate Is(rows: seq<Row>, s: State, offset: nat, w: string)
    requires s.line < |rows|
  {
    ValueAt(rows, s, offset) == Some(O.StrValue(w))
  }

  /** What evaluating an expression may change: it moves along its line and
      records the constants it reads (and, for a label argument, the label). */
  predicate Advanced(s: State, t: State) {
    t.line == s.line && s.index <= t.index && t.labels == s.labels && t.constants == s.constants
    && t.instructions == s.instructions && s.usedLabels <= t.usedLabels && s.usedConstants <= t.usedConstants
  }

  /** `parse_primary`: a defined constant, an integer literal in range, or a
      bracketed or-expression. */
  function Primary(rows: seq<Row>, s: State): (r: Result<Parsed<O.Value>>)
    requires Fits(rows, s)
    ensures r.Success? ==> Fits(rows, r.value.state) && Advanced(s, r.value.state)
    ensures r.Success? ==> r.value.state.usedLabels == s.usedLabels
    ensures TypeAt(rows, s, 0) == Some(IntegerToken) && ValueAt(rows, s, 0).value.IntValue? ==>
      var n := ValueAt(rows, s, 0).value.i;
      && (r.Success? <==> -32768 <= n < 65536)
      && (r.Success? ==> r.value == Parsed(O.IntValue(n), s.(index := s.index + 1)))
      && (r.Failure? ==> r.error == Compiler("Value", LiteralRange, []))
    ensures TypeAt(rows, s, 0) == Some(IdentifierToken) ==>
      var name := ValueAt(rows, s, 0).value;
      && (r.Success? <==> name in s.constants)
      && (r.Success? ==> r.value.result == s.constants[name] && r.value.state.usedConstants == s.usedConstants + [name])
      && (r.Failure? ==> r.error == Compiler("Name", InvalidName, []))
    decreases |rows[s.line]| - s.index, 0
  {
    var v := ValueAt(rows, s, 0);
    if TypeAt(rows, s, 0) == Some(IdentifierToken) then
      if v.value in s.constants then
        Success(Parsed(s.constants[v.value], s.(index := s.index + 1, usedConstants := s.usedConstants + [v.value])))
      else Failure(Compiler("Name", InvalidName, []))
    else if TypeAt(rows, s, 0) == Some(IntegerToken) then
      if v.value.StrValue? then Failure(Python("TypeError"))
      else if -32768 <= v.value.i < 65536 then Success(Parsed(v.value, s.(index := s.index + 1)))
      else Failure(Compiler("Value", LiteralRange, []))
    else if v == Some(O.StrValue("(")) then
      var e :- Or(rows, s.(index := s.index + 1));
      var t := e.state;
      if Is(rows, t, 0, ")") then Success(Parsed(e.result, t.(index := t.index + 1)))
      else if ValueAt(rows, t, 0).None? then Failure(Compiler("Syntax", UnmatchedBracket, []))
      else Failure(Compiler("Syntax", ExpectedClosing, []))
    else if v.None? then Failure(Compiler("Syntax", MissingValue, []))
    else Failure(Compiler("Syntax", UnexpectedValue, []))
  }

  /** `parse_unary_expression` from the point where `minus` and `invert`
      hold the parities of the signs read so far: every '-' and '!' flips
      one of them; after the primary the value is negated, then inverted. */
  function Unary(rows: seq<Row>, s: State, minus: bool, invert: bool): (r: Result<Parsed<O.Value>>)
    requires Fits(rows, s)
    ensures r.Success? ==> Fits(rows, r.value.state) && Advanced(s, r.value.state)
    ensures r.Success? ==> r.value.state.usedLabels == s.usedLabels
    decreases |rows[s.line]| - s.index, 1
  {
    if Is(rows, s, 0, "-") then Unary(rows, s.(index := s.index + 1), !minus, invert)
    else if Is(rows, s, 0, "!") then Unary(rows, s.(index := s.index + 1), minus, !invert)
    else
      var p :- Primary(rows, s);
      var m :- if minus then O.NegateValue(p.result) else Success(p.result);
      var n :- if invert then O.InvertValue(m) else Success(m);
      Success(Parsed(n, p.state))
  }

  /** The loop of `parse_arithmetic_expression` with the value so far. */
  function ArithmeticLoop(rows: seq<Row>, v: O.Value, s: State): (r: Result<Parsed<O.Value>>)
    requires Fits(rows, s)
    ensures r.Success? ==> Fits(rows, r.value.state) && Advanced(s, r.value.state)
    ensures r.Success? ==> r.value.state.usedLabels == s.usedLabels
    decreases |rows[s.line]| - s.index, 2
  {
    var op := AddingOp(rows, s);
    if op.Some? then
      var u :- Unary(rows, s.(index := s.index + 1), false, false);
      var w :- O.Apply(op.value, v, u.result);
      ArithmeticLoop(rows, w, u.state)
    else Success(Parsed(v, s))
  }

  /** The operator of `tokenvalue in ['+', '-']`, if the current token is one. */
  function AddingOp(rows: seq<Row>, s: State): (r: Option<O.BinaryOp>)
    requires s.line < |rows|
    ensures r == Some(O.Plus) <==> Is(rows, s, 0, "+")
    ensures r == Some(O.Minus) <==> Is(rows, s, 0, "-")
    ensures r.Some? ==> r == Some(O.Plus) || r == Some(O.Minus)
  {
    if Is(rows, s, 0, "+") then Some(O.Plus) else if Is(rows, s, 0, "-") then Some(O.Minus) else None
  }

  /** `parse_arithmetic_expression`. */
  function Arithmetic(rows: seq<Row>, s: State): (r: Result<Parsed<O.Value>>)
    requires Fits(rows, s)
    ensures r.Success? ==> Fits(rows, r.value.state) && Advanced(s, r.value.state)
    ensures r.Success? ==> r.value.state.usedLabels == s.usedLabels
    decreases |rows[s.line]| - s.index, 3
  {
    var u :- Unary(rows, s, false, false);
    ArithmeticLoop(rows, u.result, u.state)
  }

  /** The loop of `parse_and_expression`. */
  function AndLoop(rows: seq<Row>, v: O.Value, s: State): (r: Result<Parsed<O.Value>>)
    requires Fits(rows, s)
    ensures r.Success? ==> Fits(rows, r.value.state) && Advanced(s, r.value.state)
    ensures r.Success? ==> r.value.state.usedLabels == s.usedLabels
    decreases |rows[s.line]| - s.index, 4
  {
    if Is(rows, s, 0, "&") then
      var a :- Arithmetic(rows, s.(index := s.index + 1));
      var w :- O.Apply(O.And, v, a.result);
      AndLoop(rows, w, a.state)
    else Success(Parsed(v, s))
  }

  /** `parse_and_expression`. */
  function And(rows: seq<Row>, s: State): (r: Result<Parsed<O.Value>>)
    requires Fits(rows, s)
    ensures r.Success? ==> Fits(rows, r.value.state) && Advanced(s, r.value.state)
    ensures r.Success? ==> r.value.state.usedLabels == s.usedLabels
    decreases |rows[s.line]| - s.index, 5
  {
    var a :- Arithmetic(rows, s);
    AndLoop(rows, a.result, a.state)
  }

  /** The loop of `parse_or_expression`. */
  function OrLoop(rows: seq<Row>, v: O.Value, s: State): (r: Result<Parsed<O.Value>>)
    requires Fits(rows, s)
    ensures r.Success? ==> Fits(rows, r.value.state) && Advanced(s, r.value.state)
    ensures r.Success? ==> r.value.state.usedLabels == s.usedLabels
    decreases |rows[s.line]| - s.index, 6
  {
    if Is(rows, s, 0, "|") then
      var a :- And(rows, s.(index := s.index + 1));
      var w :- O.Apply(O.Or, v, a.result);
      OrLoop(rows, w, a.state)
    else Success(Parsed(v, s))
  }

  /** `parse_or_expression`. */
  function Or(rows: seq<Row>, s: State): (r: Result<Parsed<O.Value>>)
    requires Fits(rows, s)
    ensures r.Success? ==> Fits(rows, r.value.state) && Advanced(s, r.value.state)
    ensures r.Success? ==> r.value.state.usedLabels == s.usedLabels
    decreases |rows[s.line]| - s.index, 7
  {
    var a :- And(rows, s);
    OrLoop(rows, a.result, a.state)
  }

  /** `parse_constant_expression`: an identifier that names no constant is
      a label argument, recorded as used; anything else is an or-expression,
      of type 'integer'. The result is a `(type, value)` pair. */
  function ConstantExpression(rows: seq<Row>, s: State): (r: Result<Parsed<Token>>)
    requires Fits(rows, s)
    ensures r.Success? ==> Fits(rows, r.value.state) && Advanced(s, r.value.state)
    ensures r.Success? ==> r.value.result.kind == IdentifierToken || r.value.result.kind == IntegerToken
    ensures TypeAt(rows, s, 0) == Some(IdentifierToken) && ValueAt(rows, s, 0).value !in s.constants ==>
      var name := ValueAt(rows, s, 0).value;
      r == Success(Parsed(Token(IdentifierToken, name), s.(index := s.index + 1, usedLabels := s.usedLabels + [name])))
    ensures !(TypeAt(rows, s, 0) == Some(IdentifierToken) && ValueAt(rows, s, 0).value !in s.constants) ==>
      && (r.Success? <==> Or(rows, s).Success?)
      && (r.Success? ==> r.value == Parsed(Token(IntegerToken, Or(rows, s).value.result), Or(rows, s).value.state))
      && (r.Failure? ==> r.error == Or(rows, s).error)
  {
    if TypeAt(rows, s, 0) == Some(IdentifierToken) && ValueAt(rows, s, 0).value !in s.constants then
      var name := ValueAt(rows, s, 0).value;
      Success(Parsed(Token(IdentifierToken, name), s.(index := s.index + 1, usedLabels := s.usedLabels + [name])))
    else
      var e :- Or(rows, s);
      Success(Parsed(Token(IntegerToken, e.result), e.state))
  }

  /** `ce.msg = ce.msg.format(instr)`: the only message left with a
      placeholder when it reaches the caller is the missing-value one. */
  function Reformat<T>(r: Result<T>, instr: string): (q: Result<T>)
    ensures q.Success? <==> r.Success?
    ensures q.Success? ==> q == r
    ensures q.Failure? ==> (q.error.Compiler? <==> r.error.Compiler?) && (q.error.Compiler? ==> q.error.kind == r.error.kind)
  {
    if r.Failure? && r.error.Compiler? && r.error.message == MissingValue then Failure(r.error.(args := [instr]))
    else r
  }

  /** Python's `list.insert(i, x)`: a negative index counts from the end,
      and the position is clipped to the list. */
  function Insert<T>(xs: seq<T>, i: int, x: T): (r: seq<T>)
    ensures |r| == |xs| + 1
  {
    var p := if i < 0 then (if |xs| + i < 0 then 0 else |xs| + i) else if i > |xs| then |xs| else i;
    xs[..p] + [x] + xs[p..]
  }

  /** `value & 0xFF` for 'ldb', `(value >> 8) & 0xFF` for any other load. */
  function SelectedByte(instr: O.Value, v: O.Value): (r: Result<int>)
    ensures r.Success? <==> v.IntValue?
  {
    var b :- if instr == O.StrValue("ldb") then O.Apply(O.And, v, O.IntValue(255))
             else var high :- O.Apply(O.RightShift, v, O.IntValue(8)); O.Apply(O.And, high, O.IntValue(255));
    Success(b.i)
  }

  /** `write_load(instr, tokentype, value, index)`, with the mnemonic of the
      complemented load a parameter: a label argument is written as it is;
      a byte in 0..127 as one 'ldb'; any other byte as a load of its ones'
      complement followed by `not L L`, the two inserted at one index. The
      result is the number of instructions written. */
  function LoadWith(s: State, instr: O.Value, arg: Token, at: Option<int>, complemented: O.Value): Result<Parsed<nat>> {
    var i := if at.None? then |s.instructions| else at.value;
    if arg.kind == IdentifierToken then
      Success(Parsed(1, s.(instructions := Insert(s.instructions, i, [instr, arg.value]))))
    else if arg.kind == IntegerToken then
      var b :- SelectedByte(instr, arg.value);
      if 0 <= b <= 127 then
        Success(Parsed(1, s.(instructions := Insert(s.instructions, i, [O.StrValue("ldb"), O.IntValue(b)]))))
      else
        var low := Insert(s.instructions, i, NotLL);
        Success(Parsed(2, s.(instructions := Insert(low, i, [complemented, O.IntValue(BitAnd(BitNot(b), 255))]))))
    else Failure(Python("BaseException"))
  }

  /** `write_load` as written: the complemented load keeps the mnemonic it
      was given, so an 'ldu' whose upper byte is 128 or more stays 'ldu'. */
  function LoadAsWritten(s: State, instr: O.Value, arg: Token, at: Option<int>): Result<Parsed<nat>> {
    LoadWith(s, instr, arg, at, instr)
  }

  /** `write_load` as intended: the machine only loads bytes into L, so the
      complemented load is an 'ldb' whichever byte was selected. */
  function Load(s: State, instr: O.Value, arg: Token, at: Option<int>): Result<Parsed<nat>> {
    LoadWith(s, instr, arg, at, O.StrValue("ldb"))
  }

  /** `write_lda`: the upper byte, `mov L H`, then the lower byte. */
  function Lda(rows: seq<Row>, s: State): (r: Result<State>)
    requires Fits(rows, s)
    ensures r.Success? ==> Fits(rows, r.value) && r.value.line == s.line && s.index <= r.value.index
    ensures r.Success? ==> r.value.labels == s.labels && r.value.constants == s.constants
    ensures r.Success? ==> s.instructions <= r.value.instructions
  {
    var e :- Reformat(ConstantExpression(rows, s), "lda");
    var u :- Load(e.state, O.StrValue("ldu"), e.result, None);
    var b :- Load(u.state.(instructions := u.state.instructions + [MovLH]), O.StrValue("ldb"), e.result, None);
    AppendedLoad(e.state, O.StrValue("ldu"), e.result);
    AppendedLoad(u.state.(instructions := u.state.instructions + [MovLH]), O.StrValue("ldb"), e.result);
    Success(b.state)
  }

  /** The instructions `write_load` appends when no index is given. */
  function Emitted(instr: O.Value, arg: Token, complemented: O.Value): seq<Instr>
    requires arg.kind == IdentifierToken || (arg.kind == IntegerToken && arg.value.IntValue?)
  {
    if arg.kind == IdentifierToken then [[instr, arg.value]]
    else
      var b := SelectedByte(instr, arg.value).value;
      if 0 <= b <= 127 then [[O.StrValue("ldb"), O.IntValue(b)]]
      else [[complemented, O.IntValue(BitAnd(BitNot(b), 255))], NotLL]
  }

  /** Without an index the load is appended, and only the instructions
      change. */
  lemma AppendedLoad(s: State, instr: O.Value, arg: Token)
    ensures var r := Load(s, instr, arg, None);
      r.Success? ==> r.value.state == s.(instructions := s.instructions + Emitted(instr, arg, O.StrValue("ldb")))
  {
    AppendedLoadWith(s, instr, arg, O.StrValue("ldb"));
  }

  lemma {:induction false} AppendedLoadWith(s: State, instr: O.Value, arg: Token, complemented: O.Value)
    ensures var r := LoadWith(s, instr, arg, None, complemented);
      r.Success? ==>
        && r.value.state == s.(instructions := s.instructions + Emitted(instr, arg, complemented))
        && r.value.result == |Emitted(instr, arg, complemented)|
  {
    var r := LoadWith(s, instr, arg, None, complemented);
    if r.Success? {
      var n := |s.instructions|;
      if arg.kind == IdentifierToken {
        InsertAtEnd(s.instructions, [instr, arg.value]);
      } else {
        var b := SelectedByte(instr, arg.value).value;
        if 0 <= b <= 127 {
          InsertAtEnd(s.instructions, [O.StrValue("ldb"), O.IntValue(b)]);
        } else {
          var low := Insert(s.instructions, n, NotLL);
          InsertAtEnd(s.instructions, NotLL);
          InsertBeforeLast(s.instructions, n, NotLL, [complemented, O.IntValue(BitAnd(BitNot(b), 255))]);
        }
      }
    }
  }

  lemma InsertAtEnd<T>(xs: seq<T>, x: T)
    ensures Insert(xs, |xs|, x) == xs + [x]
  {
    assert xs[..|xs|] == xs && xs[|xs|..] == [];
  }

  lemma InsertBeforeLast<T>(xs: seq<T>, n: int, x: T, y: T)
    requires n == |xs|
    ensures Insert(xs + [x], n, y) == xs + [y, x]
  {
    var low := xs + [x];
    assert low[..n] == xs && low[n..] == [x];
  }

  /** The operand types of each mnemonic: `inst_formats`, keyed by the
      mnemonic's spelling. */
  function Format(mnemonic: string): Option<seq<TokenType>> {
    var r := RegisterToken;
    match mnemonic
    case "mov" => Some([r, r])
    case "opd" => Some([r])
    case "opi" => Some([r])
    case "jmp" => Some([]) case "jgt" => Some([]) case "jeq" => Some([]) case "jlt" => Some([])
    case "jge" => Some([]) case "jle" => Some([]) case "jne" => Some([]) case "jcs" => Some([])
    case "jis" => Some([]) case "hlt" => Some([]) case "nop" => Some([]) case "ics" => Some([])
    case "icc" => Some([])
    case "not" => Some([r, r]) case "neg" => Some([r, r]) case "inc" => Some([r, r]) case "dec" => Some([r, r])
    case "sub" => Some([r, r, r]) case "and" => Some([r, r, r]) case "or" => Some([r, r, r]) case "add" => Some([r, r, r])
    case _ => None
  }

  /** `value in inst_formats`: a str value that spells a mnemonic of the table. */
  function FormatOf(v: O.Value): Option<seq<TokenType>> {
    if v.StrValue? then Format(v.s) else None
  }

  /** The tokens after the mnemonic have the types the format asks for. */
  predicate OperandsFit(rows: seq<Row>, s: State, format: seq<TokenType>)
    requires s.line < |rows|
  {
    forall j :: 0 <= j < |format| ==> TypeAt(rows, s, j + 1) == Some(format[j])
  }

  /** The values of the n tokens after the current one. */
  function Operands(rows: seq<Row>, s: State, n: nat): (r: seq<O.Value>)
    requires s.line < |rows| && s.index + n < |rows[s.line]|
    ensures |r| == n
  {
    seq(n, k requires 0 <= k < n => rows[s.line][s.index + 1 + k].value)
  }

  /** `parse_instruction`: a mnemonic of the table with its operands, or a
      load pseudo-instruction; False, with nothing changed, for any other
      line start. */
  function Instruction(rows: seq<Row>, s: State): (r: Result<Parsed<bool>>)
    requires Fits(rows, s)
    ensures r.Success? ==> Fits(rows, r.value.state) && r.value.state.line == s.line && s.index <= r.value.state.index
    ensures r.Success? ==> r.value.state.labels == s.labels && s.instructions <= r.value.state.instructions
    ensures r.Success? ==> r.value.state.constants == s.constants
    ensures r.Success? && !r.value.result ==> r.value.state == s
    ensures TypeAt(rows, s, 0) == Some(KeywordToken) && FormatOf(ValueAt(rows, s, 0).value).Some? ==>
      var format := FormatOf(ValueAt(rows, s, 0).value).value;
      && (r.Success? <==> OperandsFit(rows, s, format))
      && (r.Failure? ==> r.error == Compiler("Argument", ExpectedArgument, []))
      && (r.Success? ==>
            && r.value.result && r.value.state.index == s.index + |format| + 1
            && r.value.state.instructions == s.instructions + [[ValueAt(rows, s, 0).value] + Operands(rows, s, |format|)])
  {
    if TypeAt(rows, s, 0) != Some(KeywordToken) then Success(Parsed(false, s))
    else
      var v := ValueAt(rows, s, 0).value;
      var format := FormatOf(v);
      if format.Some? then
        if OperandsFit(rows, s, format.value) then
          var n := |format.value|;
          assert n > 0 ==> TypeAt(rows, s, n) == Some(format.value[n - 1]);
          Success(Parsed(true, s.(index := s.index + n + 1, instructions := s.instructions + [[v] + Operands(rows, s, n)])))
        else Failure(Compiler("Argument", ExpectedArgument, []))
      else Pseudo(rows, s, v)
  }

  /** The part of `parse_instruction` for a keyword outside the table: the
      load pseudo-instructions, or False with nothing changed. */
  function Pseudo(rows: seq<Row>, s: State, v: O.Value): (r: Result<Parsed<bool>>)
    requires Fits(rows, s) && s.index < |rows[s.line]|
    ensures r.Success? ==> Fits(rows, r.value.state) && r.value.state.line == s.line && s.index <= r.value.state.index
    ensures r.Success? ==> r.value.state.labels == s.labels && s.instructions <= r.value.state.instructions
    ensures r.Success? ==> r.value.state.constants == s.constants
    ensures r.Success? && !r.value.result ==> r.value.state == s
  {
    if v == O.StrValue("ldb") || v == O.StrValue("ldu") then
      var e :- Reformat(ConstantExpression(rows, s.(index := s.index + 1)), v.s);
      var w :- Load(e.state, v, e.result, None);
      AppendedLoad(e.state, v, e.result);
      Success(Parsed(true, w.state))
    else if v == O.StrValue("lda") then
      var t :- Lda(rows, s.(index := s.index + 1));
      Success(Parsed(true, t))
    else Success(Parsed(false, s))
  }

  /** `parse_label`: an identifier followed by ':' binds the name to the
      number of instructions so far. */
  function Label(rows: seq<Row>, s: State): (r: Result<Parsed<bool>>)
    requires Fits(rows, s)
    ensures r.Success? ==> Fits(rows, r.value.state)
    ensures !(TypeAt(rows, s, 0) == Some(IdentifierToken) && Is(rows, s, 1, ":")) ==> r == Success(Parsed(false, s))
    ensures TypeAt(rows, s, 0) == Some(IdentifierToken) && Is(rows, s, 1, ":") ==>
      var name := ValueAt(rows, s, 0).value;
      && (r.Failure? <==> name in s.labels || name in s.constants)
      && (r.Failure? ==> r.error == Compiler("Name", MultipleDefinitions, []))
      && (r.Success? ==>
            && r.value.result
            && r.value.state == s.(labels := s.labels[name := |s.instructions|], index := s.index + 2))
  {
    if TypeAt(rows, s, 0) == Some(IdentifierToken) && Is(rows, s, 1, ":") then
      var name := ValueAt(rows, s, 0).value;
      if name in s.labels || name in s.constants then Failure(Compiler("Name", MultipleDefinitions, []))
      else Success(Parsed(true, s.(labels := s.labels[name := |s.instructions|], index := s.index + 2)))
    else Success(Parsed(false, s))
  }

  /** `parse_definition`: 'define', a new identifier and a constant
      expression, whose value the name is bound to. */
  function Definition(rows: seq<Row>, s: State): (r: Result<Parsed<bool>>)
    requires Fits(rows, s)
    ensures r.Success? ==> Fits(rows, r.value.state) && r.value.state.line == s.line
    ensures r.Success? ==> r.value.state.labels == s.labels && r.value.state.instructions == s.instructions
    ensures r.Success? && !r.value.result ==> r.value.state == s
    ensures (r.Success? && r.value.result) || r.Failure? <==> TypeAt(rows, s, 0) == Some(KeywordToken) && Is(rows, s, 0, "define")
    ensures TypeAt(rows, s, 0) == Some(KeywordToken) && Is(rows, s, 0, "define") && TypeAt(rows, s, 1) == Some(IdentifierToken) ==>
      var name := ValueAt(rows, s, 1).value;
      && (name in s.labels || name in s.constants ==> r == Failure(Compiler("Name", MultipleDefinitions, [])))
      && (r.Success? && r.value.result ==>
            && ConstantExpression(rows, s.(index := s.index + 2)).Success?
            && var e := ConstantExpression(rows, s.(index := s.index + 2)).value;
            r.value.state.constants == s.constants[name := e.result.value] && r.value.state.index == e.state.index)
  {
    if !(TypeAt(rows, s, 0) == Some(KeywordToken) && Is(rows, s, 0, "define")) then Success(Parsed(false, s))
    else if TypeAt(rows, s, 1) != Some(IdentifierToken) then Failure(Compiler("Argument", ExpectedIdentifier, []))
    else
      var name := ValueAt(rows, s, 1).value;
      if name in s.labels || name in s.constants then Failure(Compiler("Name", MultipleDefinitions, []))
      else
        var e :- Reformat(ConstantExpression(rows, s.(index := s.index + 2)), "define");
        Success(Parsed(true, e.state.(constants := e.state.constants[name := e.result.value])))
  }

  /** One pass of `parse_program`'s loop body: a definition, or else an
      optional label and an optional instruction. */
  function Statement(rows: seq<Row>, s: State): (r: Result<State>)
    requires Fits(rows, s)
    ensures r.Success? ==> Fits(rows, r.value) && r.value.line == s.line
    ensures r.Success? ==> s.instructions <= r.value.instructions
  {
    var d :- Definition(rows, s);
    if d.result then Success(d.state)
    else
      var l :- Label(rows, s);
      var i :- Instruction(rows, l.state);
      Success(i.state)
  }

  datatype Turn = Next(state: State) | Finished(state: State)

  /** One turn of `parse_program`: the statement must use up its line; then
      the parser moves to the next line, or stops after the last. */
  function ProgramTurn(rows: seq<Row>, s: State): (r: Result<Turn>)
    requires Fits(rows, s)
    ensures r.Success? && r.value.Next? ==> Fits(rows, r.value.state) && r.value.state.line == s.line + 1
    ensures r.Success? && r.value.Finished? ==> r.value.state.line == |rows|
    ensures r.Success? ==> s.instructions <= r.value.state.instructions
  {
    var t :- Statement(rows, s);
    if t.index >= |rows[t.line]| then
      var n := t.(line := t.line + 1, index := 0);
      if n.line == |rows| then Success(Finished(n)) else Success(Next(n))
    else Failure(Compiler("Syntax", UnexpectedToken, []))
  }

  /** `parse_program` from a line on. */
  function Program(rows: seq<Row>, s: State): (r: Result<State>)
    requires Fits(rows, s)
    ensures r.Success? ==> s.instructions <= r.value.instructions && r.value.line == |rows|
    decreases |rows| - s.line
  {
    var t :- ProgramTurn(rows, s);
    if t.Finished? then Success(t.state) else Program(rows, t.state)
  }

  /** Every label used as an argument is defined. */
  predicate AllDefined(s: State) {
    forall k :: 0 <= k < |s.usedLabels| ==> s.usedLabels[k] in s.labels
  }

  /** What a Parser holds once `__init__` returns. */
  datatype Output = Output(instructions: seq<Instr>, labels: map<O.Value, int>, constants: map<O.Value, O.Value>)

  /** `Parser(tokens, warnings)`: parse every line, check that the used
      labels are defined, append a hlt. With no rows at all the first
      `type()` raises IndexError. */
  function Parse(rows: seq<Row>): Result<Output> {
    if |rows| == 0 then Failure(Python("IndexError"))
    else
      var s :- Program(rows, Initial());
      if AllDefined(s) then Success(Output(s.instructions + [Hlt], s.labels, s.constants))
      else Failure(Compiler("Name", Undefined, []))
  }

  /** The byte a load selects: the value modulo 256 for 'ldb', the next
      byte up for 'ldu'; only an int value has one. */
  lemma {:induction false} SelectedByteValue(instr: O.Value, v: O.Value)
    ensures SelectedByte(instr, v).Failure? <==> v.StrValue?
    ensures SelectedByte(instr, v).Failure? ==> SelectedByte(instr, v).error == Python("TypeError")
    ensures v.IntValue? && instr == O.StrValue("ldb") ==> SelectedByte(instr, v) == Success(v.i % 256)
    ensures v.IntValue? && instr != O.StrValue("ldb") ==> SelectedByte(instr, v) == Success((v.i / 256) % 256)
  {
    assert Pow2(8) == 256 by {
      assert Pow2(1) == 2 && Pow2(2) == 4 && Pow2(3) == 8 && Pow2(4) == 16;
      assert Pow2(5) == 32 && Pow2(6) == 64 && Pow2(7) == 128;
    }
    if v.IntValue? {
      AndLowMask(v.i, 8);
      AndLowMask(v.i / 256, 8);
      assert ShiftRight(v.i, 8) == v.i / 256;
    }
  }

  /** The ones'-complement trick: for a byte b of 128 or more, the loaded
      immediate `~b & 0xFF` is 255 - b, which fits the 7 bits of a load, and
      complementing it within a byte gives b back. */
  lemma {:induction false} ComplementByte(b: int)
    requires 128 <= b < 256
    ensures BitAnd(BitNot(b), 255) == 255 - b
    ensures 0 <= BitAnd(BitNot(b), 255) <= 127
    ensures BitAnd(BitNot(BitAnd(BitNot(b), 255)), 255) == b
  {
    assert Pow2(8) == 256 by {
      assert Pow2(1) == 2 && Pow2(2) == 4 && Pow2(3) == 8 && Pow2(4) == 16;
      assert Pow2(5) == 32 && Pow2(6) == 64 && Pow2(7) == 128;
    }
    AndLowMask(BitNot(b), 8);
    ModUnique(BitNot(b), 256, -1, 255 - b);
    AndLowMask(BitNot(255 - b), 8);
    ModUnique(BitNot(255 - b), 256, -1, b);
  }

  /** `write_load` with no index, in full: a label argument gives one load
      of the label; an int whose selected byte is at most 127 gives one
      'ldb' of that byte; a larger byte gives an 'ldb' of 255 - b (at most
      127) followed by `not L L`; the count returned is the number written
      and nothing but the instruction list changes. A str argument of type
      'integer' raises TypeError, and any other token type BaseException. */
  lemma {:induction false} LoadAppends(s: State, instr: O.Value, arg: Token)
    ensures var r := Load(s, instr, arg, None);
      && (arg.kind == IdentifierToken ==> r == Success(Parsed(1, s.(instructions := s.instructions + [[instr, arg.value]]))))
      && (arg.kind == IntegerToken && arg.value.StrValue? ==> r == Failure(Python("TypeError")))
      && (arg.kind != IdentifierToken && arg.kind != IntegerToken ==> r == Failure(Python("BaseException")))
    ensures arg.kind == IntegerToken && arg.value.IntValue? ==>
      var b := if instr == O.StrValue("ldb") then arg.value.i % 256 else (arg.value.i / 256) % 256;
      var r := Load(s, instr, arg, None);
      && (b <= 127 ==> r == Success(Parsed(1, s.(instructions := s.instructions + [[O.StrValue("ldb"), O.IntValue(b)]]))))
      && (b > 127 ==> r == Success(Parsed(2, s.(instructions := s.instructions + [[O.StrValue("ldb"), O.IntValue(255 - b)], NotLL]))))
  {
    SelectedByteValue(instr, arg.value);
    AppendedLoad(s, instr, arg);
    if arg.kind == IntegerToken && arg.value.IntValue? {
      var b := SelectedByte(instr, arg.value).value;
      if b > 127 {
        ComplementByte(b);
      }
    }
  }

  /** `lda` writes the load of the upper byte, then `mov L H`, then the load
      of the lower byte, all appended after what was there. */
  lemma {:induction false} LdaOrder(rows: seq<Row>, s: State)
    requires Fits(rows, s)
    ensures var r := Lda(rows, s);
      r.Success? ==>
        var arg := ConstantExpression(rows, s).value.result;
        && (arg.kind == IdentifierToken || arg.value.IntValue?)
        && r.value.instructions == s.instructions + Emitted(O.StrValue("ldu"), arg, O.StrValue("ldb")) + [MovLH]
                                  + Emitted(O.StrValue("ldb"), arg, O.StrValue("ldb"))
    ensures var r := Lda(rows, s);
      r.Success? && ConstantExpression(rows, s).value.result.kind == IdentifierToken ==>
        var name := ConstantExpression(rows, s).value.result.value;
        r.value.instructions == s.instructions + [[O.StrValue("ldu"), name], MovLH, [O.StrValue("ldb"), name]]
  {
    var r := Lda(rows, s);
    if r.Success? {
      var e := ConstantExpression(rows, s).value;
      var u := Load(e.state, O.StrValue("ldu"), e.result, None).value;
      var m := u.state.(instructions := u.state.instructions + [MovLH]);
      AppendedLoad(e.state, O.StrValue("ldu"), e.result);
      AppendedLoad(m, O.StrValue("ldb"), e.result);
      SelectedByteValue(O.StrValue("ldu"), e.result.value);
    }
  }

  /** What the tables always satisfy: no name is both a label and a
      constant, and every label binds to a position after the two leading
      nops and at most the length of the instruction list. */
  predicate Tables(s: State) {
    2 <= |s.instructions|
    && forall n :: n in s.labels ==> n !in s.constants && 2 <= s.labels[n] <= |s.instructions|
  }

  lemma {:induction false} StatementKeepsTables(rows: seq<Row>, s: State)
    requires Fits(rows, s) && Tables(s)
    ensures Statement(rows, s).Success? ==> Tables(Statement(rows, s).value)
  {
    var d := Definition(rows, s);
    if d.Success? && d.value.result {
      var name := ValueAt(rows, s, 1).value;
      assert d.value.state.constants.Keys == s.constants.Keys + {name};
    } else if d.Success? {
      var l := Label(rows, s);
      if l.Success? {
        var i := Instruction(rows, l.value.state);
        if i.Success? {
          assert Tables(l.value.state);
        }
      }
    }
  }

  lemma {:induction false} ProgramKeepsTables(rows: seq<Row>, s: State)
    requires Fits(rows, s) && Tables(s)
    ensures Program(rows, s).Success? ==> Tables(Program(rows, s).value)
    decreases |rows| - s.line
  {
    var t := ProgramTurn(rows, s);
    if t.Success? {
      StatementKeepsTables(rows, s);
      assert Tables(t.value.state);
      if t.value.Next? {
        ProgramKeepsTables(rows, t.value.state);
      }
    }
  }

  /** What `Parser(tokens, warnings)` delivers: an instruction list that
      starts with two nops and ends with a hlt, every label bound to one of
      its positions after the nops, no name both a label and a constant; and
      it succeeds exactly when every line parses and every label used as an
      argument is defined, failing with a Name error when one is not. */
  lemma {:induction false} ParseDelivers(rows: seq<Row>)
    ensures var r := Parse(rows);
      r.Success? ==>
        var out := r.value.instructions;
        && |out| >= 3 && out[0] == Nop && out[1] == Nop && out[|out| - 1] == Hlt
        && forall n :: n in r.value.labels ==> n !in r.value.constants && 2 <= r.value.labels[n] < |out|
    ensures |rows| > 0 && Program(rows, Initial()).Success? ==>
      (Parse(rows).Success? <==> AllDefined(Program(rows, Initial()).value))
      && (Parse(rows).Failure? ==> Parse(rows).error == Compiler("Name", Undefined, []))
    ensures |rows| == 0 ==> Parse(rows) == Failure(Python("IndexError"))
    ensures |rows| > 0 && Program(rows, Initial()).Failure? ==> Parse(rows) == Failure(Program(rows, Initial()).error)
  {
    if |rows| > 0 && Program(rows, Initial()).Success? {
      var s := Program(rows, Initial()).value;
      ProgramKeepsTables(rows, Initial());
      assert Initial().instructions <= s.instructions;
      assert s.instructions[0] == Nop && s.instructions[1] == Nop;
    }
  }

  /** The operand a parser value stands for in the code writer's terms: an
      int is a number, a register's spelling a register, any other str a
      label. */
  function LoweredOperand(v: O.Value): A.Operand {
    if v.IntValue? then A.Number(v.i)
    else if A.RegisterNamed(v.s).Some? then A.Reg(A.RegisterNamed(v.s).value)
    else A.Label(v.s)
  }

  /** An instruction list read as the code writer's instruction, when its
      head spells a mnemonic. */
  function Lowered(i: Instr): Option<A.Instruction> {
    if |i| == 0 || i[0].IntValue? || A.KeywordNamed(i[0].s).None? then None
    else Some(A.Instruction(A.KeywordNamed(i[0].s).value, seq(|i| - 1, k requires 0 <= k < |i| - 1 => LoweredOperand(i[k + 1]))))
  }

  /** A load of a number as the code writer sees it. */
  lemma LoweredLoad(w: string, n: int)
    requires w == "ldu" || w == "ldb"
    ensures Lowered([O.StrValue(w), O.IntValue(n)])
      == Some(A.Instruction(if w == "ldu" then A.Ldu else A.Ldb, [A.Number(n)]))
  {
    assert A.KeywordNamed("ldu") == Some(A.Ldu);
    assert A.KeywordNamed("ldb") == Some(A.Ldb);
    var i := [O.StrValue(w), O.IntValue(n)];
    var args := seq(|i| - 1, k requires 0 <= k < |i| - 1 => LoweredOperand(i[k + 1]));
    assert LoweredOperand(i[1]) == A.Number(n);
    assert args == [A.Number(n)];
  }

  /** The code writer has no encoding for an 'ldu', and encodes an 'ldb' of
      0..127 as that number with the top bit set. */
  lemma LoadEncodings(n: int)
    requires 0 <= n <= 127
    ensures CodeWriter.InstructionValue(A.Instruction(A.Ldu, [A.Number(n)])).Failure?
    ensures CodeWriter.InstructionValue(A.Instruction(A.Ldb, [A.Number(n)])) == Success(CodeWriter.Byte(0x80 | n as bv8))
  {
    assert CodeWriter.Fixed(A.Ldu).None? && CodeWriter.Fixed(A.Ldb).None?;
    assert !CodeWriter.IsArith(A.Ldu);
  }

  /** An 'ldu' whose upper byte b is 128 or more appends a load of 255 - b,
      under the mnemonic given for complemented loads, and `not L L`. */
  lemma {:induction false} UpperByteLoad(s: State, v: int, complemented: O.Value)
    requires 128 <= (v / 256) % 256
    ensures var b := (v / 256) % 256;
      LoadWith(s, O.StrValue("ldu"), Token(IntegerToken, O.IntValue(v)), None, complemented)
        == Success(Parsed(2, s.(instructions := s.instructions + [[complemented, O.IntValue(255 - b)], NotLL])))
  {
    var arg := Token(IntegerToken, O.IntValue(v));
    SelectedByteValue(O.StrValue("ldu"), arg.value);
    var b := (v / 256) % 256;
    ComplementByte(b);
    AppendedLoadWith(s, O.StrValue("ldu"), arg, complemented);
  }

  /** As written, an 'ldu' whose upper byte b is 128 or more (`ldu 0x8000`,
      say) becomes `ldu 255-b` and `not L L`; no branch of
      `instruction_value` encodes an 'ldu', so the code writer rejects it. */
  lemma {:induction false} UpperComplementAsWritten(s: State, v: int)
    requires 128 <= (v / 256) % 256
    ensures var b := (v / 256) % 256;
      && LoadAsWritten(s, O.StrValue("ldu"), Token(IntegerToken, O.IntValue(v)), None)
           == Success(Parsed(2, s.(instructions := s.instructions + [[O.StrValue("ldu"), O.IntValue(255 - b)], NotLL])))
      && CodeWriter.InstructionValue(Lowered([O.StrValue("ldu"), O.IntValue(255 - b)]).value).Failure?
  {
    var b := (v / 256) % 256;
    UpperByteLoad(s, v, O.StrValue("ldu"));
    LoweredLoad("ldu", 255 - b);
    LoadEncodings(255 - b);
  }

  /** Corrected, the same load is `ldb 255-b` and `not L L`, and the code
      writer encodes the load as 0x80 | (255 - b). */
  lemma {:induction false} UpperComplement(s: State, v: int)
    requires 128 <= (v / 256) % 256
    ensures var b := (v / 256) % 256;
      && Load(s, O.StrValue("ldu"), Token(IntegerToken, O.IntValue(v)), None)
           == Success(Parsed(2, s.(instructions := s.instructions + [[O.StrValue("ldb"), O.IntValue(255 - b)], NotLL])))
      && CodeWriter.InstructionValue(Lowered([O.StrValue("ldb"), O.IntValue(255 - b)]).value)
           == Success(CodeWriter.Byte(0x80 | (255 - b) as bv8))
  {
    var b := (v / 256) % 256;
    UpperByteLoad(s, v, O.StrValue("ldb"));
    LoweredLoad("ldb", 255 - b);
    LoadEncodings(255 - b);
  }
}
