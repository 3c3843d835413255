/**
 * The meaning of the assembler's constant expressions (assembler/parser.py,
 * `parse_constant_expression` and the functions below it), stated on an
 * expression tree of its own and connected to the parser of parsing.dfy.
 *
 * The tree is independent of the parser: `Eval` gives each tree its value,
 * and `Spell` writes it as the row of tokens a programmer would type, with
 * brackets only where the precedence of the operators needs them (unary
 * signs bind tightest, then `+` and `-`, then `&`, then `|`, all binary
 * operators grouping to the left). `ExpressionReads` proves that the
 * parser's or-expression reads every spelled tree as that tree's value,
 * which is the precedence the parser's docstring documents.
 */
module AsmExpressions {
  import opened Wrappers
  import opened Bits
  import O = CStringObjects
  import P = AsmParsing

  /** A unary sign: `-` or `!`. */
  datatype Sign = Minus | Invert

  /** The binary operators of a constant expression. */
  datatype Operator = OrOp | AndOp | PlusOp | MinusOp

  /** A constant expression: an integer literal, the name of a constant, a
      bracketed expression, a primary behind a run of signs, or two
      expressions joined by an operator. */
  datatype Expr =
    | Literal(n: int)
    | Constant(name: O.Value)
    | Bracket(e: Expr)
    | Signed(signs: seq<Sign>, e: Expr)
    | Binary(op: Operator, left: Expr, right: Expr)

  /** The operator on CodeObject values that each symbol stands for. */
  function Applied(op: Operator): O.BinaryOp {
    match op
    case OrOp => O.Or
    case AndOp => O.And
    case PlusOp => O.Plus
    case MinusOp => O.Minus
  }

  /** The symbol each operator is written with. */
  function Symbol(op: Operator): string {
    match op
    case OrOp => "|"
    case AndOp => "&"
    case PlusOp => "+"
    case MinusOp => "-"
  }

  /** The binding strength: `|` 0, `&` 1, `+` and `-` 2, a signed primary 3,
      a literal, a name or a bracket 4. */
  function OperatorLevel(op: Operator): nat {
    match op
    case OrOp => 0
    case AndOp => 1
    case PlusOp => 2
    case MinusOp => 2
  }

  function Level(e: Expr): (k: nat)
    ensures k <= 4
  {
    match e
    case Literal(_) => 4
    case Constant(_) => 4
    case Bracket(_) => 4
    case Signed(_, _) => 3
    case Binary(op, _, _) => OperatorLevel(op)
  }

  function Size(e: Expr): (n: nat)
    ensures n >= 1
  {
    match e
    case Literal(_) => 1
    case Constant(_) => 1
    case Bracket(x) => Size(x) + 1
    case Signed(_, x) => Size(x) + 2
    case Binary(_, l, r) => Size(l) + Size(r) + 2
  }

  /** An expression that must bind at least as tightly as level k, in
      brackets when it does not. */
  function Wrap(e: Expr, k: nat): (r: Expr)
    requires k <= 4
    ensures r == e || r == Bracket(e)
    ensures Level(r) >= k && Size(r) <= Size(e) + 1
  {
    if Level(e) >= k then e else Bracket(e)
  }

  /** A name the tokenizer can give an identifier: never a sign symbol. */
  predicate WellFormed(e: Expr) {
    match e
    case Literal(_) => true
    case Constant(name) => name != O.StrValue("-") && name != O.StrValue("!")
    case Bracket(x) => WellFormed(x)
    case Signed(_, x) => WellFormed(x)
    case Binary(_, l, r) => WellFormed(l) && WellFormed(r)
  }

  /** Whether the signs hold an odd number of `sign`. */
  function Odd(signs: seq<Sign>, sign: Sign): bool {
    if signs == [] then false else (signs[0] == sign) != Odd(signs[1..], sign)
  }

  /** A value negated when `minus`, then inverted when `invert`. */
  function SignsApplied(v: O.Value, minus: bool, invert: bool): Result<O.Value> {
    var m :- if minus then O.NegateValue(v) else Success(v);
    if invert then O.InvertValue(m) else Success(m)
  }

  /** The value of an expression under a table of constants: a literal
      outside -32768..65535 and a name that is no constant are errors, and
      an operator on a str raises as Python does. Signs act by their
      parities: the value is negated when the run holds an odd number of
      '-', then inverted when it holds an odd number of '!'. */
  function Eval(e: Expr, constants: map<O.Value, O.Value>): Result<O.Value> {
    match e
    case Literal(n) =>
      if -32768 <= n < 65536 then Success(O.IntValue(n)) else Failure(Compiler("Value", P.LiteralRange, []))
    case Constant(name) =>
      if name in constants then Success(constants[name]) else Failure(Compiler("Name", P.InvalidName, []))
    case Bracket(x) => Eval(x, constants)
    case Signed(signs, x) =>
      var v :- Eval(x, constants);
      SignsApplied(v, Odd(signs, Minus), Odd(signs, Invert))
    case Binary(op, l, r) =>
      var a :- Eval(l, constants);
      var b :- Eval(r, constants);
      O.Apply(Applied(op), a, b)
  }

  /** The constants an expression names, in reading order. */
  function Used(e: Expr): seq<O.Value> {
    match e
    case Literal(_) => []
    case Constant(name) => [name]
    case Bracket(x) => Used(x)
    case Signed(_, x) => Used(x)
    case Binary(_, l, r) => Used(l) + Used(r)
  }

  function SymbolToken(w: string): P.Token {
    P.Token(P.SymbolToken, O.StrValue(w))
  }

  function Int(n: int): P.Token {
    P.Token(P.IntegerToken, O.IntValue(n))
  }

  function SignTokens(signs: seq<Sign>): (r: seq<P.Token>)
    ensures |r| == |signs|
  {
    if signs == [] then []
    else [SymbolToken(if signs[0] == Minus then "-" else "!")] + SignTokens(signs[1..])
  }

  /** The tokens an expression is written as, with brackets where an
      operand binds more loosely than its place requires: the left operand
      of an operator at least as tightly as the operator, the right one
      strictly more tightly, a signed operand as a primary. */
  function Spell(e: Expr): (r: seq<P.Token>)
    ensures r != []
    decreases Size(e)
  {
    match e
    case Literal(n) => [Int(n)]
    case Constant(name) => [P.Token(P.IdentifierToken, name)]
    case Bracket(x) => [SymbolToken("(")] + Spell(x) + [SymbolToken(")")]
    case Signed(signs, x) => SignTokens(signs) + Spell(Wrap(x, 4))
    case Binary(op, l, r) =>
      Spell(Wrap(l, OperatorLevel(op))) + [SymbolToken(Symbol(op))] + Spell(Wrap(r, OperatorLevel(op) + 1))
  }

  /** The tokens of a row from index i on begin with toks: the first of
      them at i, the others after it. */
  predicate Begins(row: P.Row, i: nat, toks: seq<P.Token>)
    decreases |toks|
  {
    i + |toks| <= |row| && (toks != [] ==> row[i] == toks[0] && Begins(row, i + 1, toks[1..]))
  }

  /** The tokens from the state's index on begin with toks. */
  predicate At(rows: seq<P.Row>, s: P.State, toks: seq<P.Token>) {
    s.line < |rows| && Begins(rows[s.line], s.index, toks)
  }

  /** The state after reading e from s: the index past its spelling, the
      constants it names recorded as used. */
  function After(s: P.State, e: Expr): P.State {
    s.(index := s.index + |Spell(e)|, usedConstants := s.usedConstants + Used(e))
  }

  /** What reading e from s should give: its value with the state after it,
      or the error evaluating it raises. */
  function Reading(e: Expr, s: P.State): Result<P.Parsed<O.Value>> {
    var v :- Eval(e, s.constants);
    Success(P.Parsed(v, After(s, e)))
  }

  /** The two halves of tokens that begin a row at i. */
  lemma {:induction false} BeginsSplit(row: P.Row, i: nat, a: seq<P.Token>, b: seq<P.Token>)
    requires Begins(row, i, a + b)
    ensures Begins(row, i, a) && Begins(row, i + |a|, b)
    decreases |a|
  {
    if a == [] {
      assert a + b == b;
    } else {
      assert (a + b)[0] == a[0] && (a + b)[1..] == a[1..] + b;
      BeginsSplit(row, i + 1, a[1..], b);
    }
  }

  /** The first token of a spelling, and the two halves of a split one. */
  lemma AtSplit(rows: seq<P.Row>, s: P.State, a: seq<P.Token>, b: seq<P.Token>)
    requires At(rows, s, a + b)
    ensures At(rows, s, a) && At(rows, s.(index := s.index + |a|), b)
    ensures a != [] ==> P.TypeAt(rows, s, 0) == Some(a[0].kind) && P.ValueAt(rows, s, 0) == Some(a[0].value)
  {
    BeginsSplit(rows[s.line], s.index, a, b);
  }

  lemma AtFirst(rows: seq<P.Row>, s: P.State, a: seq<P.Token>)
    requires At(rows, s, a) && a != []
    ensures P.TypeAt(rows, s, 0) == Some(a[0].kind) && P.ValueAt(rows, s, 0) == Some(a[0].value)
  {
  }

  /** The tokens of a row from i on, read one by one. */
  lemma {:induction false} BeginsRow(row: P.Row, i: nat, toks: seq<P.Token>)
    requires i + |toks| <= |row| && row[i..i + |toks|] == toks
    ensures Begins(row, i, toks)
    decreases |toks|
  {
    if toks != [] {
      assert row[i] == row[i..i + |toks|][0];
      assert row[i + 1..i + |toks|] == toks[1..];
      BeginsRow(row, i + 1, toks[1..]);
    }
  }

  /** A spelling starts with neither sign unless it is a signed primary. */
  lemma SpellStart(e: Expr)
    requires WellFormed(e) && Level(e) == 4
    ensures Spell(e) != [] && Spell(e)[0].value != O.StrValue("-") && Spell(e)[0].value != O.StrValue("!")
  {
  }

  /** A literal or a constant name. */
  lemma AtomReads(rows: seq<P.Row>, s: P.State, e: Expr)
    requires (e.Literal? || e.Constant?) && At(rows, s, Spell(e))
    ensures P.Primary(rows, s) == Reading(e, s)
  {
    AtFirst(rows, s, Spell(e));
    if e.Literal? {
      assert P.TypeAt(rows, s, 0) == Some(P.IntegerToken) && P.ValueAt(rows, s, 0) == Some(O.IntValue(e.n));
      assert After(s, e) == s.(index := s.index + 1);
    } else {
      assert P.TypeAt(rows, s, 0) == Some(P.IdentifierToken) && P.ValueAt(rows, s, 0) == Some(e.name);
      assert After(s, e) == s.(index := s.index + 1, usedConstants := s.usedConstants + [e.name]);
    }
  }

  /** `parse_primary` at an opening bracket. */
  lemma BracketRound(rows: seq<P.Row>, s: P.State)
    requires P.Fits(rows, s) && P.ValueAt(rows, s, 0) == Some(O.StrValue("(")) && P.TypeAt(rows, s, 0) == Some(P.SymbolToken)
    ensures P.Primary(rows, s) ==
      (var x :- P.Or(rows, s.(index := s.index + 1));
       if P.Is(rows, x.state, 0, ")") then Success(P.Parsed(x.result, x.state.(index := x.state.index + 1)))
       else if P.ValueAt(rows, x.state, 0).None? then Failure(Compiler("Syntax", P.UnmatchedBracket, []))
       else Failure(Compiler("Syntax", P.ExpectedClosing, [])))
  {
  }

  /** The parts of a spelled bracket: '(' at its start, the expression
      inside after it, and ')' after that. */
  lemma BracketParts(rows: seq<P.Row>, s: P.State, e: Expr)
    requires e.Bracket? && At(rows, s, Spell(e))
    ensures var t := s.(index := s.index + 1);
      var u := After(t, e.e);
      && P.Fits(rows, s) && P.ValueAt(rows, s, 0) == Some(O.StrValue("(")) && P.TypeAt(rows, s, 0) == Some(P.SymbolToken)
      && At(rows, t, Spell(e.e)) && P.Fits(rows, u) && P.Is(rows, u, 0, ")") && u.(index := u.index + 1) == After(s, e)
  {
    var x := e.e;
    var t := s.(index := s.index + 1);
    assert Spell(e) == [SymbolToken("(")] + (Spell(x) + [SymbolToken(")")]);
    AtSplit(rows, s, [SymbolToken("(")], Spell(x) + [SymbolToken(")")]);
    AtSplit(rows, t, Spell(x), [SymbolToken(")")]);
  }

  /** A bracketed expression reads as the expression inside. */
  lemma {:induction false} BracketReads(rows: seq<P.Row>, s: P.State, e: Expr)
    requires WellFormed(e) && e.Bracket? && At(rows, s, Spell(e))
    ensures P.Primary(rows, s) == Reading(e, s)
    decreases Size(e), 0, 0
  {
    var x := e.e;
    var t := s.(index := s.index + 1);
    var u := After(t, x);
    BracketParts(rows, s, e);
    BracketRound(rows, s);
    assert P.Or(rows, t) == Reading(x, t) by {
      OrReads(rows, t, x);
      if Eval(x, s.constants).Success? {
        assert P.OrLoop(rows, Eval(x, s.constants).value, u) == Success(P.Parsed(Eval(x, s.constants).value, u));
      }
    }
  }

  /** A primary: a literal, a constant or a bracketed expression. */
  lemma {:induction false} PrimaryReads(rows: seq<P.Row>, s: P.State, e: Expr)
    requires WellFormed(e) && Level(e) == 4 && At(rows, s, Spell(e))
    ensures P.Primary(rows, s) == Reading(e, s)
    decreases Size(e), 0, 1
  {
    if e.Bracket? {
      BracketReads(rows, s, e);
    } else {
      AtomReads(rows, s, e);
    }
  }

  /** What reading a primary behind signs gives: the primary's value
      negated when `minus`, then inverted when `invert`. */
  function SignedReading(p: Expr, t: P.State, minus: bool, invert: bool): Result<P.Parsed<O.Value>> {
    var v :- Eval(p, t.constants);
    var w :- SignsApplied(v, minus, invert);
    Success(P.Parsed(w, After(t, p)))
  }

  /** `parse_unary_expression` at a sign flips that sign's parity. */
  lemma SignRound(rows: seq<P.Row>, s: P.State, minus: bool, invert: bool)
    requires P.Fits(rows, s)
    ensures P.Is(rows, s, 0, "-") ==> P.Unary(rows, s, minus, invert) == P.Unary(rows, s.(index := s.index + 1), !minus, invert)
    ensures P.Is(rows, s, 0, "!") ==> P.Unary(rows, s, minus, invert) == P.Unary(rows, s.(index := s.index + 1), minus, !invert)
    ensures !P.Is(rows, s, 0, "-") && !P.Is(rows, s, 0, "!") ==>
      (P.Unary(rows, s, minus, invert) ==
        var x :- P.Primary(rows, s);
        var w :- SignsApplied(x.result, minus, invert);
        Success(P.Parsed(w, x.state)))
  {
  }

  /** A primary with no sign before it, read with the parities `minus`
      and `invert` of the signs already read. */
  lemma {:induction false} SignsBase(rows: seq<P.Row>, s: P.State, p: Expr, minus: bool, invert: bool)
    requires WellFormed(p) && Level(p) == 4 && At(rows, s, Spell(p))
    ensures P.Unary(rows, s, minus, invert) == SignedReading(p, s, minus, invert)
    decreases Size(p), 1, 0
  {
    SpellStart(p);
    AtFirst(rows, s, Spell(p));
    SignRound(rows, s, minus, invert);
    assert P.Primary(rows, s) == Reading(p, s) by { PrimaryReads(rows, s, p); }
  }

  /** The first sign of a run and the tokens after it. */
  lemma {:induction false} SignSplit(rows: seq<P.Row>, s: P.State, signs: seq<Sign>, p: Expr)
    requires signs != [] && At(rows, s, SignTokens(signs) + Spell(p))
    ensures P.Fits(rows, s) && At(rows, s.(index := s.index + 1), SignTokens(signs[1..]) + Spell(p))
    ensures P.Is(rows, s, 0, if signs[0] == Minus then "-" else "!")
  {
    var first := SignTokens(signs)[..1];
    assert SignTokens(signs) + Spell(p) == first + (SignTokens(signs[1..]) + Spell(p));
    AtSplit(rows, s, first, SignTokens(signs[1..]) + Spell(p));
  }

  /** A run of signs before a primary, read with the parities `minus` and
      `invert` of the signs before it. */
  lemma {:induction false} SignsRead(rows: seq<P.Row>, s: P.State, signs: seq<Sign>, p: Expr, minus: bool, invert: bool)
    requires WellFormed(p) && Level(p) == 4 && At(rows, s, SignTokens(signs) + Spell(p))
    ensures P.Unary(rows, s, minus, invert) ==
      SignedReading(p, s.(index := s.index + |signs|), minus != Odd(signs, Minus), invert != Odd(signs, Invert))
    decreases Size(p), 1, |signs| + 1
  {
    if signs == [] {
      assert SignTokens(signs) + Spell(p) == Spell(p);
      assert s.(index := s.index + |signs|) == s;
      SignsBase(rows, s, p, minus, invert);
    } else {
      var t := s.(index := s.index + 1);
      SignSplit(rows, s, signs, p);
      SignRound(rows, s, minus, invert);
      assert t.(index := t.index + |signs[1..]|) == s.(index := s.index + |signs|);
      if signs[0] == Minus {
        SignsRead(rows, t, signs[1..], p, !minus, invert);
      } else {
        SignsRead(rows, t, signs[1..], p, minus, !invert);
      }
    }
  }

  /** What the signs of a signed expression leave: its value. */
  lemma SignedReads(s: P.State, e: Expr)
    requires e.Signed?
    ensures SignedReading(Wrap(e.e, 4), s.(index := s.index + |e.signs|), Odd(e.signs, Minus), Odd(e.signs, Invert)) == Reading(e, s)
  {
    var x := Wrap(e.e, 4);
    WrapKeeps(e.e, 4, s.constants);
    assert After(s.(index := s.index + |e.signs|), x) == After(s, e);
  }

  /** A unary expression: the primary negated by the parity of its '-',
      then inverted by the parity of its '!'. */
  lemma {:induction false} UnaryReads(rows: seq<P.Row>, s: P.State, e: Expr)
    requires WellFormed(e) && Level(e) >= 3 && At(rows, s, Spell(e))
    ensures P.Unary(rows, s, false, false) == Reading(e, s)
    decreases Size(e), 2, 0
  {
    if e.Signed? {
      SignsRead(rows, s, e.signs, Wrap(e.e, 4), false, false);
      SignedReads(s, e);
    } else {
      SignsBase(rows, s, e, false, false);
    }
  }

  /** Brackets change neither the value, nor the constants named, nor
      whether the names are well formed. */
  lemma WrapKeeps(x: Expr, k: nat, c: map<O.Value, O.Value>)
    requires k <= 4
    ensures Eval(Wrap(x, k), c) == Eval(x, c) && Used(Wrap(x, k)) == Used(x)
    ensures WellFormed(Wrap(x, k)) == WellFormed(x)
  {
  }

  /** A spelled binary expression: its left operand, then the operator
      symbol followed by its right operand. */
  lemma LeftPart(rows: seq<P.Row>, s: P.State, e: Expr, k: nat)
    requires e.Binary? && k == OperatorLevel(e.op) && At(rows, s, Spell(e))
    ensures var l, r := Wrap(e.left, k), Wrap(e.right, k + 1);
      At(rows, s, Spell(l)) && At(rows, After(s, l), [SymbolToken(Symbol(e.op))] + Spell(r))
  {
    var l, r := Wrap(e.left, k), Wrap(e.right, k + 1);
    var sym := [SymbolToken(Symbol(e.op))];
    assert Spell(e) == Spell(l) + (sym + Spell(r));
    AtSplit(rows, s, Spell(l), sym + Spell(r));
  }

  /** The operator symbol of a spelled binary expression follows its left
      operand. */
  lemma OperatorAt(rows: seq<P.Row>, s: P.State, e: Expr, k: nat)
    requires e.Binary? && k == OperatorLevel(e.op) && At(rows, s, Spell(e))
    ensures var t := After(s, Wrap(e.left, k));
      P.Fits(rows, s) && P.Fits(rows, t) && P.ValueAt(rows, t, 0) == Some(O.StrValue(Symbol(e.op)))
  {
    var l, r := Wrap(e.left, k), Wrap(e.right, k + 1);
    LeftPart(rows, s, e, k);
    AtFirst(rows, After(s, l), [SymbolToken(Symbol(e.op))] + Spell(r));
  }

  /** The left operand of a spelled binary expression is spelled from its
      start. */
  lemma LeftOperand(rows: seq<P.Row>, s: P.State, e: Expr, k: nat)
    requires WellFormed(e) && e.Binary? && k == OperatorLevel(e.op) && At(rows, s, Spell(e))
    ensures var l := Wrap(e.left, k);
      WellFormed(l) && Level(l) >= k && At(rows, s, Spell(l))
  {
    LeftPart(rows, s, e, k);
    WrapKeeps(e.left, k, s.constants);
  }

  /** The right operand of a spelled binary expression is spelled after
      the operator symbol, up to the end of the expression. */
  lemma RightOperand(rows: seq<P.Row>, s: P.State, e: Expr, k: nat)
    requires WellFormed(e) && e.Binary? && k == OperatorLevel(e.op) && At(rows, s, Spell(e))
    ensures var t, r := After(s, Wrap(e.left, k)), Wrap(e.right, k + 1);
      var u := t.(index := t.index + 1);
      WellFormed(r) && Level(r) >= k + 1 && At(rows, u, Spell(r)) && After(u, r) == After(s, e) && u.constants == s.constants
  {
    var l, r := Wrap(e.left, k), Wrap(e.right, k + 1);
    LeftPart(rows, s, e, k);
    AtSplit(rows, After(s, l), [SymbolToken(Symbol(e.op))], Spell(r));
    AfterParts(s, e);
    WrapKeeps(e.right, k + 1, s.constants);
  }

  lemma AfterParts(s: P.State, e: Expr)
    requires e.Binary?
    ensures var k := OperatorLevel(e.op);
      var l, r := Wrap(e.left, k), Wrap(e.right, k + 1);
      var t := After(s, l);
      After(t.(index := t.index + 1), r) == After(s, e)
  {
    var k := OperatorLevel(e.op);
    var l, r := Wrap(e.left, k), Wrap(e.right, k + 1);
    SpellLength(e);
    UsedParts(e);
  }

  lemma SpellLength(e: Expr)
    requires e.Binary?
    ensures var k := OperatorLevel(e.op);
      |Spell(e)| == |Spell(Wrap(e.left, k))| + 1 + |Spell(Wrap(e.right, k + 1))|
  {
  }

  lemma UsedParts(e: Expr)
    requires e.Binary?
    ensures var k := OperatorLevel(e.op);
      Used(e) == Used(Wrap(e.left, k)) + Used(Wrap(e.right, k + 1))
  {
  }

  /** The value of a binary expression from the values of its operands. */
  lemma BinaryEval(e: Expr, c: map<O.Value, O.Value>)
    requires e.Binary?
    ensures var k := OperatorLevel(e.op);
      Eval(e, c) == (var a :- Eval(Wrap(e.left, k), c); var b :- Eval(Wrap(e.right, k + 1), c); O.Apply(Applied(e.op), a, b))
  {
    var k := OperatorLevel(e.op);
    WrapKeeps(e.left, k, c);
    WrapKeeps(e.right, k + 1, c);
  }

  /** One round of the loop of `parse_arithmetic_expression`, at a '+' or '-'. */
  lemma ArithmeticRound(rows: seq<P.Row>, v: O.Value, t: P.State, op: Operator)
    requires P.Fits(rows, t) && (op == PlusOp || op == MinusOp) && P.ValueAt(rows, t, 0) == Some(O.StrValue(Symbol(op)))
    ensures P.ArithmeticLoop(rows, v, t) ==
      (var x :- P.Unary(rows, t.(index := t.index + 1), false, false);
       var w :- O.Apply(Applied(op), v, x.result);
       P.ArithmeticLoop(rows, w, x.state))
  {
    assert P.AddingOp(rows, t) == Some(Applied(op));
  }

  /** `l + r` or `l - r` from what its operands read as: the left
      operand's value `el`, reaching t, and the right one's `er`, reaching
      fin, combined into `ev`. */
  lemma SumChain(rows: seq<P.Row>, s: P.State, t: P.State, fin: P.State, op: Operator, el: Result<O.Value>, er: Result<O.Value>, ev: Result<O.Value>)
    requires P.Fits(rows, s) && P.Fits(rows, t) && (op == PlusOp || op == MinusOp) && P.ValueAt(rows, t, 0) == Some(O.StrValue(Symbol(op)))
    requires P.Arithmetic(rows, s) == (if el.Failure? then Failure(el.error) else P.ArithmeticLoop(rows, el.value, t))
    requires el.Success? ==>
      P.Unary(rows, t.(index := t.index + 1), false, false) == (if er.Failure? then Failure(er.error) else Success(P.Parsed(er.value, fin)))
    requires ev == (var a :- el; var b :- er; O.Apply(Applied(op), a, b))
    ensures ev.Failure? ==> P.Arithmetic(rows, s) == Failure(ev.error)
    ensures ev.Success? ==> P.Arithmetic(rows, s) == P.ArithmeticLoop(rows, ev.value, fin)
  {
    if el.Success? {
      ArithmeticRound(rows, el.value, t, op);
    }
  }

  /** The left operand of `l + r` or `l - r`, read up to the sign. */
  lemma {:induction false} SumLeftReads(rows: seq<P.Row>, s: P.State, e: Expr)
    requires WellFormed(e) && e.Binary? && (e.op == PlusOp || e.op == MinusOp) && At(rows, s, Spell(e))
    ensures var l, c := Wrap(e.left, 2), s.constants;
      P.Arithmetic(rows, s) ==
        (if Eval(l, c).Failure? then Failure(Eval(l, c).error) else P.ArithmeticLoop(rows, Eval(l, c).value, After(s, l)))
    decreases Size(e), 3, 0
  {
    LeftOperand(rows, s, e, 2);
    ArithmeticReads(rows, s, Wrap(e.left, 2));
  }

  /** A unary expression read up to its end, with its value or error. */
  lemma {:induction false} UnaryValue(rows: seq<P.Row>, u: P.State, r: Expr, c: map<O.Value, O.Value>, fin: P.State)
    requires WellFormed(r) && Level(r) >= 3 && At(rows, u, Spell(r)) && After(u, r) == fin && u.constants == c
    ensures P.Unary(rows, u, false, false) ==
      (if Eval(r, c).Failure? then Failure(Eval(r, c).error) else Success(P.Parsed(Eval(r, c).value, fin)))
    decreases Size(r), 2, 1
  {
    UnaryReads(rows, u, r);
  }

  /** An arithmetic expression `l + r` or `l - r`: what follows it is
      left to the loop. */
  lemma {:induction false} SumReads(rows: seq<P.Row>, s: P.State, e: Expr)
    requires WellFormed(e) && e.Binary? && (e.op == PlusOp || e.op == MinusOp) && At(rows, s, Spell(e))
    ensures Eval(e, s.constants).Failure? ==> P.Arithmetic(rows, s) == Failure(Eval(e, s.constants).error)
    ensures Eval(e, s.constants).Success? ==> P.Arithmetic(rows, s) == P.ArithmeticLoop(rows, Eval(e, s.constants).value, After(s, e))
    decreases Size(e), 3, 2
  {
    var c := s.constants;
    var l, r := Wrap(e.left, 2), Wrap(e.right, 3);
    var t := After(s, l);
    OperatorAt(rows, s, e, 2);
    RightOperand(rows, s, e, 2);
    BinaryEval(e, c);
    UnaryValue(rows, t.(index := t.index + 1), r, c, After(s, e));
    SumLeftReads(rows, s, e);
    SumChain(rows, s, t, After(s, e), e.op, Eval(l, c), Eval(r, c), Eval(e, c));
  }

  /** An arithmetic expression: what follows it is left to the loop. */
  lemma {:induction false} ArithmeticReads(rows: seq<P.Row>, s: P.State, e: Expr)
    requires WellFormed(e) && Level(e) >= 2 && At(rows, s, Spell(e))
    ensures Eval(e, s.constants).Failure? ==> P.Arithmetic(rows, s) == Failure(Eval(e, s.constants).error)
    ensures Eval(e, s.constants).Success? ==> P.Arithmetic(rows, s) == P.ArithmeticLoop(rows, Eval(e, s.constants).value, After(s, e))
    decreases Size(e), 3, 3
  {
    if e.Binary? {
      SumReads(rows, s, e);
    } else {
      UnaryReads(rows, s, e);
    }
  }

  /** An arithmetic expression followed by neither '+' nor '-', read up to
      its end, with its value or error. */
  lemma {:induction false} ArithmeticValue(rows: seq<P.Row>, u: P.State, r: Expr, c: map<O.Value, O.Value>, fin: P.State)
    requires WellFormed(r) && Level(r) >= 2 && At(rows, u, Spell(r)) && After(u, r) == fin && u.constants == c
    requires P.AddingOp(rows, fin).None?
    ensures P.Fits(rows, u) && P.Arithmetic(rows, u) ==
      (if Eval(r, c).Failure? then Failure(Eval(r, c).error) else Success(P.Parsed(Eval(r, c).value, fin)))
    decreases Size(r), 3, 4
  {
    ArithmeticReads(rows, u, r);
    if Eval(r, c).Success? {
      LoopsEnd(rows, Eval(r, c).value, fin);
    }
  }

  /** The loops stop at a token that does not continue them. */
  lemma LoopsEnd(rows: seq<P.Row>, v: O.Value, t: P.State)
    requires P.Fits(rows, t)
    ensures P.AddingOp(rows, t).None? ==> P.ArithmeticLoop(rows, v, t) == Success(P.Parsed(v, t))
    ensures !P.Is(rows, t, 0, "&") ==> P.AndLoop(rows, v, t) == Success(P.Parsed(v, t))
  {
  }

  /** One round of the loop of `parse_and_expression`, at a '&'. */
  lemma AndRound(rows: seq<P.Row>, v: O.Value, t: P.State)
    requires P.Fits(rows, t) && P.Is(rows, t, 0, "&")
    ensures P.AndLoop(rows, v, t) ==
      (var x :- P.Arithmetic(rows, t.(index := t.index + 1));
       var w :- O.Apply(O.And, v, x.result);
       P.AndLoop(rows, w, x.state))
  {
  }

  /** One round of the loop of `parse_or_expression`, at a '|'. */
  lemma OrRound(rows: seq<P.Row>, v: O.Value, t: P.State)
    requires P.Fits(rows, t) && P.Is(rows, t, 0, "|")
    ensures P.OrLoop(rows, v, t) ==
      (var x :- P.And(rows, t.(index := t.index + 1));
       var w :- O.Apply(O.Or, v, x.result);
       P.OrLoop(rows, w, x.state))
  {
  }

  /** `l & r` from what its operands read as: the left operand's value
      `el`, reaching t, and the right one's `er`, reaching fin, combined
      into `ev`. */
  lemma AndChain(rows: seq<P.Row>, s: P.State, t: P.State, fin: P.State, el: Result<O.Value>, er: Result<O.Value>, ev: Result<O.Value>)
    requires P.Fits(rows, s) && P.Fits(rows, t) && P.Is(rows, t, 0, "&")
    requires P.And(rows, s) == (if el.Failure? then Failure(el.error) else P.AndLoop(rows, el.value, t))
    requires el.Success? ==>
      P.Arithmetic(rows, t.(index := t.index + 1)) == (if er.Failure? then Failure(er.error) else Success(P.Parsed(er.value, fin)))
    requires ev == (var a :- el; var b :- er; O.Apply(O.And, a, b))
    ensures ev.Failure? ==> P.And(rows, s) == Failure(ev.error)
    ensures ev.Success? ==> P.And(rows, s) == P.AndLoop(rows, ev.value, fin)
  {
    if el.Success? {
      AndRound(rows, el.value, t);
    }
  }

  /** `l | r` from what its operands read as. */
  lemma OrChain(rows: seq<P.Row>, s: P.State, t: P.State, fin: P.State, el: Result<O.Value>, er: Result<O.Value>, ev: Result<O.Value>)
    requires P.Fits(rows, s) && P.Fits(rows, t) && P.Is(rows, t, 0, "|")
    requires P.Or(rows, s) == (if el.Failure? then Failure(el.error) else P.OrLoop(rows, el.value, t))
    requires el.Success? ==>
      P.And(rows, t.(index := t.index + 1)) == (if er.Failure? then Failure(er.error) else Success(P.Parsed(er.value, fin)))
    requires ev == (var a :- el; var b :- er; O.Apply(O.Or, a, b))
    ensures ev.Failure? ==> P.Or(rows, s) == Failure(ev.error)
    ensures ev.Success? ==> P.Or(rows, s) == P.OrLoop(rows, ev.value, fin)
  {
    if el.Success? {
      OrRound(rows, el.value, t);
    }
  }

  /** The left operand of `l & r`, read up to the '&'. */
  lemma {:induction false} AndLeftReads(rows: seq<P.Row>, s: P.State, e: Expr)
    requires WellFormed(e) && e.Binary? && e.op == AndOp && At(rows, s, Spell(e))
    ensures var l, c := Wrap(e.left, 1), s.constants;
      P.Fits(rows, After(s, l)) &&
      P.And(rows, s) == (if Eval(l, c).Failure? then Failure(Eval(l, c).error) else P.AndLoop(rows, Eval(l, c).value, After(s, l)))
    decreases Size(e), 4, 0
  {
    var l := Wrap(e.left, 1);
    LeftOperand(rows, s, e, 1);
    OperatorAt(rows, s, e, 1);
    assert P.AddingOp(rows, After(s, l)).None?;
    AndReads(rows, s, l);
  }

  /** An and-expression `l & r` followed by neither '+' nor '-'. */
  lemma {:induction false} AndBinaryReads(rows: seq<P.Row>, s: P.State, e: Expr)
    requires WellFormed(e) && e.Binary? && e.op == AndOp && At(rows, s, Spell(e))
    requires P.AddingOp(rows, After(s, e)).None?
    ensures Eval(e, s.constants).Failure? ==> P.And(rows, s) == Failure(Eval(e, s.constants).error)
    ensures Eval(e, s.constants).Success? ==> P.And(rows, s) == P.AndLoop(rows, Eval(e, s.constants).value, After(s, e))
    decreases Size(e), 4, 1
  {
    var c := s.constants;
    var l, r := Wrap(e.left, 1), Wrap(e.right, 2);
    var t := After(s, l);
    OperatorAt(rows, s, e, 1);
    RightOperand(rows, s, e, 1);
    BinaryEval(e, c);
    ArithmeticValue(rows, t.(index := t.index + 1), r, c, After(s, e));
    AndLeftReads(rows, s, e);
    AndChain(rows, s, t, After(s, e), Eval(l, c), Eval(r, c), Eval(e, c));
  }

  /** An and-expression followed by neither '+' nor '-'. */
  lemma {:induction false} AndReads(rows: seq<P.Row>, s: P.State, e: Expr)
    requires WellFormed(e) && Level(e) >= 1 && At(rows, s, Spell(e))
    requires P.AddingOp(rows, After(s, e)).None?
    ensures Eval(e, s.constants).Failure? ==> P.And(rows, s) == Failure(Eval(e, s.constants).error)
    ensures Eval(e, s.constants).Success? ==> P.And(rows, s) == P.AndLoop(rows, Eval(e, s.constants).value, After(s, e))
    decreases Size(e), 4, 2
  {
    if e.Binary? && e.op == AndOp {
      AndBinaryReads(rows, s, e);
    } else {
      ArithmeticValue(rows, s, e, s.constants, After(s, e));
    }
  }

  /** The left operand of `l | r`, read up to the '|'. */
  lemma {:induction false} OrLeftReads(rows: seq<P.Row>, s: P.State, e: Expr)
    requires WellFormed(e) && e.Binary? && e.op == OrOp && At(rows, s, Spell(e))
    ensures var l, c := Wrap(e.left, 0), s.constants;
      P.Fits(rows, After(s, l)) &&
      P.Or(rows, s) == (if Eval(l, c).Failure? then Failure(Eval(l, c).error) else P.OrLoop(rows, Eval(l, c).value, After(s, l)))
    decreases Size(e), 5, 0
  {
    var l := Wrap(e.left, 0);
    LeftOperand(rows, s, e, 0);
    OperatorAt(rows, s, e, 0);
    assert P.AddingOp(rows, After(s, l)).None? && !P.Is(rows, After(s, l), 0, "&");
    OrReads(rows, s, l);
  }

  /** An and-expression followed by none of '+', '-' and '&', read up to
      its end, with its value or error. */
  lemma {:induction false} AndValue(rows: seq<P.Row>, u: P.State, r: Expr, c: map<O.Value, O.Value>, fin: P.State)
    requires WellFormed(r) && Level(r) >= 1 && At(rows, u, Spell(r)) && After(u, r) == fin && u.constants == c
    requires P.AddingOp(rows, fin).None? && !P.Is(rows, fin, 0, "&")
    ensures P.Fits(rows, u) && P.And(rows, u) ==
      (if Eval(r, c).Failure? then Failure(Eval(r, c).error) else Success(P.Parsed(Eval(r, c).value, fin)))
    decreases Size(r), 4, 3
  {
    AndReads(rows, u, r);
    if Eval(r, c).Success? {
      LoopsEnd(rows, Eval(r, c).value, fin);
    }
  }

  /** An or-expression `l | r` followed by none of '+', '-' and '&'. */
  lemma {:induction false} OrBinaryReads(rows: seq<P.Row>, s: P.State, e: Expr)
    requires WellFormed(e) && e.Binary? && e.op == OrOp && At(rows, s, Spell(e))
    requires P.AddingOp(rows, After(s, e)).None? && !P.Is(rows, After(s, e), 0, "&")
    ensures Eval(e, s.constants).Failure? ==> P.Or(rows, s) == Failure(Eval(e, s.constants).error)
    ensures Eval(e, s.constants).Success? ==> P.Or(rows, s) == P.OrLoop(rows, Eval(e, s.constants).value, After(s, e))
    decreases Size(e), 5, 1
  {
    var c := s.constants;
    var l, r := Wrap(e.left, 0), Wrap(e.right, 1);
    var t := After(s, l);
    OperatorAt(rows, s, e, 0);
    RightOperand(rows, s, e, 0);
    BinaryEval(e, c);
    AndValue(rows, t.(index := t.index + 1), r, c, After(s, e));
    OrLeftReads(rows, s, e);
    OrChain(rows, s, t, After(s, e), Eval(l, c), Eval(r, c), Eval(e, c));
  }

  /** An or-expression followed by none of '+', '-' and '&'. */
  lemma {:induction false} OrReads(rows: seq<P.Row>, s: P.State, e: Expr)
    requires WellFormed(e) && At(rows, s, Spell(e))
    requires P.AddingOp(rows, After(s, e)).None? && !P.Is(rows, After(s, e), 0, "&")
    ensures Eval(e, s.constants).Failure? ==> P.Or(rows, s) == Failure(Eval(e, s.constants).error)
    ensures Eval(e, s.constants).Success? ==> P.Or(rows, s) == P.OrLoop(rows, Eval(e, s.constants).value, After(s, e))
    decreases Size(e), 5, 2
  {
    if e.Binary? && e.op == OrOp {
      OrBinaryReads(rows, s, e);
    } else {
      AndValue(rows, s, e, s.constants, After(s, e));
    }
  }

  /** The token at s continues no expression: it is none of '+', '-', '&'
      and '|', or the line has ended. */
  predicate Ends(rows: seq<P.Row>, s: P.State)
    requires s.line < |rows|
  {
    P.AddingOp(rows, s).None? && !P.Is(rows, s, 0, "&") && !P.Is(rows, s, 0, "|")
  }

  /** The parser reads every spelled expression as its value: when the
      tokens from the index on are the spelling of e, followed by the end of
      the line or by a token that continues no expression, `parse_or_expression`
      gives Eval(e) and stops after the spelling, having recorded the
      constants e names; or it raises the error Eval gives. */
  lemma ExpressionReads(rows: seq<P.Row>, s: P.State, e: Expr)
    requires WellFormed(e) && At(rows, s, Spell(e))
    requires Ends(rows, After(s, e))
    ensures P.Or(rows, s) == Reading(e, s)
  {
    OrReads(rows, s, e);
  }

  /** `parse_constant_expression` on a spelled expression that does not
      start with a name outside the constants: an 'integer' whose value is
      Eval(e), the labels untouched. */
  lemma ConstantExpressionReads(rows: seq<P.Row>, s: P.State, e: Expr)
    requires WellFormed(e) && At(rows, s, Spell(e))
    requires Ends(rows, After(s, e))
    requires !(Spell(e)[0].kind == P.IdentifierToken && Spell(e)[0].value !in s.constants)
    ensures var r := P.ConstantExpression(rows, s);
      && (r.Success? <==> Eval(e, s.constants).Success?)
      && (r.Success? ==> r.value == P.Parsed(P.Token(P.IntegerToken, Eval(e, s.constants).value), After(s, e)))
      && (r.Failure? ==> r.error == Eval(e, s.constants).error)
  {
    AtFirst(rows, s, Spell(e));
    ExpressionReads(rows, s, e);
  }

  /** A name that is no constant is a label argument: it is returned as an
      'identifier', recorded among the used labels, and nothing after it is
      read, whatever follows. */
  lemma LabelReads(rows: seq<P.Row>, s: P.State, name: O.Value)
    requires At(rows, s, [P.Token(P.IdentifierToken, name)]) && name !in s.constants
    ensures P.ConstantExpression(rows, s) ==
      Success(P.Parsed(P.Token(P.IdentifierToken, name), s.(index := s.index + 1, usedLabels := s.usedLabels + [name])))
  {
    AtFirst(rows, s, [P.Token(P.IdentifierToken, name)]);
  }

  /** A parser at the start of its first row, with no tables. */
  const Start := P.State(0, 0, map[], map[], [], [], [])

  /** A row that is the spelling of e and nothing else reads as e. */
  lemma WholeRow(row: P.Row, e: Expr)
    requires WellFormed(e) && Spell(e) == row
    ensures P.Or([row], Start) == Reading(e, Start)
  {
    BeginsRow(row, 0, row);
    assert After(Start, e).index == |row|;
    ExpressionReads([row], Start, e);
  }

  /** An operator whose operands need no brackets is written between
      their spellings. */
  lemma SpellBinary(op: Operator, l: Expr, r: Expr)
    requires Level(l) >= OperatorLevel(op) && Level(r) > OperatorLevel(op)
    ensures Spell(Binary(op, l, r)) == Spell(l) + [SymbolToken(Symbol(op))] + Spell(r)
  {
  }

  /** `parse_or_expression` at the start of a program of one row, with no
      constants, gives v and stops at the end of the row. */
  predicate RowReads(row: P.Row, v: O.Value) {
    P.Or([row], Start) == Success(P.Parsed(v, Start.(index := |row|)))
  }

  /** A whole row that spells an expression with no names reads as the
      expression's value, up to the end of the row. */
  lemma NamelessRow(row: P.Row, e: Expr, v: O.Value)
    requires WellFormed(e) && Spell(e) == row && Used(e) == [] && Eval(e, map[]) == Success(v)
    ensures RowReads(row, v)
  {
    WholeRow(row, e);
    assert After(Start, e) == Start.(index := |row|);
  }

  /** For unary expressions x, y and z, `(x + y) & z` is written
      `x + y & z`, without brackets. */
  lemma SumAndSpelling(x: Expr, y: Expr, z: Expr)
    requires Level(x) >= 3 && Level(y) >= 3 && Level(z) >= 3
    ensures Spell(Binary(AndOp, Binary(PlusOp, x, y), z)) ==
      Spell(x) + [SymbolToken("+")] + Spell(y) + [SymbolToken("&")] + Spell(z)
  {
    SpellBinary(PlusOp, x, y);
    SpellBinary(AndOp, Binary(PlusOp, x, y), z);
  }

  /** For unary expressions x, y, z and w, `((x + y) & z) | w` is written
      `x + y & z | w`, without brackets. */
  lemma FallingSpelling(x: Expr, y: Expr, z: Expr, w: Expr)
    requires Level(x) >= 3 && Level(y) >= 3 && Level(z) >= 3 && Level(w) >= 3
    ensures Spell(Binary(OrOp, Binary(AndOp, Binary(PlusOp, x, y), z), w)) ==
      Spell(x) + [SymbolToken("+")] + Spell(y) + [SymbolToken("&")] + Spell(z) + [SymbolToken("|")] + Spell(w)
  {
    SumAndSpelling(x, y, z);
    SpellBinary(OrOp, Binary(AndOp, Binary(PlusOp, x, y), z), w);
  }

  /** Precedence: the tokens `x + y & z | w` are read as
      `((x + y) & z) | w`. */
  lemma PrecedenceFalling(rows: seq<P.Row>, s: P.State, x: Expr, y: Expr, z: Expr, w: Expr)
    requires Level(x) >= 3 && Level(y) >= 3 && Level(z) >= 3 && Level(w) >= 3
    requires WellFormed(x) && WellFormed(y) && WellFormed(z) && WellFormed(w)
    requires At(rows, s, Spell(x) + [SymbolToken("+")] + Spell(y) + [SymbolToken("&")] + Spell(z) + [SymbolToken("|")] + Spell(w))
    requires Ends(rows, After(s, Binary(OrOp, Binary(AndOp, Binary(PlusOp, x, y), z), w)))
    ensures P.Or(rows, s) == Reading(Binary(OrOp, Binary(AndOp, Binary(PlusOp, x, y), z), w), s)
  {
    FallingSpelling(x, y, z, w);
    ExpressionReads(rows, s, Binary(OrOp, Binary(AndOp, Binary(PlusOp, x, y), z), w));
  }

  /** `x | (y & (z + w))` is written `x | y & z + w`, without brackets. */
  lemma RisingSpelling(x: Expr, y: Expr, z: Expr, w: Expr)
    requires Level(x) >= 3 && Level(y) >= 3 && Level(z) >= 3 && Level(w) >= 3
    ensures Spell(Binary(OrOp, x, Binary(AndOp, y, Binary(PlusOp, z, w)))) ==
      Spell(x) + [SymbolToken("|")] + Spell(y) + [SymbolToken("&")] + Spell(z) + [SymbolToken("+")] + Spell(w)
  {
    var zw := Binary(PlusOp, z, w);
    var yzw := Binary(AndOp, y, zw);
    assert Level(zw) == 2 && Level(yzw) == 1;
    assert Spell(zw) == Spell(z) + [SymbolToken("+")] + Spell(w) by { SpellBinary(PlusOp, z, w); }
    assert Spell(yzw) == Spell(y) + [SymbolToken("&")] + Spell(zw) by { SpellBinary(AndOp, y, zw); }
    assert Spell(Binary(OrOp, x, yzw)) == Spell(x) + [SymbolToken("|")] + Spell(yzw) by { SpellBinary(OrOp, x, yzw); }
    RightNested(Spell(x), [SymbolToken("|")], Spell(y), [SymbolToken("&")], Spell(z), [SymbolToken("+")], Spell(w));
  }

  /** Concatenation nested to the right, flattened. */
  lemma RightNested<T>(a: seq<T>, b: seq<T>, c: seq<T>, d: seq<T>, e: seq<T>, f: seq<T>, g: seq<T>)
    ensures a + b + (c + d + (e + f + g)) == a + b + c + d + e + f + g
  {
  }

  /** Precedence the other way round: the tokens `x | y & z + w` are read
      as `x | (y & (z + w))`. */
  lemma PrecedenceRising(rows: seq<P.Row>, s: P.State, x: Expr, y: Expr, z: Expr, w: Expr)
    requires Level(x) >= 3 && Level(y) >= 3 && Level(z) >= 3 && Level(w) >= 3
    requires WellFormed(x) && WellFormed(y) && WellFormed(z) && WellFormed(w)
    requires At(rows, s, Spell(x) + [SymbolToken("|")] + Spell(y) + [SymbolToken("&")] + Spell(z) + [SymbolToken("+")] + Spell(w))
    requires Ends(rows, After(s, Binary(OrOp, x, Binary(AndOp, y, Binary(PlusOp, z, w)))))
    ensures P.Or(rows, s) == Reading(Binary(OrOp, x, Binary(AndOp, y, Binary(PlusOp, z, w))), s)
  {
    RisingSpelling(x, y, z, w);
    ExpressionReads(rows, s, Binary(OrOp, x, Binary(AndOp, y, Binary(PlusOp, z, w))));
  }

  /** A binary expression of two literals names no constant. */
  lemma LiteralPair(op: Operator, a: int, b: int)
    ensures WellFormed(Binary(op, Literal(a), Literal(b))) && Used(Binary(op, Literal(a), Literal(b))) == []
  {
  }

  /** Grouping: `a - b - c` is `(a - b) - c`. */
  lemma LeftGrouping(a: int, b: int, c: int)
    requires -32768 <= a < 65536 && -32768 <= b < 65536 && -32768 <= c < 65536
    ensures RowReads([Int(a), SymbolToken("-"), Int(b), SymbolToken("-"), Int(c)],
      O.IntValue(a - b - c))
  {
    var ab := Binary(MinusOp, Literal(a), Literal(b));
    var e := Binary(MinusOp, ab, Literal(c));
    SpellBinary(MinusOp, Literal(a), Literal(b));
    SpellBinary(MinusOp, ab, Literal(c));
    assert Eval(ab, map[]) == Success(O.IntValue(a - b));
    LiteralPair(MinusOp, a, b);
    NamelessRow([Int(a), SymbolToken("-"), Int(b), SymbolToken("-"), Int(c)], e, O.IntValue(a - b - c));
  }

  /** `a - (b - c)` keeps its brackets when spelled, and reads as its value. */
  lemma RightGroupingBracketed(a: int, b: int, c: int)
    requires -32768 <= a < 65536 && -32768 <= b < 65536 && -32768 <= c < 65536
    ensures Spell(Binary(MinusOp, Literal(a), Binary(MinusOp, Literal(b), Literal(c)))) ==
      [Int(a), SymbolToken("-"), SymbolToken("("), Int(b), SymbolToken("-"), Int(c), SymbolToken(")")]
    ensures RowReads([Int(a), SymbolToken("-"), SymbolToken("("), Int(b), SymbolToken("-"), Int(c), SymbolToken(")")],
      O.IntValue(a - (b - c)))
  {
    var bc := Binary(MinusOp, Literal(b), Literal(c));
    var e := Binary(MinusOp, Literal(a), bc);
    LiteralPair(MinusOp, b, c);
    SpellBinary(MinusOp, Literal(b), Literal(c));
    assert Wrap(bc, 3) == Bracket(bc);
    assert Spell(Bracket(bc)) == [SymbolToken("(")] + Spell(bc) + [SymbolToken(")")];
    assert Spell(e) == Spell(Literal(a)) + [SymbolToken("-")] + Spell(Bracket(bc));
    assert Eval(bc, map[]) == Success(O.IntValue(b - c));
    NamelessRow([Int(a), SymbolToken("-"), SymbolToken("("), Int(b), SymbolToken("-"), Int(c), SymbolToken(")")], e,
      O.IntValue(a - (b - c)));
  }

  /** Signs act by parity, not by nesting: `-!n` gives `~(-n)`, n - 1. */
  lemma MinusInvert(n: int)
    requires -32768 <= n < 65536
    ensures RowReads([SymbolToken("-"), SymbolToken("!"), Int(n)],
      O.IntValue(n - 1))
  {
    var signs := [Minus, Invert];
    assert signs[1..] == [Invert] && [Invert][1..] == [];
    assert Odd(signs, Minus) && Odd(signs, Invert);
    assert SignTokens(signs) == [SymbolToken("-"), SymbolToken("!")];
    var e := Signed(signs, Literal(n));
    assert Spell(e) == SignTokens(signs) + [Int(n)];
    NamelessRow([SymbolToken("-"), SymbolToken("!"), Int(n)], e, O.IntValue(n - 1));
  }

  /** `!-n` gives the same, n - 1: the order of the signs does not matter. */
  lemma InvertMinus(n: int)
    requires -32768 <= n < 65536
    ensures RowReads([SymbolToken("!"), SymbolToken("-"), Int(n)],
      O.IntValue(n - 1))
  {
    var signs := [Invert, Minus];
    assert signs[1..] == [Minus] && [Minus][1..] == [];
    assert Odd(signs, Minus) && Odd(signs, Invert);
    assert SignTokens(signs) == [SymbolToken("!"), SymbolToken("-")];
    var e := Signed(signs, Literal(n));
    assert Spell(e) == SignTokens(signs) + [Int(n)];
    NamelessRow([SymbolToken("!"), SymbolToken("-"), Int(n)], e, O.IntValue(n - 1));
  }

  /** A bracket nests the signs: `-(!n)` gives `-(~n)`, n + 1. */
  lemma MinusBracketInvert(n: int)
    requires -32768 <= n < 65536
    ensures RowReads([SymbolToken("-"), SymbolToken("("), SymbolToken("!"), Int(n), SymbolToken(")")],
      O.IntValue(n + 1))
  {
    assert [Minus][1..] == [] && [Invert][1..] == [];
    assert Odd([Minus], Minus) && !Odd([Minus], Invert) && !Odd([Invert], Minus) && Odd([Invert], Invert);
    var inner := Signed([Invert], Literal(n));
    var e := Signed([Minus], inner);
    assert Spell(inner) == [SymbolToken("!"), Int(n)];
    assert Spell(e) == [SymbolToken("-")] + ([SymbolToken("(")] + Spell(inner) + [SymbolToken(")")]);
    assert Eval(inner, map[]) == Success(O.IntValue(-n - 1));
    assert WellFormed(inner) && Used(inner) == [];
    NamelessRow([SymbolToken("-"), SymbolToken("("), SymbolToken("!"), Int(n), SymbolToken(")")], e, O.IntValue(n + 1));
  }
}
