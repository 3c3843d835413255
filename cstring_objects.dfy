/**
 * The CodeObject of the older all-in-one text module: a value (a str or an
 * int) together with the PositionedString it was read from. Comparisons
 * look at the value only; the arithmetic and bit operators combine the
 * values and, when the other operand is a CodeObject too, concatenate the
 * texts. The in-place operators are methods of a class.
 */
module CStringObjects {
  import opened Wrappers
  import opened Bits
  import PositionedStrings
  import T = CStringText

  /** The values the constructor's assertion lets through, floats left aside. */
  datatype Value = IntValue(i: int) | StrValue(s: string)

  datatype CodeObject = CodeObject(value: Value, text: T.LString)

  /** The right operand of an operator: another CodeObject or a plain value. */
  datatype Other = Object(o: CodeObject) | Plain(v: Value)

  datatype BinaryOp = And | Or | Plus | Minus | LeftShift | RightShift

  /** Python's `a op b` on the values: the int operators on two ints (a
      negative shift count raises ValueError), `+` concatenating two strs,
      TypeError for every other pairing. */
  function Apply(op: BinaryOp, a: Value, b: Value): (r: Result<Value>)
    ensures a.StrValue? && b.StrValue? ==> (r.Success? <==> op == Plus)
    ensures a.StrValue? != b.StrValue? ==> r == Failure(Python("TypeError"))
    ensures a.IntValue? && b.IntValue? ==> (r.Success? <==> !(op in {LeftShift, RightShift} && b.i < 0))
    ensures r.Success? ==> r.value.IntValue? == a.IntValue?
  {
    match (a, b)
    case (IntValue(x), IntValue(y)) =>
      (match op
       case And => Success(IntValue(BitAnd(x, y)))
       case Or => Success(IntValue(BitOr(x, y)))
       case Plus => Success(IntValue(x + y))
       case Minus => Success(IntValue(x - y))
       case LeftShift => if y < 0 then Failure(Python("ValueError")) else Success(IntValue(ShiftLeft(x, y)))
       case RightShift => if y < 0 then Failure(Python("ValueError")) else Success(IntValue(ShiftRight(x, y))))
    case (StrValue(x), StrValue(y)) =>
      if op == Plus then Success(StrValue(x + y)) else Failure(Python("TypeError"))
    case _ => Failure(Python("TypeError"))
  }

  /** The operand's value: that of a CodeObject, or the plain value itself. */
  function ValueOf(other: Other): Value {
    match other
    case Object(o) => o.value
    case Plain(v) => v
  }

  /** `a & other`, `a | other`, `a + other`, `a - other`, `a << other`,
      `a >> other`: the operator applied to the values; the text of a
      CodeObject operand is appended, a plain operand leaves the text alone. */
  function Binary(op: BinaryOp, a: CodeObject, other: Other): (r: Result<CodeObject>)
    ensures r.Success? <==> Apply(op, a.value, ValueOf(other)).Success?
    ensures r.Failure? ==> r.error == Apply(op, a.value, ValueOf(other)).error
    ensures r.Success? ==> r.value.value == Apply(op, a.value, ValueOf(other)).value
    ensures r.Success? && other.Object? ==> r.value.text == T.Concat(a.text, other.o.text)
    ensures r.Success? && other.Plain? ==> r.value.text == a.text
  {
    var value :- Apply(op, a.value, ValueOf(other));
    match other
    case Object(b) => Success(CodeObject(value, T.Add(a.text, T.Positioned(b.text)).value))
    case Plain(_) => Success(CodeObject(value, a.text))
  }

  /** Combining with a CodeObject gives the value that combining with its
      bare value gives, and differs only in carrying both texts. */
  lemma ObjectOperandIsValueOperand(op: BinaryOp, a: CodeObject, b: CodeObject)
    ensures Binary(op, a, Object(b)).Success? <==> Binary(op, a, Plain(b.value)).Success?
    ensures Binary(op, a, Object(b)).Success? ==>
      Binary(op, a, Object(b)).value.value == Binary(op, a, Plain(b.value)).value.value
      && Binary(op, a, Object(b)).value.text.text == a.text.text + b.text.text
      && Binary(op, a, Plain(b.value)).value.text == a.text
  {
  }

  /** `&` and `+` of two int CodeObjects: the bitwise and or the sum of the
      values, on the concatenated texts, the lines and positions of both kept. */
  lemma AndPlusOfInts(a: CodeObject, b: CodeObject)
    requires a.value.IntValue? && b.value.IntValue?
    ensures var r := Binary(And, a, Object(b)).value;
      r.value == IntValue(BitAnd(a.value.i, b.value.i))
      && r.text == T.LString(a.text.text + b.text.text, a.text.lines + b.text.lines, a.text.positions + b.text.positions)
    ensures var r := Binary(Plus, a, Object(b)).value;
      r.value == IntValue(a.value.i + b.value.i)
      && r.text == T.LString(a.text.text + b.text.text, a.text.lines + b.text.lines, a.text.positions + b.text.positions)
  {
  }

  /** Python's `~v` and `-v` on a value: ints only. */
  function InvertValue(v: Value): (r: Result<Value>)
    ensures r.Success? <==> v.IntValue?
    ensures r.Success? ==> r.value.IntValue? && r.value.i + v.i == -1
  {
    match v
    case IntValue(x) => Success(IntValue(BitNot(x)))
    case StrValue(_) => Failure(Python("TypeError"))
  }

  function NegateValue(v: Value): (r: Result<Value>)
    ensures r.Success? <==> v.IntValue?
    ensures r.Success? ==> r.value.IntValue? && r.value.i + v.i == 0
  {
    match v
    case IntValue(x) => Success(IntValue(-x))
    case StrValue(_) => Failure(Python("TypeError"))
  }

  /** `~a` and `-a`: the operator on the value, the text kept. */
  function Invert(a: CodeObject): (r: Result<CodeObject>)
    ensures r.Success? <==> a.value.IntValue?
    ensures r.Success? ==> (r.value.text == a.text && r.value.value.IntValue?
      && r.value.value.i + a.value.i == -1)
  {
    var v :- InvertValue(a.value);
    Success(CodeObject(v, a.text))
  }

  function Negate(a: CodeObject): (r: Result<CodeObject>)
    ensures r.Success? <==> a.value.IntValue?
    ensures r.Success? ==> (r.value.text == a.text && r.value.value.IntValue?
      && r.value.value.i + a.value.i == 0)
  {
    var v :- NegateValue(a.value);
    Success(CodeObject(v, a.text))
  }

  /** Inverting twice, or negating twice, gives the object back. */
  lemma InvertNegateInvolutions(a: CodeObject)
    requires a.value.IntValue?
    ensures Invert(Invert(a).value) == Success(a)
    ensures Negate(Negate(a).value) == Success(a)
  {
  }

  /** `a == other`: the values compared, the text never. */
  predicate Equal(a: CodeObject, other: Other) {
    a.value == ValueOf(other)
  }

  predicate NotEqual(a: CodeObject, other: Other) {
    a.value != ValueOf(other)
  }

  /** `a < other`: ints by size, strs in Python's order, TypeError between
      an int and a str. */
  function Less(a: Value, b: Value): (r: Result<bool>)
    ensures r.Failure? <==> a.IntValue? != b.IntValue?
  {
    match (a, b)
    case (IntValue(x), IntValue(y)) => Success(x < y)
    case (StrValue(x), StrValue(y)) => Success(PositionedStrings.Less(x, y))
    case _ => Failure(Python("TypeError"))
  }

  function Lt(a: CodeObject, other: Other): Result<bool> { Less(a.value, ValueOf(other)) }

  function Gt(a: CodeObject, other: Other): Result<bool> { Less(ValueOf(other), a.value) }

  function Le(a: CodeObject, other: Other): Result<bool> {
    var gt :- Less(ValueOf(other), a.value); Success(!gt)
  }

  function Ge(a: CodeObject, other: Other): Result<bool> {
    var lt :- Less(a.value, ValueOf(other)); Success(!lt)
  }

  /** Between values of one kind exactly one of <, == and > holds and <=, >=
      are the strict orders or equality; between an int and a str only `==`
      and `!=` answer. Only values matter, never the texts. */
  lemma OrderingOnValues(a: CodeObject, other: Other)
    ensures NotEqual(a, other) <==> !Equal(a, other)
    ensures a.value.IntValue? == ValueOf(other).IntValue? ==>
      var eq := Equal(a, other);
      Lt(a, other).Success? && Gt(a, other).Success? && Le(a, other).Success? && Ge(a, other).Success?
      && (Lt(a, other).value || eq || Gt(a, other).value)
      && !(Lt(a, other).value && Gt(a, other).value)
      && (eq ==> !Lt(a, other).value && !Gt(a, other).value)
      && (Le(a, other).value <==> Lt(a, other).value || eq)
      && (Ge(a, other).value <==> Gt(a, other).value || eq)
    ensures a.value.IntValue? != ValueOf(other).IntValue? ==>
      !Equal(a, other) && Lt(a, other).Failure? && Le(a, other).Failure?
  {
    var b := ValueOf(other);
    if a.value.StrValue? && b.StrValue? {
      PositionedStrings.LessTrichotomy(a.value.s, b.s);
    }
  }

  /** The key `__hash__` hashes: the value, which is what `==` compares, so
      equal objects hash alike whatever their texts. */
  function HashKey(a: CodeObject): Value {
    a.value
  }

  lemma HashFollowsEquality(a: CodeObject, b: CodeObject)
    requires Equal(a, Object(b))
    ensures HashKey(a) == HashKey(b)
  {
  }

  /** `len(a)`: the length of a str value; an int has none. */
  function Length(a: CodeObject): (r: Result<nat>)
    ensures r.Success? <==> a.value.StrValue?
    ensures r.Success? ==> r.value == |a.value.s|
  {
    match a.value
    case StrValue(s) => Success(|s|)
    case IntValue(_) => Failure(Python("TypeError"))
  }

  /** The operators that have an in-place form. */
  datatype InPlaceOp = AndAssign | OrAssign | PlusAssign | MinusAssign {
    function Op(): BinaryOp {
      match this
      case AndAssign => And
      case OrAssign => Or
      case PlusAssign => Plus
      case MinusAssign => Minus
    }
  }

  /** A CodeObject whose `value` and `text` the in-place operators update. */
  class CodeObjectCell {
    var value: Value
    var text: T.LString

    function State(): CodeObject
      reads this
    {
      CodeObject(value, text)
    }

    constructor (v: Value, t: T.LString)
      ensures State() == CodeObject(v, t)
    {
      value := v;
      text := t;
    }

    /** `a &= other`, `a |= other`, `a += other`, `a -= other`: the value is
        assigned first and the text appended after; an operator that raises
        leaves both as they were. The new state is what the binary operator
        returns. */
    method Update(op: InPlaceOp, other: Other) returns (outcome: Outcome)
      modifies this
      ensures var r := Binary(op.Op(), old(State()), other);
        (outcome.Pass? <==> r.Success?)
        && (r.Success? ==> State() == r.value)
        && (r.Failure? ==> outcome == Fail(r.error) && State() == old(State()))
    {
      match Apply(op.Op(), value, ValueOf(other))
      case Failure(e) =>
        return Fail(e);
      case Success(v) =>
        value := v;
        if other.Object? {
          text := T.Add(text, T.Positioned(other.o.text)).value;
        }
        return Pass;
    }
  }
}
