/** A CodeObject: a piece of compiled code, that is a positioned string
 * together with a value the compiler derived from it (an integer for an
 * integer token, a tree for a parsed group). The type is immutable, so
 * every operation is a function on values.
 */
module CodeObjects {
  import opened Wrappers
  import opened PositionedStrings

  /** `CodeObject(value, text)`: the object keeps the text and coordinates of
      `text` and the value. */
  datatype CodeObject<T> = CodeObject(value: T, source: PositionedString)

  /** `CodeObject.none(text)`: the value None, on the given text, or on the
      empty string when no text is passed. */
  function NoneOf<T>(text: Option<PositionedString>): (r: CodeObject<Option<T>>)
    ensures r.value == None
    ensures text.Some? ==> r.source == text.value
    ensures text.None? ==> r.source.text == [] && r.source.coordinates == [] && Valid(r.source)
  {
    CodeObject(None, if text.Some? then text.value else EmptyString())
  }

  /** `o + other`: the assertion that other is a PositionedString (a
      subclass instance included) fails for a str or any other object;
      otherwise the value of `o` is kept and the strings are concatenated. */
  function Plus<T>(o: CodeObject<T>, other: Operand): (r: Result<CodeObject<T>>)
    ensures r.Failure? <==> other.Str? || other.Foreign?
    ensures r.Failure? ==> r.error == Python("AssertionError")
    ensures r.Success? ==>
      var p := if other.Exact? then other.p else other.q;
      r.value.value == o.value
      && r.value.source.text == o.source.text + p.text
      && r.value.source.coordinates == o.source.coordinates + p.coordinates
      && (Valid(o.source) && Valid(p) ==> Valid(r.value.source))
  {
    match other
    case Exact(p) => Success(CodeObject(o.value, Concat(o.source, p)))
    case Subclass(q) => Success(CodeObject(o.value, Concat(o.source, q)))
    case _ => Failure(Python("AssertionError"))
  }

  /** Adding a PositionedString to a CodeObject gives the string that the
      PositionedString `+` gives, whether the operand is a plain
      PositionedString or another CodeObject. */
  lemma PlusIsStringAdd<T>(o: CodeObject<T>, p: PositionedString)
    ensures Plus(o, Exact(p)).Success? && Plus(o, Subclass(p)).Success?
    ensures Plus(o, Exact(p)).value.source == Add(o.source, Positioned(p)).value
    ensures Plus(o, Subclass(p)) == Plus(o, Exact(p))
  {
  }

  /** `+` on CodeObjects is associative on the strings and keeps the value of
      the leftmost operand. */
  lemma PlusAssociative<T>(a: CodeObject<T>, b: CodeObject<T>, c: CodeObject<T>)
    ensures var ab := Plus(a, Subclass(b.source)).value;
      var bc := Plus(b, Subclass(c.source)).value;
      Plus(ab, Subclass(c.source)) == Plus(a, Subclass(bc.source))
      && Plus(ab, Subclass(c.source)).value.value == a.value
  {
    var ab := Plus(a, Subclass(b.source)).value;
    var bc := Plus(b, Subclass(c.source)).value;
    assert (a.source.text + b.source.text) + c.source.text == a.source.text + (b.source.text + c.source.text);
    assert (a.source.coordinates + b.source.coordinates) + c.source.coordinates
        == a.source.coordinates + (b.source.coordinates + c.source.coordinates);
  }

  /** `add(a, b, f)`: the value `f(a.value, b.value)` on the text `a + b`. */
  function Combine<J, K, L>(a: CodeObject<J>, b: CodeObject<K>, f: (J, K) -> L): (r: CodeObject<L>)
    ensures r.value == f(a.value, b.value)
    ensures r.source.text == a.source.text + b.source.text
    ensures r.source.coordinates == a.source.coordinates + b.source.coordinates
  {
    var joined := Plus(a, Subclass(b.source));
    CodeObject(f(a.value, b.value), joined.value.source)
  }

  /** `add` places its text exactly where `+` does: the string of the
      combined object is the string of `a + b`, whatever the function. */
  lemma CombineIsPlus<J, K, L>(a: CodeObject<J>, b: CodeObject<K>, f: (J, K) -> L, g: (J, K) -> L)
    ensures Combine(a, b, f).source == Plus(a, Subclass(b.source)).value.source
    ensures Combine(a, b, f).source == Combine(a, b, g).source
  {
  }

  /** The key `__hash__` hashes: the value alone. */
  function HashKey<T>(o: CodeObject<T>): T {
    o.value
  }

  /** The hash ignores the text and coordinates entirely: objects with the
      same value hash alike, objects with different values have different
      keys, whatever their strings. */
  lemma HashByValue<T>(a: CodeObject<T>, b: CodeObject<T>)
    ensures HashKey(a) == HashKey(b) <==> a.value == b.value
    ensures HashKey(a) == HashKey(CodeObject(a.value, b.source))
  {
  }

  /** Equality between two CodeObjects is the inherited `__eq__`, whose test
      `type(other) == PositionedString` rejects every subclass instance. So
      no two CodeObjects are equal, and the rule that equal objects hash
      alike holds for them however their values differ; against a str,
      equality looks at the text alone. */
  lemma CodeObjectEquality<T>(a: CodeObject<T>, b: CodeObject<T>, s: string)
    ensures !Equal(a.source, Subclass(b.source))
    ensures NotEqual(a.source, Subclass(b.source))
    ensures Equal(a.source, Str(s)) <==> a.source.text == s
    ensures Equal(a.source, Subclass(b.source)) ==> HashKey(a) == HashKey(b)
  {
    EqualityOnText(a.source, Subclass(b.source));
    EqualityOnText(a.source, Str(s));
  }

  /** What a CodeObject with a str value is compared with: a str, a
      PositionedString or another CodeObject. */
  datatype Compared = Text(s: string) | Located(p: PositionedString) | Object(o: CodeObject<string>)

  /** Equality by value, the equality the hash by value of `__hash__` calls
      for and the tests of CodeObject expect: a CodeObject equals a str, or
      the text of a PositionedString, that is its value, and a CodeObject
      with the same value; its own text never matters. Python asks the
      CodeObject for `s == o` and `p == o` as well, so this decides both
      orders. */
  predicate ValueEqual(a: CodeObject<string>, b: Compared) {
    match b
    case Text(s) => a.value == s
    case Located(p) => a.value == p.text
    case Object(o) => a.value == o.value
  }

  /** The str that `hash` hashes for each kind of operand. */
  function KeyOf(b: Compared): string {
    match b
    case Text(s) => s
    case Located(p) => PositionedStrings.HashKey(p)
    case Object(o) => HashKey(o)
  }

  /** Equality by value holds exactly when the hashes agree, so a list scan
      and a dictionary lookup find the same keys; between two CodeObjects
      it is symmetric, where the inherited `==` makes no CodeObject equal
      to itself. */
  lemma ValueEquality(a: CodeObject<string>, b: Compared)
    ensures ValueEqual(a, b) <==> HashKey(a) == KeyOf(b)
    ensures b.Object? ==> (ValueEqual(a, b) <==> ValueEqual(b.o, Object(a)))
    ensures b == Object(a) ==> ValueEqual(a, b) && !Equal(a.source, Subclass(a.source))
  {
    if b.Located? {
      HashFollowsEquality(b.p, b.p);
    }
    CodeObjectEquality(a, a, "");
  }

  /** `test_eq`: for every pair of operand kinds, in either order, a str
      value x on any text p and a value y on any text q are equal exactly
      when x == y; a PositionedString operand is `create_string(y)`, whose
      text is y. */
  lemma EqualityTests(x: string, y: string, p: PositionedString, q: PositionedString)
    requires q.text == y
    ensures ValueEqual(CodeObject(x, p), Text(y)) <==> x == y
    ensures ValueEqual(CodeObject(x, p), Located(q)) <==> x == y
    ensures ValueEqual(CodeObject(x, p), Object(CodeObject(y, q))) <==> x == y
    ensures ValueEqual(CodeObject(y, q), Text(x)) <==> x == y
    ensures ValueEqual(CodeObject(y, q), Located(PositionedString(x, p.coordinates))) <==> x == y
  {
  }

  /** Whether some key of a list or dictionary equals a by value. */
  predicate Contains(keys: seq<Compared>, a: CodeObject<string>) {
    exists i :: 0 <= i < |keys| && ValueEqual(a, keys[i])
  }

  /** `test_in_operator`: a CodeObject is in a list or among the keys of a
      dictionary exactly when some key's hash is that of its value: the
      list's scan by `==` and the dictionary's lookup by hash then `==`
      agree. */
  lemma InOperator(keys: seq<Compared>, a: CodeObject<string>)
    ensures Contains(keys, a) <==> exists i :: 0 <= i < |keys| && KeyOf(keys[i]) == a.value
    ensures Contains(keys, a) <==> exists i :: 0 <= i < |keys| && KeyOf(keys[i]) == HashKey(a) && ValueEqual(a, keys[i])
  {
    if Contains(keys, a) {
      var i :| 0 <= i < |keys| && ValueEqual(a, keys[i]);
      ValueEquality(a, keys[i]);
    }
    if exists i :: 0 <= i < |keys| && KeyOf(keys[i]) == a.value {
      var i :| 0 <= i < |keys| && KeyOf(keys[i]) == a.value;
      ValueEquality(a, keys[i]);
    }
  }

  /** The discrepancy as written: `CodeObject('Hello World',
      create_string('2')) == 'Hello World'`, which the tests expect to hold,
      compares the text '2' under the inherited `__eq__` and is False. */
  lemma EqualityTestAsWritten()
    ensures var a := CodeObject("Hello World", PositionedString("2", [Coordinate(0, 0)]));
      !Equal(a.source, Str("Hello World")) && ValueEqual(a, Text("Hello World"))
  {
    var a := CodeObject("Hello World", PositionedString("2", [Coordinate(0, 0)]));
    CodeObjectEquality(a, a, "Hello World");
  }
}
