/**
 * The cursors a tokenizer walks through source text with. A `Code` holds a
 * PositionedString and an offset; every position it is asked about is
 * relative to the offset, and reading past the end gives the null character
 * instead of an error. A `LinedCode` holds the current source line in a Code
 * and the lines still to come in `remaining`, and only moves to the next
 * line when asked.
 *
 * The methods that only read the cursor (`substring`, `__getitem__`,
 * `__len__`, `has_more`) are functions of the `Cursor` value; the methods
 * that move it are methods of the classes, each proved to leave the state a
 * function of the old state describes.
 */
module TextCode {
  import opened Wrappers
  import opened PositionedStrings

  /** The state of a Code: its text and its offset. */
  datatype Cursor = Cursor(text: PositionedString, offset: int)

  /** What a step that may raise returns, together with the state it leaves
      (an exception can leave the offset already moved). */
  datatype Moved<T> = Moved(result: Result<T>, after: Cursor)

  /** A cursor whose text is aligned and whose offset has not gone below 0,
      which every method keeps. */
  predicate Sound(c: Cursor) {
    Valid(c.text) && 0 <= c.offset
  }

  function Min(a: int, b: int): int { if a < b then a else b }

  function Max(a: int, b: int): int { if a < b then b else a }

  // ---------------------------------------------------------------------
  // Reading

  /** The (start, end) that `substring` derives from at most two of start,
      end and length: a missing bound is found from the other and the length,
      or defaults to the offset; relative bounds are moved by the offset. */
  function Bounds(offset: int, start: Option<int>, end: Option<int>, length: Option<int>, relative: bool): (r: (int, int))
    ensures var base := if relative then offset else 0;
      (start.Some? ==> r.0 == start.value + base)
      && (end.Some? ==> r.1 == end.value + base)
      && (start.None? && end.Some? && length.Some? ==> r.0 == r.1 - length.value)
      && (end.None? && length.Some? ==> r.1 == r.0 + length.value)
      && (start.None? && (end.None? || length.None?) ==> r.0 == offset)
      && (end.None? && length.None? ==> r.1 == offset)
  {
    var default := if relative then 0 else offset;
    var s := if start.Some? then start.value else if end.None? || length.None? then default else end.value - length.value;
    var e := if end.Some? then end.value else if length.None? then default else s + length.value;
    if relative then (s + offset, e + offset) else (s, e)
  }

  /** `code.substring(start, end, length, relative)`: the text between the
      derived bounds, the end clipped at the text's length. Giving all three
      of start, end and length fails the assertion. */
  function Substring(c: Cursor, start: Option<int>, end: Option<int>, length: Option<int>, relative: bool)
    : (r: Result<PositionedString>)
    ensures r.Failure? <==> start.Some? && end.Some? && length.Some?
    ensures r.Failure? ==> r.error == Python("AssertionError")
    ensures var (s, e) := Bounds(c.offset, start, end, length, relative); var n := |c.text.text|;
      r.Success? && 0 <= s <= e ==> r.value.text == c.text.text[Min(s, n)..Min(e, n)]
    ensures r.Success? && Valid(c.text) ==> Valid(r.value)
  {
    if start.Some? && end.Some? && length.Some? then Failure(Python("AssertionError"))
    else
      var (s, e) := Bounds(c.offset, start, end, length, relative);
      Success(Slice(c.text, Some(s), Some(Min(e, |c.text.text|))))
  }

  /** `code[item]`: the character item places after the offset, with its
      coordinate. Python's negative indices count from the end; a position past
      the end gives the null character at the last character's coordinate,
      and only an empty text raises. */
  function CharAt(c: Cursor, item: int): (r: Result<PositionedString>)
    ensures var k := item + c.offset; var n := |c.text.text|;
      Valid(c.text) ==>
        (0 <= k < n ==> r == Success(PositionedString([c.text.text[k]], [c.text.coordinates[k]])))
        && (-n <= k < 0 ==> r == Success(PositionedString([c.text.text[k + n]], [c.text.coordinates[k + n]])))
        && ((k >= n || k < -n) && n > 0 ==> r == Success(PositionedString("\0", [c.text.coordinates[n - 1]])))
        && (n == 0 ==> r == Failure(Python("IndexError")))
    ensures r.Success? ==> |r.value.text| == 1
  {
    match At(c.text, item + c.offset)
    case Success(p) => Success(p)
    case Failure(_) =>
      match At(c.text, -1)
      case Success(last) => Success(PositionedString("\0", last.coordinates))
      case Failure(e) => Failure(e)
  }

  /** `len(code)`: the characters from the offset on, never negative. */
  function Remaining(c: Cursor): (r: nat)
    ensures c.offset <= |c.text.text| ==> r == |c.text.text| - c.offset
    ensures c.offset >= |c.text.text| ==> r == 0
  {
    Max(0, |c.text.text| - c.offset)
  }

  predicate HasMore(c: Cursor) {
    c.offset < |c.text.text|
  }

  // ---------------------------------------------------------------------
  // Moving

  /** `advance(amount)`: the next `amount` characters, fewer at the end, and
      the offset moved past exactly those. */
  function Advanced(c: Cursor, amount: int): (PositionedString, Cursor) {
    var temp := Substring(c, None, None, Some(amount), true).value;
    (temp, c.(offset := c.offset + |temp.text|))
  }

  /** On a sound cursor with a non-negative amount, `advance` returns the text
      from the offset up to `amount` characters on, never passes the end, and
      the offset moves by the returned length, which `len` loses. */
  lemma AdvanceMeaning(c: Cursor, amount: int)
    requires Sound(c) && 0 <= amount
    ensures var (temp, d) := Advanced(c, amount); var n := |c.text.text|;
      temp.text == c.text.text[Min(c.offset, n)..Min(c.offset + amount, n)]
      && Valid(temp)
      && |temp.text| <= amount
      && d.text == c.text
      && d.offset == c.offset + |temp.text|
      && (c.offset <= n ==> d.offset <= n)
      && Remaining(d) == Remaining(c) - |temp.text|
      && Sound(d)
  {
  }

  /** `text[i:i+len(m)] == m`. */
  predicate OccursAt(t: string, m: string, i: int) {
    Sliced(t, Some(i), Some(i + |m|)) == m
  }

  /** For positions inside the text, an occurrence is an ordinary window. */
  lemma OccursAtWindow(t: string, m: string, i: int)
    requires 0 <= i <= |t|
    ensures OccursAt(t, m, i) <==> i + |m| <= |t| && t[i..i + |m|] == m
  {
    if i + |m| > |t| {
      assert |Sliced(t, Some(i), Some(i + |m|))| < |m|;
    }
  }

  /** The first position from `from` on, before the text's end, where m
      occurs: the position the `for` loop of `advance_past` stops at. */
  function FirstOccurrence(t: string, m: string, from: int): (r: Option<int>)
    decreases |t| - from
    ensures r.Some? ==> from <= r.value < |t| && OccursAt(t, m, r.value)
  {
    if from >= |t| then None
    else if OccursAt(t, m, from) then Some(from)
    else FirstOccurrence(t, m, from + 1)
  }

  /** m occurs nowhere from `from` up to (not including) `end`. */
  predicate Absent(t: string, m: string, from: int, end: int) {
    forall i :: from <= i < end ==> !OccursAt(t, m, i)
  }

  lemma AbsentExtended(t: string, m: string, from: int, end: int)
    requires !OccursAt(t, m, from) && Absent(t, m, from + 1, end)
    ensures Absent(t, m, from, end)
  {
  }

  /** The occurrence found is the first: m occurs nowhere between `from` and
      it, nor anywhere from `from` to the end when none is found. */
  lemma {:induction false} FirstOccurrenceIsFirst(t: string, m: string, from: int)
    ensures FirstOccurrence(t, m, from).Some? ==> Absent(t, m, from, FirstOccurrence(t, m, from).value)
    ensures FirstOccurrence(t, m, from).None? ==> Absent(t, m, from, |t|)
    decreases |t| - from
  {
    if from >= |t| {
      assert FirstOccurrence(t, m, from) == None;
    } else if OccursAt(t, m, from) {
      assert FirstOccurrence(t, m, from) == Some(from);
    } else {
      FirstOccurrenceIsFirst(t, m, from + 1);
      var r := FirstOccurrence(t, m, from + 1);
      assert FirstOccurrence(t, m, from) == r;
      AbsentExtended(t, m, from, if r.Some? then r.value else |t|);
    }
  }

  /** `advance_past(m)`: the text up to and including the first occurrence
      of m at or after the offset, with the offset moved just past it; None
      and no move when m does not occur. */
  function AdvancedPast(c: Cursor, m: string): (Option<PositionedString>, Cursor) {
    match FirstOccurrence(c.text.text, m, c.offset)
    case None => (None, c)
    case Some(i) => (Some(Slice(c.text, Some(c.offset), Some(i + |m|))), c.(offset := i + |m|))
  }

  lemma AdvancedPastAt(c: Cursor, m: string, i: int)
    requires FirstOccurrence(c.text.text, m, c.offset) == FirstOccurrence(c.text.text, m, i)
    requires i < |c.text.text| && OccursAt(c.text.text, m, i)
    ensures AdvancedPast(c, m) == (Some(Slice(c.text, Some(c.offset), Some(i + |m|))), c.(offset := i + |m|))
  {
  }

  lemma AdvancedPastNone(c: Cursor, m: string, i: int)
    requires FirstOccurrence(c.text.text, m, c.offset) == FirstOccurrence(c.text.text, m, i)
    requires i >= |c.text.text|
    ensures AdvancedPast(c, m) == (None, c)
  {
  }

  /** On a sound cursor, `advance_past` stops at the first occurrence of m
      at or after the offset and returns the text from the offset through it;
      when m does not occur from the offset on, nothing moves. */
  lemma AdvancePastMeaning(c: Cursor, m: string)
    requires Sound(c)
    ensures var (r, d) := AdvancedPast(c, m); var t := c.text.text;
      (r.None? ==> d == c && forall i :: c.offset <= i < |t| ==> !OccursAt(t, m, i))
      && (r.Some? ==>
            var i := d.offset - |m|;
            c.offset <= i < |t| && OccursAt(t, m, i) && i + |m| <= |t|
            && (forall j :: c.offset <= j < i ==> !OccursAt(t, m, j))
            && r.value.text == t[c.offset..i + |m|]
            && Valid(r.value) && d.text == c.text && Sound(d))
  {
    var found := FirstOccurrence(c.text.text, m, c.offset);
    FirstOccurrenceIsFirst(c.text.text, m, c.offset);
    if found.Some? {
      OccursAtWindow(c.text.text, m, found.value);
    }
  }

  /** The test `match` applies to candidate m: the next len(m) characters,
      fewer at the end, are m. */
  predicate Accepts(c: Cursor, m: string) {
    Sliced(c.text.text, Some(c.offset), Some(Min(c.offset + |m|, |c.text.text|))) == m
  }

  /** Accepts is the comparison `match` makes with what `substring` reads. */
  lemma AcceptsIsSubstringTest(c: Cursor, m: string)
    ensures Accepts(c, m) <==> Substring(c, None, None, Some(|m|), true).value.text == m
  {
    assert Bounds(c.offset, None, None, Some(|m|), true) == (c.offset, c.offset + |m|);
  }

  /** The index of the first candidate `match` accepts, looking from
      candidate `from` on. */
  function FirstMatch(c: Cursor, ms: seq<string>, from: nat): (r: Option<nat>)
    requires from <= |ms|
    decreases |ms| - from
    ensures r.Some? ==> from <= r.value < |ms| && Accepts(c, ms[r.value])
  {
    if from == |ms| then None
    else if Accepts(c, ms[from]) then Some(from)
    else FirstMatch(c, ms, from + 1)
  }

  /** No candidate before the one found is accepted, nor any from `from` on
      when none is found. */
  lemma {:induction false} FirstMatchIsFirst(c: Cursor, ms: seq<string>, from: nat)
    requires from <= |ms|
    ensures FirstMatch(c, ms, from).Some? ==>
      forall k :: from <= k < FirstMatch(c, ms, from).value ==> !Accepts(c, ms[k])
    ensures FirstMatch(c, ms, from).None? ==> forall k :: from <= k < |ms| ==> !Accepts(c, ms[k])
    decreases |ms| - from
  {
    if from == |ms| {
      assert FirstMatch(c, ms, from) == None;
    } else if Accepts(c, ms[from]) {
      assert FirstMatch(c, ms, from) == Some(from);
    } else {
      FirstMatchIsFirst(c, ms, from + 1);
      assert FirstMatch(c, ms, from) == FirstMatch(c, ms, from + 1);
    }
  }

  /** `match(*ms)`: the first candidate that follows the offset is passed
      over and returned, as the text `substring(end=0, length=len(m),
      relative=True)` reads back behind the new offset. */
  function Matched(c: Cursor, ms: seq<string>): (Option<PositionedString>, Cursor) {
    match FirstMatch(c, ms, 0)
    case None => (None, c)
    case Some(k) => PassedOver(c, ms[k])
  }

  /** The offset moved past m, and m read back behind it. */
  function PassedOver(c: Cursor, m: string): (Option<PositionedString>, Cursor) {
    var d := c.(offset := c.offset + |m|);
    (Some(Substring(d, None, Some(0), Some(|m|), true).value), d)
  }

  lemma MatchedAt(c: Cursor, ms: seq<string>, k: nat)
    requires k < |ms| && FirstMatch(c, ms, 0) == FirstMatch(c, ms, k) && Accepts(c, ms[k])
    ensures Matched(c, ms) == PassedOver(c, ms[k])
  {
    assert FirstMatch(c, ms, k) == Some(k);
  }

  lemma MatchedNone(c: Cursor, ms: seq<string>)
    requires FirstMatch(c, ms, 0) == FirstMatch(c, ms, |ms|)
    ensures Matched(c, ms) == (None, c)
  {
    assert FirstMatch(c, ms, |ms|) == None;
  }

  /** The text at the cursor goes on with m. */
  predicate Continues(c: Cursor, m: string) {
    0 <= c.offset && c.offset + |m| <= |c.text.text| && c.text.text[c.offset..c.offset + |m|] == m
  }

  /** The test `match` applies to a candidate is whether the text goes on with it. */
  lemma CandidateTest(c: Cursor, m: string)
    requires Sound(c) && c.offset <= |c.text.text|
    ensures Accepts(c, m) <==> Continues(c, m)
  {
    var n := |c.text.text|;
    var w := Substring(c, None, None, Some(|m|), true).value.text;
    assert w == c.text.text[Min(c.offset, n)..Min(c.offset + |m|, n)];
    if c.offset + |m| > n {
      assert |w| < |m|;
    }
  }

  /** The candidate `match` picks is the first one the text goes on with. */
  lemma FirstMatchMeaning(c: Cursor, ms: seq<string>)
    requires Sound(c) && c.offset <= |c.text.text|
    ensures var first := FirstMatch(c, ms, 0);
      (first.None? <==> forall k :: 0 <= k < |ms| ==> !Continues(c, ms[k]))
      && (first.Some? ==>
            Continues(c, ms[first.value]) && forall j :: 0 <= j < first.value ==> !Continues(c, ms[j]))
  {
    FirstMatchIsFirst(c, ms, 0);
    forall k | 0 <= k < |ms| {
      CandidateTest(c, ms[k]);
    }
  }

  /** On a sound cursor within its text, `match` passes over the first
      candidate the text goes on with and returns it with the coordinates of
      those characters; when the text goes on with none nothing moves. */
  lemma MatchMeaning(c: Cursor, ms: seq<string>)
    requires Sound(c) && c.offset <= |c.text.text|
    ensures Matched(c, ms).0.None? <==> forall k :: 0 <= k < |ms| ==> !Continues(c, ms[k])
    ensures Matched(c, ms).0.None? ==> Matched(c, ms).1 == c
    ensures forall k :: 0 <= k < |ms| && FirstMatch(c, ms, 0) == Some(k) ==>
      Continues(c, ms[k])
      && (forall j :: 0 <= j < k ==> !Continues(c, ms[j]))
      && Matched(c, ms)
         == (Some(PositionedString(ms[k], c.text.coordinates[c.offset..c.offset + |ms[k]|])),
             c.(offset := c.offset + |ms[k]|))
  {
    FirstMatchMeaning(c, ms);
    var first := FirstMatch(c, ms, 0);
    if first.Some? {
      MatchReadsBack(c, ms[first.value]);
    }
  }

  /** After passing over m, `substring(end=0, length=len(m), relative=True)`
      reads m back, with its coordinates. */
  lemma MatchReadsBack(c: Cursor, m: string)
    requires Sound(c) && Continues(c, m)
    ensures PassedOver(c, m)
      == (Some(PositionedString(m, c.text.coordinates[c.offset..c.offset + |m|])), c.(offset := c.offset + |m|))
  {
    assert Bounds(c.offset + |m|, None, Some(0), Some(|m|), true) == (c.offset, c.offset + |m|);
  }

  /** `match_range(lower, upper)`: when the character at the offset lies in
      lower..upper the offset moves one on and the character is read back
      from the text; a null character read past the end can pass the test and
      then raise IndexError with the offset already moved. */
  function MatchedRange(c: Cursor, lower: char, upper: char): (r: Moved<Option<PositionedString>>) {
    match CharAt(c, 0)
    case Failure(e) => Moved(Failure(e), c)
    case Success(ch) =>
      // `lower <= ch <= upper` compares one-character strings, that is, the characters
      if lower <= ch.text[0] <= upper then
        var d := c.(offset := c.offset + 1);
        match At(c.text, d.offset - 1)
        case Success(p) => Moved(Success(Some(p)), d)
        case Failure(e) => Moved(Failure(e), d)
      else Moved(Success(None), c)
  }

  /** Inside the text, `match_range` moves exactly one character on if and
      only if that character lies in the range, and returns it. */
  lemma MatchRangeMeaning(c: Cursor, lower: char, upper: char)
    requires Sound(c) && c.offset < |c.text.text|
    ensures var r := MatchedRange(c, lower, upper); var ch := c.text.text[c.offset];
      r.result.Success?
      && (r.result.value.Some? <==> lower <= ch <= upper)
      && (r.result.value.Some? ==>
            r.result.value.value == PositionedString([ch], [c.text.coordinates[c.offset]])
            && r.after == c.(offset := c.offset + 1))
      && (r.result.value.None? ==> r.after == c)
  {
  }

  /** `skip_whitespace()`: `advance()` while the character at the offset is
      whitespace; reading from an empty text raises. */
  function SkippedWhitespace(c: Cursor): (r: Moved<()>)
    requires Sound(c)
    decreases Remaining(c)
  {
    match CharAt(c, 0)
    case Failure(e) => Moved(Failure(e), c)
    case Success(ch) =>
      if Blank(ch) then SpaceIsInside(c); SkippedWhitespace(Advanced(c, 1).1) else Moved(Success(()), c)
  }

  /** Whitespace is read only inside the text: past the end the null
      character is read, which is not whitespace. Advancing over it moves
      the offset by one. */
  lemma SpaceIsInside(c: Cursor)
    requires Sound(c) && CharAt(c, 0).Success? && Blank(CharAt(c, 0).value)
    ensures c.offset < |c.text.text| && IsSpace(c.text.text[c.offset])
    ensures Advanced(c, 1).1 == c.(offset := c.offset + 1) && Sound(Advanced(c, 1).1)
    ensures Remaining(Advanced(c, 1).1) < Remaining(c)
  {
    assert IsSpace(CharAt(c, 0).value.text[0]);
    AdvanceMeaning(c, 1);
  }

  /** On a sound cursor, `skip_whitespace` raises IndexError exactly for an
      empty text; otherwise it moves the offset over whitespace only and
      stops at the first other character, or at the end. */
  lemma {:induction false} SkipWhitespaceMeaning(c: Cursor)
    requires Sound(c)
    ensures var r := SkippedWhitespace(c); var t := c.text.text;
      (r.result.Failure? <==> |t| == 0)
      && (|t| == 0 ==> r == Moved(Failure(Python("IndexError")), c))
      && r.after.text == c.text && c.offset <= r.after.offset
      && (c.offset < |t| ==> r.after.offset <= |t|)
      && (c.offset >= |t| ==> r.after.offset == c.offset)
      && (forall k :: c.offset <= k < r.after.offset ==> IsSpace(t[k]))
      && (r.after.offset < |t| ==> !IsSpace(t[r.after.offset]))
    decreases Remaining(c)
  {
    var ch := CharAt(c, 0);
    if ch.Success? && Blank(ch.value) {
      SpaceIsInside(c);
      SkipWhitespaceMeaning(Advanced(c, 1).1);
    } else if ch.Success? && c.offset < |c.text.text| {
      assert ch.value.text == [c.text.text[c.offset]];
    }
  }

  /** A Code object: the text it reads and the offset it has reached. */
  class Code {
    var text: PositionedString
    var offset: int

    function State(): Cursor
      reads this
    {
      Cursor(text, offset)
    }

    /** `Code(text)`. A str is laid out by `create_string`, line breaks
        removed; a PositionedString is used as it is. */
    constructor (t: Text)
      ensures State() == Cursor(Opened(t), 0)
    {
      var source: PositionedString;
      match t {
        case Plain(s) =>
          source := CreateString(s, 0);
        case Positioned(p) =>
          source := p;
      }
      text := source;
      offset := 0;
    }

    /** `advance(amount)`. */
    method Advance(amount: int) returns (r: PositionedString)
      modifies this
      ensures (r, State()) == Advanced(old(State()), amount)
    {
      var temp := Substring(State(), None, None, Some(amount), true);
      r := temp.value;
      offset := offset + |r.text|;
    }

    /** `advance_past(m)`: scans from the offset for the first occurrence. */
    method AdvancePast(m: string) returns (r: Option<PositionedString>)
      modifies this
      ensures (r, State()) == AdvancedPast(old(State()), m)
    {
      ghost var c := State();
      var i := offset;
      while i < |text.text|
        invariant i >= c.offset
        invariant FirstOccurrence(c.text.text, m, c.offset) == FirstOccurrence(c.text.text, m, i)
        invariant State() == c
        decreases |text.text| - i
      {
        if Sliced(text.text, Some(i), Some(i + |m|)) == m {
          AdvancedPastAt(c, m, i);
          r := Some(Slice(text, Some(offset), Some(i + |m|)));
          offset := i + |m|;
          return;
        }
        i := i + 1;
      }
      AdvancedPastNone(c, m, i);
      r := None;
    }

    /** `match(*ms)`: tries the candidates in order. */
    method Match(ms: seq<string>) returns (r: Option<PositionedString>)
      modifies this
      ensures (r, State()) == Matched(old(State()), ms)
    {
      ghost var c := State();
      for k := 0 to |ms|
        invariant FirstMatch(c, ms, 0) == FirstMatch(c, ms, k)
        invariant State() == c
      {
        var sub := Substring(State(), None, None, Some(|ms[k]|), true);
        AcceptsIsSubstringTest(c, ms[k]);
        if sub.value.text == ms[k] {
          MatchedAt(c, ms, k);
          offset := offset + |ms[k]|;
          assert State() == PassedOver(c, ms[k]).1;
          r := Some(Substring(State(), None, Some(0), Some(|ms[k]|), true).value);
          assert r == PassedOver(c, ms[k]).0;
          return;
        }
      }
      MatchedNone(c, ms);
      r := None;
    }

    /** `match_range(lower, upper)`. */
    method MatchRange(lower: char, upper: char) returns (r: Result<Option<PositionedString>>)
      modifies this
      ensures Moved(r, State()) == MatchedRange(old(State()), lower, upper)
    {
      var ch := CharAt(State(), 0);
      if ch.Failure? {
        return Failure(ch.error);
      }
      if lower <= ch.value.text[0] <= upper {
        offset := offset + 1;
        var p := At(text, offset - 1);
        if p.Failure? {
          return Failure(p.error);
        }
        return Success(Some(p.value));
      }
      r := Success(None);
    }

    /** `skip_whitespace()`. */
    method SkipWhitespace() returns (r: Result<()>)
      requires Sound(State())
      modifies this
      ensures Moved(r, State()) == SkippedWhitespace(old(State()))
    {
      while true
        invariant Sound(State()) && SkippedWhitespace(State()) == SkippedWhitespace(old(State()))
        decreases Remaining(State())
      {
        var ch := CharAt(State(), 0);
        if ch.Failure? {
          return Failure(ch.error);
        }
        if !Blank(ch.value) {
          return Success(());
        }
        SpaceIsInside(State());
        var _ := Advance(1);
      }
    }
  }

  /** The text `Code(t)` reads. */
  function Opened(t: Text): (r: PositionedString)
    ensures t.Plain? ==> PositionedStrings.Valid(r)
  {
    match t
    case Plain(s) => LayoutShape(SplitLines(s), 0); Layout(SplitLines(s), 0)
    case Positioned(p) => p
  }

  /** `Code(t)` as written passes `keep_ends=True` to `create_string`, which
      has no such parameter, so every str argument raises TypeError. */
  function OpenedAsWritten(t: Text): (r: Result<PositionedString>)
    ensures r.Failure? <==> t.Plain?
    ensures r.Success? ==> r.value == Opened(t)
  {
    match t
    case Plain(_) => Failure(Python("TypeError"))
    case Positioned(p) => Success(p)
  }

  /** The text of a Code built from a str: its characters without line
      breaks, each at its (line, column), in reading order. */
  lemma OpenedMeaning(s: string)
    ensures var p := Opened(Plain(s));
      Valid(p) && p.text == RemoveBreaks(s)
      && forall k1, k2 :: 0 <= k1 < k2 < |p.coordinates| ==> Before(p.coordinates[k1], p.coordinates[k2])
    ensures OpenedAsWritten(Plain(s)).Failure?
  {
    CreateStringMeaning(s, 0);
  }

  // ---------------------------------------------------------------------
  // LinedCode

  /** The state of a LinedCode: the cursor over the current line and the
      text of the lines after it. */
  datatype Lined = Lined(cursor: Cursor, remaining: PositionedString)

  /** The end of the run of coordinates on `line` that starts at `from`. */
  function LineRun(cs: seq<Coordinate>, line: int, from: nat): (r: nat)
    requires from <= |cs|
    decreases |cs| - from
    ensures from <= r <= |cs|
    ensures forall i :: from <= i < r ==> cs[i].line == line
    ensures r < |cs| ==> cs[r].line != line
  {
    if from == |cs| || cs[from].line != line then from else LineRun(cs, line, from + 1)
  }

  /** `skip_line()`: the next line of `remaining` becomes the current text
      with the offset at 0, or, when nothing remains, the offset moves to the
      end of the current line and the result is false. */
  function SkippedLine(l: Lined): (bool, Lined)
    requires Valid(l.remaining)
  {
    var rem := l.remaining;
    if |rem.text| == 0 then (false, l.(cursor := l.cursor.(offset := |l.cursor.text.text|)))
    else
      var first := rem.coordinates[0].line;
      if first == rem.coordinates[|rem.coordinates| - 1].line then
        (true, Lined(Cursor(rem, 0), EmptyString()))
      else
        var i := LineRun(rem.coordinates, first, 0);
        (true, Lined(Cursor(Slice(rem, None, Some(i)), 0), Slice(rem, Some(i), None)))
  }

  /** Line numbers never go down along the coordinates, as in every string
      `create_string` makes. */
  predicate LinesAscend(cs: seq<Coordinate>) {
    forall i, j :: 0 <= i < j < |cs| ==> cs[i].line <= cs[j].line
  }

  /** A string spanning several lines splits after the run on its first line. */
  lemma SplitFirstLine(rem: PositionedString)
    requires Valid(rem) && |rem.text| > 0
    requires rem.coordinates[0].line != rem.coordinates[|rem.coordinates| - 1].line
    ensures var i := LineRun(rem.coordinates, rem.coordinates[0].line, 0);
      0 < i < |rem.text|
      && Concat(Slice(rem, None, Some(i)), Slice(rem, Some(i), None)) == rem
  {
    var i := LineRun(rem.coordinates, rem.coordinates[0].line, 0);
    assert rem.text[..i] + rem.text[i..] == rem.text;
    assert rem.coordinates[..i] + rem.coordinates[i..] == rem.coordinates;
  }

  /** `cur` and `rest` split `rem` after the line of its first character: both
      aligned, `cur` non-empty and, when line numbers ascend, all on that line,
      and `rest` starting on another line. */
  predicate SplitsOffFirstLine(rem: PositionedString, cur: PositionedString, rest: PositionedString)
    requires |rem.text| > 0 && Valid(rem)
  {
    Valid(cur) && Valid(rest)
    && Concat(cur, rest) == rem
    && |cur.text| > 0
    && (LinesAscend(rem.coordinates) ==>
          forall i :: 0 <= i < |cur.coordinates| ==> cur.coordinates[i].line == rem.coordinates[0].line)
    && (|rest.text| > 0 ==> rest.coordinates[0].line != rem.coordinates[0].line)
  }

  /** A text all on the line of its first character, when lines ascend, is
      split off whole. */
  lemma SplitsOffWhole(rem: PositionedString)
    requires Valid(rem) && |rem.text| > 0
    requires rem.coordinates[0].line == rem.coordinates[|rem.coordinates| - 1].line
    ensures SplitsOffFirstLine(rem, rem, EmptyString())
  {
    assert Concat(rem, EmptyString()) == rem;
    if LinesAscend(rem.coordinates) {
      forall i | 0 <= i < |rem.coordinates| ensures rem.coordinates[i].line == rem.coordinates[0].line {
        if 0 < i < |rem.coordinates| - 1 {
          assert rem.coordinates[0].line <= rem.coordinates[i].line <= rem.coordinates[|rem.coordinates| - 1].line;
        }
      }
    }
  }

  /** A text that ends on another line is split after the run on its first line. */
  lemma SplitsOffRun(rem: PositionedString)
    requires Valid(rem) && |rem.text| > 0
    requires rem.coordinates[0].line != rem.coordinates[|rem.coordinates| - 1].line
    ensures var i := LineRun(rem.coordinates, rem.coordinates[0].line, 0);
      0 < i < |rem.text| && SplitsOffFirstLine(rem, Slice(rem, None, Some(i)), Slice(rem, Some(i), None))
  {
    SplitFirstLine(rem);
    var i := LineRun(rem.coordinates, rem.coordinates[0].line, 0);
    var cur := Slice(rem, None, Some(i));
    assert cur.coordinates == rem.coordinates[..i];
    assert Slice(rem, Some(i), None).coordinates == rem.coordinates[i..];
  }

  /** The meaning of `skip_line`: when text remains, the offset goes to 0 and
      the remaining text is split after the line of its first character into
      the new current line and the new remaining text; otherwise only the
      offset moves, to the end of the current line. */
  lemma SkipLineMeaning(l: Lined)
    requires Valid(l.remaining)
    ensures SkippedLine(l).0 <==> |l.remaining.text| > 0
    ensures !SkippedLine(l).0 ==> SkippedLine(l).1 == l.(cursor := l.cursor.(offset := |l.cursor.text.text|))
    ensures SkippedLine(l).0 ==>
      SkippedLine(l).1.cursor.offset == 0
      && SplitsOffFirstLine(l.remaining, SkippedLine(l).1.cursor.text, SkippedLine(l).1.remaining)
  {
    var rem := l.remaining;
    if |rem.text| > 0 {
      if rem.coordinates[0].line != rem.coordinates[|rem.coordinates| - 1].line {
        SplitsOffRun(rem);
      } else {
        SplitsOffWhole(rem);
      }
    }
  }

  lemma SkippedLineRun(l: Lined, i: nat)
    requires Valid(l.remaining) && |l.remaining.text| > 0
    requires l.remaining.coordinates[0].line != l.remaining.coordinates[|l.remaining.coordinates| - 1].line
    requires i == LineRun(l.remaining.coordinates, l.remaining.coordinates[0].line, 0)
    ensures SkippedLine(l)
      == (true, Lined(Cursor(Slice(l.remaining, None, Some(i)), 0), Slice(l.remaining, Some(i), None)))
  {
  }

  /** `advance_line()`: moves on only once the current line is used up. */
  function AdvancedLine(l: Lined): (bool, Lined)
    requires Valid(l.remaining)
  {
    if HasMore(l.cursor) then (false, l) else SkippedLine(l)
  }

  /** `LinedCode.has_more()`: characters left on this line or in the
      remaining text. */
  predicate LinedHasMore(l: Lined) {
    HasMore(l.cursor) || |l.remaining.text| > 0
  }

  /** `len(lined_code)`: the remaining text and what is left of this line. */
  function LinedLength(l: Lined): int {
    |l.remaining.text| + |l.cursor.text.text| - l.cursor.offset
  }

  /** `has_more` and `len` agree: characters are left exactly when the
      length is positive, as long as the offset has not passed the line. */
  lemma LinedHasMoreLength(l: Lined)
    requires 0 <= l.cursor.offset <= |l.cursor.text.text|
    ensures LinedHasMore(l) <==> LinedLength(l) > 0
    ensures HasMore(l.cursor) <==> Remaining(l.cursor) > 0
  {
  }

  /** `advance_line` refuses while the line has characters left, and
      otherwise is `skip_line`; it never loses a character of the remaining
      text. */
  lemma AdvanceLineMeaning(l: Lined)
    requires Valid(l.remaining)
    ensures var (moved, m) := AdvancedLine(l);
      (HasMore(l.cursor) ==> !moved && m == l)
      && (!HasMore(l.cursor) ==> (moved <==> |l.remaining.text| > 0))
      && (moved ==> Concat(m.cursor.text, m.remaining) == l.remaining && m.cursor.offset == 0)
  {
    SkipLineMeaning(l);
  }

  /** The state `LinedCode(t)` leaves as written: the constructor calls
      `advance_line`, which does nothing while the whole text is still unread,
      so the whole text is the current line and is also still remaining. */
  function OpenedLinesAsWritten(p: PositionedString): Lined
    requires Valid(p)
  {
    AdvancedLine(Lined(Cursor(p, 0), p)).1
  }

  /** The state `LinedCode(t)` is meant to leave, the one its tests expect:
      the first line current and the rest remaining. */
  function OpenedLines(p: PositionedString): Lined
    requires Valid(p)
  {
    SkippedLine(Lined(Cursor(p, 0), p)).1
  }

  /** On any non-empty text the constructor as written reads every character
      twice: once on the current line and again from the remaining text. */
  lemma OpenedLinesAsWrittenRepeats(p: PositionedString)
    requires Valid(p) && |p.text| > 0
    ensures OpenedLinesAsWritten(p).cursor.text == p
    ensures OpenedLinesAsWritten(p).remaining == p
    ensures LinedLength(OpenedLinesAsWritten(p)) == 2 * |p.text|
  {
  }

  /** The intended constructor starts on the first line of its text, and the
      current line and the remaining text together are the text. */
  lemma OpenedLinesMeaning(p: PositionedString)
    requires Valid(p) && LinesAscend(p.coordinates) && |p.text| > 0
    ensures var l := OpenedLines(p);
      Concat(l.cursor.text, l.remaining) == p && l.cursor.offset == 0
      && LinedLength(l) == |p.text|
      && (forall i :: 0 <= i < |l.cursor.text.coordinates| ==> l.cursor.text.coordinates[i].line == p.coordinates[0].line)
      && (|l.remaining.text| > 0 ==> l.remaining.coordinates[0].line != p.coordinates[0].line)
  {
    var start := Lined(Cursor(p, 0), p);
    SkipLineMeaning(start);
    var l := SkippedLine(start).1;
    assert |Concat(l.cursor.text, l.remaining).text| == |p.text|;
  }

  /** A LinedCode object. The Code it extends is the `code` it holds: the
      Code methods move `code`, and `code.text` is the current line. */
  class LinedCode {
    const code: Code
    var remaining: PositionedString

    function State(): Lined
      reads this, code
    {
      Lined(code.State(), remaining)
    }

    predicate Valid()
      reads this, code
    {
      PositionedStrings.Valid(code.text) && PositionedStrings.Valid(remaining)
    }

    /** `LinedCode(t)`, with the first line split off as intended. */
    constructor (t: Text)
      requires t.Positioned? ==> PositionedStrings.Valid(t.p)
      ensures fresh(code)
      ensures Valid()
      ensures State() == OpenedLines(Opened(t))
    {
      if t.Plain? {
        CreateStringMeaning(t.s, 0);
      }
      code := new Code(t);
      remaining := Opened(t);
      new;
      var unused := SkipLine();
    }

    /** `skip_line()`: scans `remaining` for the first character on another line. */
    method SkipLine() returns (moved: bool)
      requires Valid()
      modifies this, code
      ensures Valid()
      ensures (moved, State()) == SkippedLine(old(State()))
    {
      if |remaining.text| == 0 {
        code.offset := |code.text.text|;
        return false;
      }
      code.offset := 0;
      var first := remaining.coordinates[0].line;
      if first == remaining.coordinates[|remaining.coordinates| - 1].line {
        code.text := remaining;
        remaining := EmptyString();
        return true;
      }
      var rem := remaining;
      var i := 0;
      while rem.coordinates[i].line == first
        invariant 0 <= i < |rem.coordinates|
        invariant LineRun(rem.coordinates, first, 0) == LineRun(rem.coordinates, first, i)
        decreases |rem.coordinates| - i
      {
        i := i + 1;
      }
      assert LineRun(rem.coordinates, first, i) == i;
      SkippedLineRun(old(State()), i);
      code.text := Slice(rem, None, Some(i));
      remaining := Slice(rem, Some(i), None);
      moved := true;
    }

    /** `advance_line()`. */
    method AdvanceLine() returns (moved: bool)
      requires Valid()
      modifies this, code
      ensures Valid()
      ensures (moved, State()) == AdvancedLine(old(State()))
    {
      if code.offset < |code.text.text| {
        return false;
      }
      moved := SkipLine();
    }
  }
}
