/**
 * The Code cursor of the older all-in-one text module. A Code holds a
 * PositionedString and an offset; the offset only ever moves forward, but
 * `advance` moves it by the full amount asked for, even past the end,
 * where reading gives the null character. Building a Code from a str lays
 * the text out without its line breaks and then puts one '\n' back for
 * every line-number step between neighbouring characters.
 *
 * The reading operations are functions of the `Cur` value; the operations
 * that move the cursor or edit its string are methods of the class, each
 * proved to leave the state a function of the old state describes.
 */
module CStringCode {
  import opened Wrappers
  import PositionedStrings
  import TextCode
  import opened CStringText

  /** What a Code is built from: a str, or a PositionedString used as it is. */
  datatype Input = FromStr(s: string) | FromString(p: LString)

  /** The state of a Code: its string and its offset. */
  datatype Cur = Cur(source: LString, offset: int)

  /** What a step that may raise returns, with the state it leaves. */
  datatype Moved<T> = Moved(result: Result<T>, after: Cur)

  predicate Sound(c: Cur) {
    Valid(c.source) && 0 <= c.offset
  }

  // ---------------------------------------------------------------------
  // Reading

  /** `substring_length(length)`: from the offset up to `length` characters
      on, clipped at the end of the string. */
  function SubstringLength(c: Cur, length: int): (r: LString)
    ensures Valid(c.source) ==> Valid(r)
  {
    Slice(c.source, Some(c.offset), Some(Min(c.offset + length, |c.source.text|)))
  }

  /** `substring_absolute(start, end)`: each missing bound is the offset. */
  function SubstringAbsolute(c: Cur, start: Option<int>, end: Option<int>): (r: LString)
    ensures Valid(c.source) ==> Valid(r)
  {
    var s := if start.Some? then start.value else c.offset;
    var e := if end.Some? then end.value else c.offset;
    Slice(c.source, Some(s), Some(Min(e, |c.source.text|)))
  }

  /** `substring_relative(start, end)`: both bounds relative to the offset. */
  function SubstringRelative(c: Cur, start: int, end: int): (r: LString)
    ensures Valid(c.source) ==> Valid(r)
  {
    Slice(c.source, Some(start + c.offset), Some(Min(end + c.offset, |c.source.text|)))
  }

  /** The three substring forms are one slice seen three ways: a length is a
      relative end, relative bounds are absolute ones moved by the offset,
      and with no bounds at all the substring is empty. */
  lemma SubstringForms(c: Cur, start: int, end: int, length: int)
    ensures SubstringLength(c, length) == SubstringRelative(c, 0, length)
    ensures SubstringRelative(c, start, end) == SubstringAbsolute(c, Some(start + c.offset), Some(end + c.offset))
    ensures SubstringAbsolute(c, None, None).text == []
  {
    LengthIsRelativeEnd(c, length);
    RelativeIsAbsolute(c, start, end);
    NoBoundsIsEmpty(c);
  }

  lemma LengthIsRelativeEnd(c: Cur, length: int)
    ensures SubstringLength(c, length) == SubstringRelative(c, 0, length)
  {
    assert Min(length + c.offset, |c.source.text|) == Min(c.offset + length, |c.source.text|);
  }

  lemma RelativeIsAbsolute(c: Cur, start: int, end: int)
    ensures SubstringRelative(c, start, end) == SubstringAbsolute(c, Some(start + c.offset), Some(end + c.offset))
  {
  }

  lemma NoBoundsIsEmpty(c: Cur)
    ensures SubstringAbsolute(c, None, None).text == []
  {
    var n := |c.source.text|;
    assert PositionedStrings.SliceBound(n, Some(Min(c.offset, n)), n) <= PositionedStrings.SliceBound(n, Some(c.offset), 0);
  }

  /** On a sound cursor, `substring_length` is the window from the offset of
      `length` characters, or of what is left when fewer remain. */
  lemma SubstringLengthMeaning(c: Cur, length: int)
    requires Sound(c) && 0 <= length
    ensures var n := |c.source.text|; var a := Min(c.offset, n); var b := Min(c.offset + length, n);
      SubstringLength(c, length) == LString(c.source.text[a..b], c.source.lines[a..b], c.source.positions[a..b])
      && |SubstringLength(c, length).text| == Min(length, Len(c))
  {
  }

  predicate HasMore(c: Cur) {
    c.offset < |c.source.text|
  }

  /** `len(code)`: what is left after the offset, never negative. */
  function Len(c: Cur): (r: nat)
    ensures c.offset <= |c.source.text| ==> r == |c.source.text| - c.offset
    ensures c.offset >= |c.source.text| ==> r == 0
  {
    Max(0, |c.source.text| - c.offset)
  }

  /** `code[item]`: the character `item` places after the offset; past the
      end, the null character with the last character's line and position,
      which an empty string does not have. */
  function CharAt(c: Cur, item: int): (r: Result<LString>)
    ensures r.Success? ==> |r.value.text| == 1 && Valid(r.value)
    ensures r.Success? && item >= Len(c) ==> r.value.text == "\0"
    ensures Sound(c) && 0 <= item < Len(c) ==>
      r == Success(LString([c.source.text[c.offset + item]], [c.source.lines[c.offset + item]],
                           [c.source.positions[c.offset + item]]))
    ensures Sound(c) && item >= Len(c) ==>
      var n := |c.source.text|;
      (n == 0 ==> r.Failure?)
      && (n > 0 ==> r == Success(LString("\0", [c.source.lines[n - 1]], [c.source.positions[n - 1]])))
  {
    if item < Len(c) then At(c.source, item + c.offset)
    else
      match At(c.source, -1)
      case Success(last) => Success(LString("\0", last.lines, last.positions))
      case Failure(e) => Failure(e)
  }

  // ---------------------------------------------------------------------
  // Moving

  /** `advance(amount)`: the next `amount` characters, fewer at the end;
      the offset moves by the whole amount. */
  function Advanced(c: Cur, amount: int): (LString, Cur) {
    (SubstringLength(c, amount), c.(offset := c.offset + amount))
  }

  /** `advance` returns what is left of the next `amount` characters but
      moves the offset by all of `amount`, so the offset can pass the end,
      where `len` stays at 0. */
  lemma AdvancePastTheEnd(c: Cur, amount: int)
    requires Sound(c) && 0 <= amount
    ensures var (r, d) := Advanced(c, amount);
      |r.text| == Min(amount, Len(c)) && Valid(r)
      && d.source == c.source && d.offset == c.offset + amount
      && Len(d) == Max(0, Len(c) - amount)
      && (amount > Len(c) ==> d.offset > |c.source.text| && Len(d) == 0)
  {
    SubstringLengthMeaning(c, amount);
  }

  /** `advancepast(m)`: the text through the first occurrence of m at or
      after the offset, the offset moved just past it; None and no move when
      there is none. */
  function AdvancedPast(c: Cur, m: string): (Option<LString>, Cur) {
    match TextCode.FirstOccurrence(c.source.text, m, c.offset)
    case None => (None, c)
    case Some(i) => (Some(Slice(c.source, Some(c.offset), Some(i + |m|))), c.(offset := i + |m|))
  }

  lemma AdvancedPastAt(c: Cur, m: string, i: int)
    requires TextCode.FirstOccurrence(c.source.text, m, c.offset) == TextCode.FirstOccurrence(c.source.text, m, i)
    requires i < |c.source.text| && TextCode.OccursAt(c.source.text, m, i)
    ensures AdvancedPast(c, m) == (Some(Slice(c.source, Some(c.offset), Some(i + |m|))), c.(offset := i + |m|))
  {
  }

  lemma AdvancedPastNone(c: Cur, m: string, i: int)
    requires TextCode.FirstOccurrence(c.source.text, m, c.offset) == TextCode.FirstOccurrence(c.source.text, m, i)
    requires i >= |c.source.text|
    ensures AdvancedPast(c, m) == (None, c)
  {
  }

  /** On a sound cursor, `advancepast` stops at the first occurrence of m from
      the offset on and returns the text from the offset through it; when
      there is none nothing moves. */
  lemma AdvancePastMeaning(c: Cur, m: string)
    requires Sound(c)
    ensures var (r, d) := AdvancedPast(c, m); var t := c.source.text;
      (r.None? ==> d == c && forall i :: c.offset <= i < |t| ==> !TextCode.OccursAt(t, m, i))
      && (r.Some? ==>
            var i := d.offset - |m|;
            c.offset <= i && i + |m| <= |t| && TextCode.OccursAt(t, m, i)
            && (forall j :: c.offset <= j < i ==> !TextCode.OccursAt(t, m, j))
            && r.value == LString(t[c.offset..i + |m|], c.source.lines[c.offset..i + |m|], c.source.positions[c.offset..i + |m|])
            && d.source == c.source)
  {
    var found := TextCode.FirstOccurrence(c.source.text, m, c.offset);
    TextCode.FirstOccurrenceIsFirst(c.source.text, m, c.offset);
    if found.Some? {
      TextCode.OccursAtWindow(c.source.text, m, found.value);
    }
  }

  /** The test `match(m)` makes: the next len(m) characters, fewer at the
      end, are m. */
  predicate Matches(c: Cur, m: string) {
    PositionedStrings.Sliced(c.source.text, Some(c.offset), Some(Min(c.offset + |m|, |c.source.text|))) == m
  }

  /** Matches is the comparison `match` makes with what `substring_length` reads. */
  lemma MatchesIsSubstringTest(c: Cur, m: string)
    ensures Matches(c, m) <==> SubstringLength(c, |m|).text == m
  {
  }

  /** The text at the cursor goes on with m. */
  predicate Continues(c: Cur, m: string) {
    0 <= c.offset && c.offset + |m| <= |c.source.text| && c.source.text[c.offset..c.offset + |m|] == m
  }

  lemma MatchesIffContinues(c: Cur, m: string)
    requires Sound(c) && c.offset <= |c.source.text|
    ensures Matches(c, m) <==> Continues(c, m)
  {
    SubstringLengthMeaning(c, |m|);
  }

  /** `match(m)`: True and the offset past m when the text goes on with m,
      False and no move otherwise. */
  function Matched(c: Cur, m: string): (r: (bool, Cur))
    ensures r.0 == Matches(c, m)
    ensures r.1 == if r.0 then c.(offset := c.offset + |m|) else c
  {
    if Matches(c, m) then (true, c.(offset := c.offset + |m|)) else (false, c)
  }

  /** The index of the first candidate, from `from` on, that `match` accepts. */
  function FirstMatch(c: Cur, ms: seq<string>, from: nat): (r: Option<nat>)
    requires from <= |ms|
    decreases |ms| - from
    ensures r.Some? ==> from <= r.value < |ms| && Matches(c, ms[r.value])
  {
    if from == |ms| then None
    else if Matches(c, ms[from]) then Some(from)
    else FirstMatch(c, ms, from + 1)
  }

  /** No candidate before the one found is accepted, nor any from `from` on
      when none is found. */
  lemma {:induction false} FirstMatchIsFirst(c: Cur, ms: seq<string>, from: nat)
    requires from <= |ms|
    ensures FirstMatch(c, ms, from).Some? ==>
      forall k :: from <= k < FirstMatch(c, ms, from).value ==> !Matches(c, ms[k])
    ensures FirstMatch(c, ms, from).None? ==> forall k :: from <= k < |ms| ==> !Matches(c, ms[k])
    decreases |ms| - from
  {
    if from == |ms| {
      assert FirstMatch(c, ms, from) == None;
    } else if Matches(c, ms[from]) {
      assert FirstMatch(c, ms, from) == Some(from);
    } else {
      FirstMatchIsFirst(c, ms, from + 1);
      assert FirstMatch(c, ms, from) == FirstMatch(c, ms, from + 1);
    }
  }

  /** The candidate `matchany` picks is the first one the text goes on with. */
  lemma FirstMatchMeaning(c: Cur, ms: seq<string>)
    requires Sound(c) && c.offset <= |c.source.text|
    ensures FirstMatch(c, ms, 0).None? <==> forall k :: 0 <= k < |ms| ==> !Continues(c, ms[k])
    ensures FirstMatch(c, ms, 0).Some? ==>
      Continues(c, ms[FirstMatch(c, ms, 0).value])
      && forall j :: 0 <= j < FirstMatch(c, ms, 0).value ==> !Continues(c, ms[j])
  {
    FirstMatchIsFirst(c, ms, 0);
    forall k | 0 <= k < |ms| {
      MatchesIffContinues(c, ms[k]);
    }
  }

  /** `matchany(ms)`: the first candidate `match` accepts is passed over and
      read back by `substring_relative(-len(m))`; None and no move when none is. */
  function MatchedAny(c: Cur, ms: seq<string>): (Option<LString>, Cur) {
    match FirstMatch(c, ms, 0)
    case None => (None, c)
    case Some(k) => PassedOver(c, ms[k])
  }

  /** The offset moved past m, and m read back behind it. */
  function PassedOver(c: Cur, m: string): (Option<LString>, Cur) {
    var d := c.(offset := c.offset + |m|);
    (Some(SubstringRelative(d, -|m|, 0)), d)
  }

  lemma MatchedAnyAt(c: Cur, ms: seq<string>, k: nat)
    requires k < |ms| && FirstMatch(c, ms, 0) == FirstMatch(c, ms, k) && Matches(c, ms[k])
    ensures MatchedAny(c, ms) == PassedOver(c, ms[k])
  {
    assert FirstMatch(c, ms, k) == Some(k);
  }

  lemma MatchedAnyNone(c: Cur, ms: seq<string>)
    requires FirstMatch(c, ms, 0) == FirstMatch(c, ms, |ms|)
    ensures MatchedAny(c, ms) == (None, c)
  {
    assert FirstMatch(c, ms, |ms|) == None;
  }

  /** After passing over m, `substring_relative(-len(m))` reads m back with
      its lines and positions. */
  lemma MatchAnyReadsBack(c: Cur, m: string)
    requires Sound(c) && Continues(c, m)
    ensures PassedOver(c, m)
      == (Some(LString(m, c.source.lines[c.offset..c.offset + |m|], c.source.positions[c.offset..c.offset + |m|])),
          c.(offset := c.offset + |m|))
  {
    SliceWindow(c.source, c.offset, c.offset + |m|);
  }

  /** On a sound cursor within its string, `matchany` passes over the first
      candidate the text goes on with and returns it with its lines and
      positions; when the text goes on with none, nothing moves. */
  lemma MatchAnyMeaning(c: Cur, ms: seq<string>)
    requires Sound(c) && c.offset <= |c.source.text|
    ensures MatchedAny(c, ms).0.None? <==> forall k :: 0 <= k < |ms| ==> !Continues(c, ms[k])
    ensures MatchedAny(c, ms).0.None? ==> MatchedAny(c, ms).1 == c
    ensures forall k :: 0 <= k < |ms| && FirstMatch(c, ms, 0) == Some(k) ==>
      Continues(c, ms[k])
      && (forall j :: 0 <= j < k ==> !Continues(c, ms[j]))
      && MatchedAny(c, ms)
         == (Some(LString(ms[k], c.source.lines[c.offset..c.offset + |ms[k]|], c.source.positions[c.offset..c.offset + |ms[k]|])),
             c.(offset := c.offset + |ms[k]|))
  {
    FirstMatchMeaning(c, ms);
    var first := FirstMatch(c, ms, 0);
    if first.Some? {
      MatchAnyReadsBack(c, ms[first.value]);
    }
  }

  /** `matchrange(lower, upper)`: when the character at the offset lies in
      lower..upper, the offset moves one on and that character is read back;
      a null character read past the end can pass the test and then raise
      IndexError with the offset moved. */
  function MatchedRange(c: Cur, lower: char, upper: char): Moved<Option<LString>> {
    match CharAt(c, 0)
    case Failure(e) => Moved(Failure(e), c)
    case Success(ch) =>
      // the comparisons are between one-character strings, that is, characters
      if lower <= ch.text[0] <= upper then
        var d := c.(offset := c.offset + 1);
        match At(c.source, d.offset - 1)
        case Success(p) => Moved(Success(Some(p)), d)
        case Failure(e) => Moved(Failure(e), d)
      else Moved(Success(None), c)
  }

  /** Inside the string, `matchrange` moves exactly one character on if and
      only if that character lies in the range, and returns it. */
  lemma MatchRangeMeaning(c: Cur, lower: char, upper: char)
    requires Sound(c) && c.offset < |c.source.text|
    ensures var r := MatchedRange(c, lower, upper); var k := c.offset; var ch := c.source.text[k];
      r.result.Success?
      && (r.result.value.Some? <==> lower <= ch <= upper)
      && (r.result.value.Some? ==>
            r.result.value.value == LString([ch], [c.source.lines[k]], [c.source.positions[k]])
            && r.after == c.(offset := k + 1))
      && (r.result.value.None? ==> r.after == c)
  {
  }

  /** `skip_whitespace()`: `advance()` while the character at the offset is
      whitespace; reading from an empty string raises. */
  function SkippedWhitespace(c: Cur): (Outcome, Cur)
    decreases Len(c)
  {
    match CharAt(c, 0)
    case Failure(e) => (Fail(e), c)
    case Success(ch) =>
      if Blank(ch) then SpaceIsInside(c); SkippedWhitespace(Advanced(c, 1).1) else (Pass, c)
  }

  /** Whitespace is read only inside the string: past the end the null
      character is read, which is not whitespace. */
  lemma SpaceIsInside(c: Cur)
    requires CharAt(c, 0).Success? && Blank(CharAt(c, 0).value)
    ensures 0 < Len(c) && Len(Advanced(c, 1).1) < Len(c)
  {
    var ch := CharAt(c, 0).value;
    assert PositionedStrings.IsSpace(ch.text[0]);
  }

  /** On a sound cursor over a non-empty string, `skip_whitespace` moves the
      offset over whitespace only and stops at the first other character, or
      at the end. */
  lemma {:induction false} SkipWhitespaceMeaning(c: Cur)
    requires Sound(c) && |c.source.text| > 0
    ensures var (outcome, d) := SkippedWhitespace(c); var t := c.source.text;
      outcome == Pass && d.source == c.source && c.offset <= d.offset
      && (c.offset < |t| ==> d.offset <= |t|)
      && (c.offset >= |t| ==> d.offset == c.offset)
      && (forall k :: c.offset <= k < d.offset ==> PositionedStrings.IsSpace(t[k]))
      && (d.offset < |t| ==> !PositionedStrings.IsSpace(t[d.offset]))
    decreases Len(c)
  {
    var ch := CharAt(c, 0);
    if ch.Success? && Blank(ch.value) {
      SpaceIsInside(c);
      var next := Advanced(c, 1).1;
      assert PositionedStrings.IsSpace(ch.value.text[0]);
      assert ch.value.text[0] == c.source.text[c.offset];
      SkipWhitespaceMeaning(next);
    }
  }

  // ---------------------------------------------------------------------
  // Construction from a str

  /** The first j characters, with their lines and positions. */
  function Head(s: LString, j: nat): (r: LString)
    requires Valid(s) && j <= |s.text|
    ensures Valid(r)
  {
    LString(s.text[..j], s.lines[..j], s.positions[..j])
  }

  /** Character j and everything after it. */
  function Tail(s: LString, j: nat): (r: LString)
    requires Valid(s) && j <= |s.text|
    ensures Valid(r)
  {
    LString(s.text[j..], s.lines[j..], s.positions[j..])
  }

  /** `'\n' * k`: k newlines, none when k is not positive. */
  function NewlineRun(k: int): (u: string)
    ensures |u| == Max(0, k)
    ensures forall j :: 0 <= j < |u| ==> u[j] == '\n'
  {
    seq(Max(0, k), _ => '\n')
  }

  /** What the constructor inserts before character i: one '\n' for every
      line-number step from character i - 1, at that character's line and
      position. */
  function Newlines(s: LString, i: nat): (r: LString)
    requires Valid(s) && 0 < i < |s.text|
    ensures Valid(r) && |r.text| == Max(0, s.lines[i] - s.lines[i - 1])
  {
    Uniform(NewlineRun(s.lines[i] - s.lines[i - 1]), s.lines[i - 1], s.positions[i - 1])
  }

  /** Characters j onwards with the newlines put back between them. */
  function Spread(s: LString, j: nat): (r: LString)
    requires Valid(s) && j <= |s.text|
    decreases |s.text| - j
    ensures Valid(r)
    ensures j < |s.text| ==>
      |r.text| > 0 && r.text[0] == s.text[j] && r.lines[0] == s.lines[j] && r.positions[0] == s.positions[j]
  {
    if j + 1 >= |s.text| then Tail(s, j)
    else Concat(Concat(Tail(Head(s, j + 1), j), Newlines(s, j + 1)), Spread(s, j + 1))
  }

  /** The state `Code(t)` starts in. */
  function Built(t: Input): Cur {
    match t
    case FromString(p) => Cur(p, 0)
    case FromStr(s) => Cur(Spread(CreateString(s, 0), 0), 0)
  }

  /** Before the constructor's step at character i, the characters at i and
      i - 1 are still the original ones. */
  lemma SpreadStepReads(s: LString, i: nat)
    requires Valid(s) && 0 < i < |s.text|
    ensures At(Concat(Head(s, i), Spread(s, i)), i) == Success(LString([s.text[i]], [s.lines[i]], [s.positions[i]]))
    ensures At(Concat(Head(s, i), Spread(s, i)), i - 1) == Success(LString([s.text[i - 1]], [s.lines[i - 1]], [s.positions[i - 1]]))
  {
    var cur := Concat(Head(s, i), Spread(s, i));
    assert cur.text[i] == s.text[i] && cur.lines[i] == s.lines[i] && cur.positions[i] == s.positions[i];
  }

  /** Spreading from i - 1 is character i - 1, its newlines, and the spread
      from i. */
  lemma SpreadUnfold(s: LString, i: nat)
    requires Valid(s) && 0 < i < |s.text|
    ensures Concat(Head(s, i - 1), Spread(s, i - 1)) == Concat(Concat(Head(s, i), Newlines(s, i)), Spread(s, i))
  {
    var c := Tail(Head(s, i), i - 1);
    var gap := Newlines(s, i);
    var rest := Spread(s, i);
    assert Spread(s, i - 1) == Concat(Concat(c, gap), rest);
    SplitAt(s.text, i);
    SplitAt(s.lines, i);
    SplitAt(s.positions, i);
    Regroup(s.text[..i - 1], c.text, gap.text, rest.text);
    Regroup(s.lines[..i - 1], c.lines, gap.lines, rest.lines);
    Regroup(s.positions[..i - 1], c.positions, gap.positions, rest.positions);
  }

  lemma SplitAt<X>(xs: seq<X>, i: nat)
    requires 0 < i <= |xs|
    ensures xs[..i - 1] + xs[..i][i - 1..] == xs[..i]
  {
  }

  lemma Regroup<X>(a: seq<X>, b: seq<X>, c: seq<X>, d: seq<X>)
    ensures a + ((b + c) + d) == ((a + b) + c) + d
  {
  }

  /** One step of the constructor's loop, from character i down to i - 1:
      the insertion, made only when the lines of characters i - 1 and i
      differ, extends the spread part by one character. */
  lemma SpreadStep(s: LString, i: nat)
    requires Valid(s) && 0 < i < |s.text|
    ensures s.lines[i] != s.lines[i - 1] ==>
      Insert(Concat(Head(s, i), Spread(s, i)), i, Raw(NewlineRun(s.lines[i] - s.lines[i - 1])))
        == Success(Concat(Head(s, i - 1), Spread(s, i - 1)))
    ensures s.lines[i] == s.lines[i - 1] ==> Concat(Head(s, i), Spread(s, i)) == Concat(Head(s, i - 1), Spread(s, i - 1))
  {
    var cur := Concat(Head(s, i), Spread(s, i));
    var u := NewlineRun(s.lines[i] - s.lines[i - 1]);
    var gap := Newlines(s, i);
    var rest := Spread(s, i);
    SpreadUnfold(s, i);
    if s.lines[i] != s.lines[i - 1] {
      InsertMeaning(cur, i, u);
      assert cur.text[..i] == s.text[..i] && cur.text[i..] == rest.text;
      assert cur.lines[..i] == s.lines[..i] && cur.lines[i..] == rest.lines;
      assert cur.positions[..i] == s.positions[..i] && cur.positions[i..] == rest.positions;
      assert cur.lines[i - 1] == s.lines[i - 1] && cur.positions[i - 1] == s.positions[i - 1];
      assert gap.lines == seq(|u|, _ => cur.lines[i - 1]);
      assert gap.positions == seq(|u|, _ => cur.positions[i - 1]);
    } else {
      assert gap.text == [];
      assert Concat(Head(s, i), gap) == Head(s, i);
    }
  }

  /** The text with every character `drop` holds of left out. */
  function Without(t: string, drop: char -> bool): (r: string)
    decreases |t|
  {
    if |t| == 0 then "" else (if drop(t[0]) then "" else [t[0]]) + Without(t[1..], drop)
  }

  predicate IsNewline(c: char) {
    c == '\n'
  }

  lemma {:induction false} WithoutAppend(a: string, b: string, drop: char -> bool)
    ensures Without(a + b, drop) == Without(a, drop) + Without(b, drop)
    decreases |a|
  {
    if |a| > 0 {
      assert (a + b)[1..] == a[1..] + b;
      WithoutAppend(a[1..], b, drop);
    } else {
      assert a + b == b;
    }
  }

  /** Nothing is left of a text made only of dropped characters, and only
      such a text leaves nothing. */
  lemma {:induction false} WithoutNothingLeft(t: string, drop: char -> bool)
    ensures Without(t, drop) == "" <==> forall k :: 0 <= k < |t| ==> drop(t[k])
    decreases |t|
  {
    if |t| > 0 {
      WithoutNothingLeft(t[1..], drop);
      assert forall k :: 0 < k < |t| ==> t[k] == t[1..][k - 1];
    }
  }

  lemma WithoutNewlinesRun(k: int)
    ensures Without(NewlineRun(k), IsNewline) == ""
  {
    WithoutAllDropped(NewlineRun(k), IsNewline);
  }

  /** Leaving out the newlines the constructor put in gives the text back,
      as long as the text had none of its own. */
  lemma {:induction false} SpreadOnlyAddsNewlines(s: LString, j: nat)
    requires Valid(s) && j <= |s.text|
    ensures Without(Spread(s, j).text, IsNewline) == Without(s.text[j..], IsNewline)
    decreases |s.text| - j
  {
    if j + 1 < |s.text| {
      SpreadOnlyAddsNewlines(s, j + 1);
      var c := [s.text[j]];
      var gap := Newlines(s, j + 1).text;
      var rest := Spread(s, j + 1).text;
      assert Tail(Head(s, j + 1), j).text == c;
      assert Spread(s, j).text == (c + gap) + rest;
      WithoutAppend(c + gap, rest, IsNewline);
      WithoutAppend(c, gap, IsNewline);
      WithoutNewlinesRun(s.lines[j + 1] - s.lines[j]);
      assert s.text[j..] == c + s.text[j + 1..];
      WithoutAppend(c, s.text[j + 1..], IsNewline);
    }
  }

  /** With line numbers that never decrease, the constructor inserts exactly
      as many newlines as the line number climbs. */
  lemma {:induction false} SpreadLength(s: LString, j: nat)
    requires Valid(s) && j < |s.text|
    requires forall k :: 0 < k < |s.text| ==> s.lines[k - 1] <= s.lines[k]
    ensures |Spread(s, j).text| == (|s.text| - j) + (s.lines[|s.text| - 1] - s.lines[j])
    decreases |s.text| - j
  {
    if j + 1 < |s.text| {
      SpreadLength(s, j + 1);
    }
  }

  lemma {:induction false} WithoutNewlinesKeeps(t: string)
    requires PositionedStrings.NoBreaks(t)
    ensures Without(t, IsNewline) == t
    decreases |t|
  {
    if |t| > 0 {
      assert !PositionedStrings.IsBreak(t[0]);
      assert PositionedStrings.NoBreaks(t[1..]) by {
        forall k | 0 <= k < |t[1..]| ensures !PositionedStrings.IsBreak(t[1..][k]) {
          assert t[1..][k] == t[k + 1];
        }
      }
      WithoutNewlinesKeeps(t[1..]);
      assert t == [t[0]] + t[1..];
    }
  }

  /** `Code(str)`: the text with its line breaks removed and then one '\n'
      for each line step put back, so that leaving out the '\n's gives the
      text without breaks, and the length grows by the number of line steps
      between the first and the last character. */
  lemma CodeFromStrMeaning(s: string)
    ensures var c := Built(FromStr(s)); var p := CreateString(s, 0);
      Sound(c) && c.offset == 0
      && Without(c.source.text, IsNewline) == PositionedStrings.RemoveBreaks(s)
      && (|p.text| > 0 ==> |c.source.text| == |p.text| + p.lines[|p.text| - 1] - p.lines[0])
  {
    var p := CreateString(s, 0);
    CreateStringText(s, 0);
    SpreadOnlyAddsNewlines(p, 0);
    WithoutNewlinesKeeps(p.text);
    assert p.text[0..] == p.text;
    if |p.text| > 0 {
      forall k | 0 < k < |p.text| ensures p.lines[k - 1] <= p.lines[k] {
        CreateStringLinesAscend(s, 0, k);
      }
      SpreadLength(p, 0);
    }
  }

  // ---------------------------------------------------------------------
  // Stripping whitespace

  predicate AllSpace(t: string) {
    forall k :: 0 <= k < |t| ==> PositionedStrings.IsSpace(t[k])
  }

  /** Neither the first nor the last character is whitespace. */
  predicate Ends(t: string) {
    |t| == 0 || (!PositionedStrings.IsSpace(t[0]) && !PositionedStrings.IsSpace(t[|t| - 1]))
  }

  /** Every character is on the line of the first. */
  predicate OneLine(s: LString) {
    forall k :: 0 <= k < |s.lines| ==> s.lines[k] == s.lines[0]
  }

  /** The first character from i on that is not whitespace, or the length. */
  function FirstNonSpace(t: string, i: int): (k: int)
    requires 0 <= i <= |t|
    decreases |t| - i
    ensures i <= k <= |t|
    ensures k < |t| ==> !PositionedStrings.IsSpace(t[k])
  {
    if i == |t| || !PositionedStrings.IsSpace(t[i]) then i else FirstNonSpace(t, i + 1)
  }

  /** Everything FirstNonSpace passes over is whitespace. */
  lemma {:induction false} FirstNonSpaceSkips(t: string, i: int)
    requires 0 <= i <= |t|
    ensures forall j :: i <= j < FirstNonSpace(t, i) ==> PositionedStrings.IsSpace(t[j])
    decreases |t| - i
  {
    if i < |t| && PositionedStrings.IsSpace(t[i]) {
      FirstNonSpaceSkips(t, i + 1);
    }
  }

  /** The last character at or before i that is not whitespace, or -1. */
  function LastNonSpace(t: string, i: int): (k: int)
    requires -1 <= i < |t|
    decreases i + 1
    ensures -1 <= k <= i
    ensures k >= 0 ==> !PositionedStrings.IsSpace(t[k])
  {
    if i < 0 || !PositionedStrings.IsSpace(t[i]) then i else LastNonSpace(t, i - 1)
  }

  /** Everything LastNonSpace passes over is whitespace. */
  lemma {:induction false} LastNonSpaceSkips(t: string, i: int)
    requires -1 <= i < |t|
    ensures forall j :: LastNonSpace(t, i) < j <= i ==> PositionedStrings.IsSpace(t[j])
    decreases i + 1
  {
    if i >= 0 && PositionedStrings.IsSpace(t[i]) {
      LastNonSpaceSkips(t, i - 1);
    }
  }

  /** Characters a up to b. */
  function Window(s: LString, a: int, b: int): (r: LString)
    requires Valid(s) && 0 <= a <= b <= |s.text|
    ensures Valid(r) && r.text == s.text[a..b]
  {
    LString(s.text[a..b], s.lines[a..b], s.positions[a..b])
  }

  /** The first loop of `stripwhitespace`: everything before the first
      character that is not whitespace goes, if there is one. */
  function TrimFront(s: LString): (r: LString)
    requires Valid(s)
    ensures Valid(r)
  {
    var k := FirstNonSpace(s.text, 0);
    if k < |s.text| then Window(s, k, |s.text|) else s
  }

  /** ... which is what its `del string[0:i]` does. */
  lemma TrimFrontDeletes(s: LString)
    requires Valid(s) && FirstNonSpace(s.text, 0) < |s.text|
    ensures TrimFront(s) == Delete(s, PositionedStrings.Range(Some(0), Some(FirstNonSpace(s.text, 0)))).0
  {
    var k := FirstNonSpace(s.text, 0);
    DeleteMeaning(s, PositionedStrings.Range(Some(0), Some(k)));
    assert s.text[..0] + s.text[k..] == s.text[k..];
    assert s.lines[..0] + s.lines[k..] == s.lines[k..];
    assert s.positions[..0] + s.positions[k..] == s.positions[k..];
  }

  /** The second loop: everything after the last character that is not
      whitespace goes, if there is one. */
  function TrimBack(s: LString): (r: LString)
    requires Valid(s)
    ensures Valid(r)
  {
    var k := LastNonSpace(s.text, |s.text| - 1);
    if k >= 0 then Window(s, 0, k + 1) else s
  }

  /** ... which is what its `del string[i + 1:len(string)]` does. */
  lemma TrimBackDeletes(s: LString)
    requires Valid(s) && LastNonSpace(s.text, |s.text| - 1) >= 0
    ensures var k := LastNonSpace(s.text, |s.text| - 1);
      TrimBack(s) == Delete(s, PositionedStrings.Range(Some(k + 1), Some(|s.text|))).0
  {
    var n := |s.text|;
    var k := LastNonSpace(s.text, n - 1);
    DeleteMeaning(s, PositionedStrings.Range(Some(k + 1), Some(n)));
    assert s.text[..k + 1] + s.text[n..] == s.text[..k + 1];
    assert s.lines[..k + 1] + s.lines[n..] == s.lines[..k + 1];
    assert s.positions[..k + 1] + s.positions[n..] == s.positions[..k + 1];
  }

  function TrimBoth(s: LString): (r: LString)
    requires Valid(s)
    ensures Valid(r)
  {
    TrimBack(TrimFront(s))
  }

  /** The first and the last character that are not whitespace. */
  function Front(s: LString): int {
    FirstNonSpace(s.text, 0)
  }

  function Back(s: LString): int {
    LastNonSpace(s.text, |s.text| - 1)
  }

  /** With some character that is not whitespace, trimming leaves the window
      from the first to the last such character; a text of whitespace only
      is left as it is. */
  lemma TrimMeaning(s: LString)
    requires Valid(s)
    ensures AllSpace(s.text) ==> TrimBoth(s) == s
    ensures !AllSpace(s.text) ==> 0 <= Front(s) <= Back(s) < |s.text| && TrimBoth(s) == Window(s, Front(s), Back(s) + 1)
  {
    if AllSpace(s.text) {
      TrimAllSpace(s);
    } else {
      TrimSome(s);
    }
  }

  lemma TrimAllSpace(s: LString)
    requires Valid(s) && AllSpace(s.text)
    ensures TrimBoth(s) == s
  {
    var t := s.text;
    AllSpaceEnds(t, 0, |t| - 1);
  }

  lemma {:induction false} AllSpaceEnds(t: string, i: int, j: int)
    requires AllSpace(t) && 0 <= i <= |t| && -1 <= j < |t|
    ensures FirstNonSpace(t, i) == |t| && LastNonSpace(t, j) == -1
    decreases |t| - i + j + 1
  {
    if i < |t| {
      AllSpaceEnds(t, i + 1, j);
    } else if j >= 0 {
      AllSpaceEnds(t, i, j - 1);
    }
  }

  lemma TrimSome(s: LString)
    requires Valid(s) && !AllSpace(s.text)
    ensures 0 <= Front(s) <= Back(s) < |s.text| && TrimBoth(s) == Window(s, Front(s), Back(s) + 1)
  {
    FrontBeforeBack(s);
    TrimWindow(s);
  }

  lemma FrontBeforeBack(s: LString)
    requires !AllSpace(s.text)
    ensures 0 <= Front(s) <= Back(s) < |s.text|
  {
    FirstNonSpaceSkips(s.text, 0);
    LastNonSpaceSkips(s.text, |s.text| - 1);
  }

  lemma TrimWindow(s: LString)
    requires Valid(s) && 0 <= Front(s) <= Back(s) < |s.text|
    ensures TrimBoth(s) == Window(s, Front(s), Back(s) + 1)
  {
    var a := Front(s);
    var b := Back(s);
    var n := |s.text|;
    var f := Window(s, a, n);
    assert TrimFront(s) == f;
    BackOfSuffix(s, a);
    TrimBackKeeps(f, b - a);
    WindowOfWindow(s, a, b + 1);
  }

  /** The last non-space character of a suffix is the string's own. */
  lemma BackOfSuffix(s: LString, a: int)
    requires Valid(s) && 0 <= a < |s.text| && !PositionedStrings.IsSpace(s.text[a])
    ensures Back(Window(s, a, |s.text|)) == Back(s) - a
  {
    assert Window(s, a, |s.text|).text == s.text[a..];
    LastNonSpaceShift(s.text, a, |s.text| - 1);
  }

  lemma TrimBackKeeps(f: LString, k: int)
    requires Valid(f) && 0 <= k && Back(f) == k
    ensures TrimBack(f) == Window(f, 0, k + 1)
  {
  }

  lemma WindowOfWindow(s: LString, a: int, b: int)
    requires Valid(s) && 0 <= a <= b <= |s.text|
    ensures Window(Window(s, a, |s.text|), 0, b - a) == Window(s, a, b)
  {
  }

  /** Looking back for a non-space character in a suffix finds the same
      character, counted from the suffix's start. */
  lemma {:induction false} LastNonSpaceShift(t: string, a: int, i: int)
    requires 0 <= a <= i < |t| && !PositionedStrings.IsSpace(t[a])
    ensures LastNonSpace(t[a..], i - a) == LastNonSpace(t, i) - a
    decreases i + 1
  {
    assert t[a..][i - a] == t[i];
    if PositionedStrings.IsSpace(t[i]) {
      LastNonSpaceShift(t, a, i - 1);
    }
  }

  /** The deletion at a line boundary between characters i and i + 1: the
      whitespace before it back to a non-space character, and after it up to
      the next one. */
  function Cut(s: LString, i: int): (r: LString)
    requires Valid(s) && 0 <= i && i + 1 < |s.text|
    ensures Valid(r) && |r.text| <= |s.text|
  {
    var a := LastNonSpace(s.text, i) + 1;
    var b := FirstNonSpace(s.text, i + 1);
    LString(s.text[..a] + s.text[b..], s.lines[..a] + s.lines[b..], s.positions[..a] + s.positions[b..])
  }

  /** ... which is what `del string[start + 1: end]` does. */
  lemma CutDeletes(s: LString, i: int)
    requires Valid(s) && 0 <= i && i + 1 < |s.text|
    ensures Cut(s, i)
      == Delete(s, PositionedStrings.Range(Some(LastNonSpace(s.text, i) + 1), Some(FirstNonSpace(s.text, i + 1)))).0
  {
    var a := LastNonSpace(s.text, i) + 1;
    var b := FirstNonSpace(s.text, i + 1);
    var key := PositionedStrings.Range(Some(a), Some(b));
    assert PositionedStrings.SliceBound(|s.text|, Some(a), 0) == a;
    assert PositionedStrings.SliceBound(|s.text|, Some(b), |s.text|) == b;
    assert PositionedStrings.RemovedSpan(|s.text|, key) == (a, b);
    DeleteMeaning(s, key);
    var d := Delete(s, key);
    assert d.1.Pass?;
    assert d.0 == LString(s.text[..a] + s.text[b..], s.lines[..a] + s.lines[b..], s.positions[..a] + s.positions[b..]);
  }

  /** The third loop as written: from character len - 2 down to 0, cut at
      each line boundary. The range is fixed when the loop starts, so after a
      cut the loop can read past the shortened string and raise IndexError. */
  function BoundariesAsWritten(s: LString, i: int): (r: Result<LString>)
    requires Valid(s)
    decreases i + 1
  {
    if i < 0 then Success(s)
    else
      var a :- At(s, i);
      var b :- At(s, i + 1);
      if a.lines[0] != b.lines[0] then BoundariesAsWritten(Cut(s, i), i - 1)
      else BoundariesAsWritten(s, i - 1)
  }

  /** The third loop as intended: after a cut it goes on at a boundary the
      shortened string still has. */
  function Boundaries(s: LString, i: int): (r: LString)
    requires Valid(s) && i + 1 < |s.text|
    decreases i + 1
    ensures Valid(r) && |r.text| <= |s.text|
  {
    if i < 0 then s
    else if s.lines[i] != s.lines[i + 1] then
      var r := Cut(s, i);
      Boundaries(r, Min(i - 1, |r.text| - 2))
    else Boundaries(s, i - 1)
  }

  /** `stripwhitespace()` as written. */
  function StripAsWritten(s: LString): (r: Result<LString>)
    requires Valid(s)
  {
    var t := TrimBoth(s);
    BoundariesAsWritten(t, |t.text| - 2)
  }

  /** `stripwhitespace()` as intended. */
  function Strip(s: LString): (r: LString)
    requires Valid(s)
    ensures Valid(r)
  {
    var t := TrimBoth(s);
    Boundaries(t, |t.text| - 2)
  }

  /** Two lines "a " and " b": the cut leaves "ab", and the loop then reads
      character 2 of it. */
  lemma StripAsWrittenRaises()
    ensures StripAsWritten(LString("a  b", [0, 0, 0, 1], [0, 1, 2, 0])) == Failure(Python("IndexError"))
    ensures Strip(LString("a  b", [0, 0, 0, 1], [0, 1, 2, 0])) == LString("ab", [0, 1], [0, 0])
  {
    var s := LString("a  b", [0, 0, 0, 1], [0, 1, 2, 0]);
    assert FirstNonSpace(s.text, 0) == 0;
    assert LastNonSpace(s.text, 3) == 3;
    assert TrimBoth(s) == s;
    assert LastNonSpace(s.text, 2) == 0;
    assert FirstNonSpace(s.text, 3) == 3;
    var r := LString("ab", [0, 1], [0, 0]);
    assert Cut(s, 2) == r;
    assert BoundariesAsWritten(r, 1) == Failure(Python("IndexError"));
    assert LastNonSpace(r.text, 0) == 0;
    assert FirstNonSpace(r.text, 1) == 1;
    assert Cut(r, 0) == r;
  }

  /** One round of the written loop inside the string: a cut exactly at a
      line boundary, then on to the next character down. */
  lemma BoundaryStepAsWritten(s: LString, i: int)
    requires Valid(s) && 0 <= i && i + 1 < |s.text|
    ensures BoundariesAsWritten(s, i)
      == if s.lines[i] != s.lines[i + 1] then BoundariesAsWritten(Cut(s, i), i - 1) else BoundariesAsWritten(s, i - 1)
  {
  }

  /** One round of the intended loop. */
  lemma BoundaryStep(s: LString, i: int)
    requires Valid(s) && 0 <= i && i + 1 < |s.text|
    ensures Boundaries(s, i)
      == if s.lines[i] != s.lines[i + 1] then Boundaries(Cut(s, i), Min(i - 1, |Cut(s, i).text| - 2)) else Boundaries(s, i - 1)
  {
  }

  /** The written loop raises as soon as it is to compare a character with
      one the string no longer has. */
  lemma BoundaryPastEndRaises(s: LString, i: int)
    requires Valid(s) && 0 <= i && |s.text| <= i + 1
    ensures BoundariesAsWritten(s, i).Failure?
  {
    assert At(s, i + 1).Failure?;
  }

  /** Whenever the loop as written gets through, it produces what the
      intended loop produces: the two differ only where the written one raises. */
  lemma {:induction false} BoundariesAgree(s: LString, i: int)
    requires Valid(s) && i + 1 < |s.text|
    ensures BoundariesAsWritten(s, i).Success? ==> BoundariesAsWritten(s, i) == Success(Boundaries(s, i))
    decreases i + 1
  {
    if i >= 0 {
      BoundaryStepAsWritten(s, i);
      BoundaryStep(s, i);
      if s.lines[i] != s.lines[i + 1] {
        var r := Cut(s, i);
        if i - 1 <= |r.text| - 2 {
          BoundariesAgree(r, i - 1);
          assert Boundaries(s, i) == Boundaries(r, i - 1);
        } else if i - 1 >= 0 {
          BoundaryPastEndRaises(r, i - 1);
        } else {
          assert Boundaries(s, i) == r && BoundariesAsWritten(s, i) == Success(r);
        }
      } else {
        BoundariesAgree(s, i - 1);
      }
    }
  }

  lemma StripAgrees(s: LString)
    requires Valid(s)
    ensures StripAsWritten(s).Success? ==> StripAsWritten(s) == Success(Strip(s))
  {
    var t := TrimBoth(s);
    BoundariesAgree(t, |t.text| - 2);
  }

  /** Nothing is left of a text of dropped characters. */
  lemma {:induction false} WithoutAllDropped(t: string, drop: char -> bool)
    requires forall k :: 0 <= k < |t| ==> drop(t[k])
    ensures Without(t, drop) == ""
    decreases |t|
  {
    if |t| > 0 {
      assert forall k :: 0 <= k < |t[1..]| ==> t[1..][k] == t[k + 1];
      WithoutAllDropped(t[1..], drop);
    }
  }

  /** Leaving out a stretch of dropped characters changes nothing. */
  lemma DropMiddle(t: string, a: int, b: int, drop: char -> bool)
    requires 0 <= a <= b <= |t| && forall k :: a <= k < b ==> drop(t[k])
    ensures Without(t[..a] + t[b..], drop) == Without(t, drop)
  {
    var x, m, y := t[..a], t[a..b], t[b..];
    assert forall k :: 0 <= k < |m| ==> m[k] == t[a + k];
    WithoutAllDropped(m, drop);
    Split3(t, a, b);
    WithoutAppend(x, m + y, drop);
    WithoutAppend(m, y, drop);
    WithoutAppend(x, y, drop);
  }

  /** Keeping only a stretch whose surroundings are all dropped changes nothing. */
  lemma KeepMiddle(t: string, a: int, b: int, drop: char -> bool)
    requires 0 <= a <= b <= |t|
    requires forall k :: 0 <= k < a ==> drop(t[k])
    requires forall k :: b <= k < |t| ==> drop(t[k])
    ensures Without(t[a..b], drop) == Without(t, drop)
  {
    var x, m, y := t[..a], t[a..b], t[b..];
    assert forall k :: 0 <= k < |x| ==> x[k] == t[k];
    assert forall k :: 0 <= k < |y| ==> y[k] == t[b + k];
    WithoutAllDropped(x, drop);
    WithoutAllDropped(y, drop);
    Split3(t, a, b);
    WithoutAppend(x, m + y, drop);
    WithoutAppend(m, y, drop);
  }

  lemma Split3<X>(t: seq<X>, a: int, b: int)
    requires 0 <= a <= b <= |t|
    ensures t == t[..a] + (t[a..b] + t[b..])
  {
  }

  /** Cutting at a boundary removes whitespace only. */
  lemma CutKeepsNonSpace(s: LString, i: int)
    requires Valid(s) && 0 <= i && i + 1 < |s.text|
    ensures Without(Cut(s, i).text, PositionedStrings.IsSpace) == Without(s.text, PositionedStrings.IsSpace)
  {
    LastNonSpaceSkips(s.text, i);
    FirstNonSpaceSkips(s.text, i + 1);
    DropMiddle(s.text, LastNonSpace(s.text, i) + 1, FirstNonSpace(s.text, i + 1), PositionedStrings.IsSpace);
  }

  /** A cut never reaches the first or the last character when neither is
      whitespace. */
  lemma CutKeepsEnds(s: LString, i: int)
    requires Valid(s) && 0 <= i && i + 1 < |s.text| && Ends(s.text)
    ensures Ends(Cut(s, i).text)
  {
    LastNonSpaceSkips(s.text, i);
    FirstNonSpaceSkips(s.text, i + 1);
  }

  /** The loop of cuts removes whitespace only and keeps the ends. */
  lemma {:induction false} BoundariesKeep(s: LString, i: int)
    requires Valid(s) && i + 1 < |s.text|
    ensures Without(Boundaries(s, i).text, PositionedStrings.IsSpace) == Without(s.text, PositionedStrings.IsSpace)
    ensures Ends(s.text) ==> Ends(Boundaries(s, i).text)
    decreases i + 1
  {
    if i >= 0 {
      if s.lines[i] != s.lines[i + 1] {
        var r := Cut(s, i);
        CutKeepsNonSpace(s, i);
        if Ends(s.text) {
          CutKeepsEnds(s, i);
        }
        BoundariesKeep(r, Min(i - 1, |r.text| - 2));
      } else {
        BoundariesKeep(s, i - 1);
      }
    }
  }

  /** Trimming removes whitespace only and, unless the text is nothing but
      whitespace, leaves it without whitespace at either end. */
  lemma TrimKeeps(s: LString)
    requires Valid(s)
    ensures Without(TrimBoth(s).text, PositionedStrings.IsSpace) == Without(s.text, PositionedStrings.IsSpace)
    ensures !AllSpace(s.text) ==> Ends(TrimBoth(s).text)
  {
    TrimMeaning(s);
    if !AllSpace(s.text) {
      FirstNonSpaceSkips(s.text, 0);
      LastNonSpaceSkips(s.text, |s.text| - 1);
      KeepMiddle(s.text, Front(s), Back(s) + 1, PositionedStrings.IsSpace);
    }
  }

  /** `stripwhitespace` (as intended) removes whitespace and nothing else,
      never lengthens the string, and leaves no whitespace at either end
      unless the text is whitespace only, in which case whitespace is all
      that is left. */
  lemma StripMeaning(s: LString)
    requires Valid(s)
    ensures Without(Strip(s).text, PositionedStrings.IsSpace) == Without(s.text, PositionedStrings.IsSpace)
    ensures |Strip(s).text| <= |s.text|
    ensures !AllSpace(s.text) ==> Ends(Strip(s).text) && !AllSpace(Strip(s).text)
    ensures AllSpace(s.text) ==> AllSpace(Strip(s).text)
  {
    var t := TrimBoth(s);
    TrimKeeps(s);
    TrimMeaning(s);
    BoundariesKeep(t, |t.text| - 2);
    WithoutNothingLeft(s.text, PositionedStrings.IsSpace);
    WithoutNothingLeft(Strip(s).text, PositionedStrings.IsSpace);
  }

  /** On a string all on one line the loop of cuts finds no boundary. */
  lemma {:induction false} BoundariesOneLine(s: LString, i: int)
    requires Valid(s) && OneLine(s) && i + 1 < |s.text|
    ensures Boundaries(s, i) == s
    ensures BoundariesAsWritten(s, i) == Success(s)
    decreases i + 1
  {
    if i >= 0 {
      assert s.lines[i] == s.lines[0] == s.lines[i + 1];
      BoundaryStepAsWritten(s, i);
      BoundariesOneLine(s, i - 1);
    }
  }

  /** On one line, `stripwhitespace` as written and as intended both just
      trim the two ends. */
  lemma StripOneLine(s: LString)
    requires Valid(s) && OneLine(s)
    ensures Strip(s) == TrimBoth(s)
    ensures StripAsWritten(s) == Success(TrimBoth(s))
  {
    TrimMeaning(s);
    var t := TrimBoth(s);
    if !AllSpace(s.text) {
      var a := Front(s);
      assert forall k :: 0 <= k < |t.lines| ==> t.lines[k] == s.lines[a + k];
    }
    assert OneLine(t);
    BoundariesOneLine(t, |t.text| - 2);
  }

  /** Before the first step of the constructor's loop the whole string is
      still to be done... */
  lemma SpreadFirst(s: LString)
    requires Valid(s) && |s.text| > 0
    ensures Concat(Head(s, |s.text| - 1), Spread(s, |s.text| - 1)) == s
  {
    var j := |s.text| - 1;
    assert Spread(s, j) == Tail(s, j);
    SplitTwo(s.text, j);
    SplitTwo(s.lines, j);
    SplitTwo(s.positions, j);
  }

  lemma SplitTwo<X>(xs: seq<X>, j: int)
    requires 0 <= j <= |xs|
    ensures xs[..j] + xs[j..] == xs
  {
  }

  /** ... and after the last step it is all done. */
  lemma SpreadLast(s: LString)
    requires Valid(s)
    ensures Concat(Head(s, 0), Spread(s, 0)) == Spread(s, 0)
    ensures |s.text| == 0 ==> Spread(s, 0) == s
  {
  }

  /** The loop of `Code(str)`: from the last character down to the second,
      insert '\n' * (line step) wherever the line number changes. */
  method SpreadLines(p: LString) returns (r: LString)
    requires Valid(p)
    ensures r == Spread(p, 0)
  {
    r := p;
    if |r.text| == 0 {
      SpreadLast(p);
      return;
    }
    SpreadFirst(p);
    var i := |r.text| - 1;
    while i > 0
      invariant 0 <= i < |p.text|
      invariant r == Concat(Head(p, i), Spread(p, i))
    {
      r := SpreadAt(p, i, r);
      i := i - 1;
    }
    SpreadLast(p);
  }

  lemma SpreadInsert(p: LString, i: nat, r: LString, gap: string)
    requires Valid(p) && 0 < i < |p.text| && p.lines[i] != p.lines[i - 1]
    requires r == Concat(Head(p, i), Spread(p, i)) && gap == NewlineRun(p.lines[i] - p.lines[i - 1])
    ensures Insert(r, i, Raw(gap)) == Success(Concat(Head(p, i - 1), Spread(p, i - 1)))
  {
    SpreadStep(p, i);
  }

  /** One step of that loop, at character i. */
  method SpreadAt(p: LString, i: nat, r: LString) returns (next: LString)
    requires Valid(p) && 0 < i < |p.text| && r == Concat(Head(p, i), Spread(p, i))
    ensures next == Concat(Head(p, i - 1), Spread(p, i - 1))
  {
    SpreadStepReads(p, i);
    SpreadStep(p, i);
    var here := At(r, i).value;
    var before := At(r, i - 1).value;
    assert here.lines[0] == p.lines[i] && before.lines[0] == p.lines[i - 1];
    next := r;
    if here.lines[0] != before.lines[0] {
      var gap := NewlineRun(here.lines[0] - before.lines[0]);
      SpreadInsert(p, i, r, gap);
      next := Insert(r, i, Raw(gap)).value;
    }
  }

  /** `string[k].isspace()` on an aligned string is the test on character k. */
  lemma BlankAt(s: LString, k: int)
    requires Valid(s) && 0 <= k < |s.text|
    ensures At(s, k).Success? && (Blank(At(s, k).value) <==> PositionedStrings.IsSpace(s.text[k]))
  {
    var ch := At(s, k).value;
    assert ch.text == [s.text[k]];
    BlankOne(ch);
  }

  lemma BlankOne(ch: LString)
    requires |ch.text| == 1
    ensures Blank(ch) <==> PositionedStrings.IsSpace(ch.text[0])
  {
  }

  /** The first loop of `stripwhitespace`. */
  method StripFront(s: LString) returns (r: LString)
    requires Valid(s)
    ensures r == TrimFront(s)
  {
    r := s;
    var i := 0;
    while i < |s.text|
      invariant 0 <= i <= |s.text|
      invariant FirstNonSpace(s.text, 0) == FirstNonSpace(s.text, i)
    {
      BlankAt(s, i);
      if !Blank(At(s, i).value) {
        TrimFrontDeletes(s);
        r := Delete(s, PositionedStrings.Range(Some(0), Some(i))).0;
        return;
      }
      i := i + 1;
    }
  }

  /** The second loop. */
  method StripBack(s: LString) returns (r: LString)
    requires Valid(s)
    ensures r == TrimBack(s)
  {
    r := s;
    var i := |s.text| - 1;
    while i >= 0
      invariant -1 <= i < |s.text|
      invariant LastNonSpace(s.text, |s.text| - 1) == LastNonSpace(s.text, i)
    {
      BlankAt(s, i);
      if !Blank(At(s, i).value) {
        TrimBackDeletes(s);
        r := Delete(s, PositionedStrings.Range(Some(i + 1), Some(|s.text|))).0;
        return;
      }
      i := i - 1;
    }
  }

  /** The third loop, going on after a cut at a boundary the shortened
      string still has. */
  method StripBoundaries(s: LString) returns (r: LString)
    requires Valid(s)
    ensures r == Boundaries(s, |s.text| - 2)
  {
    ghost var goal := Boundaries(s, |s.text| - 2);
    r := s;
    var i := |r.text| - 2;
    while i >= 0
      invariant Valid(r) && i + 1 < |r.text|
      invariant Boundaries(r, i) == goal
      decreases i + 1
    {
      BoundaryStep(r, i);
      assert At(r, i).value.lines[0] == r.lines[i] && At(r, i + 1).value.lines[0] == r.lines[i + 1];
      if At(r, i).value.lines[0] != At(r, i + 1).value.lines[0] {
        var cut := CutAt(r, i);
        var j := Min(i - 1, |cut.text| - 2);
        assert Boundaries(cut, j) == Boundaries(r, i);
        r, i := cut, j;
      } else {
        i := i - 1;
      }
    }
    assert Boundaries(r, i) == r;
  }

  /** The two inner loops of the third and the deletion they end in. */
  method CutAt(s: LString, i: int) returns (r: LString)
    requires Valid(s) && 0 <= i && i + 1 < |s.text|
    ensures r == Cut(s, i)
  {
    var start := i;
    var end := i + 1;
    while start >= 0 && Blank(At(s, start).value)
      invariant -1 <= start <= i
      invariant LastNonSpace(s.text, start) == LastNonSpace(s.text, i)
      decreases start + 1
    {
      BlankAt(s, start);
      assert LastNonSpace(s.text, start) == LastNonSpace(s.text, start - 1);
      start := start - 1;
    }
    if start >= 0 {
      BlankAt(s, start);
    }
    assert start == LastNonSpace(s.text, i);
    while end < |s.text| && Blank(At(s, end).value)
      invariant i + 1 <= end <= |s.text|
      invariant FirstNonSpace(s.text, end) == FirstNonSpace(s.text, i + 1)
      decreases |s.text| - end
    {
      BlankAt(s, end);
      assert FirstNonSpace(s.text, end) == FirstNonSpace(s.text, end + 1);
      end := end + 1;
    }
    if end < |s.text| {
      BlankAt(s, end);
    }
    assert end == FirstNonSpace(s.text, i + 1);
    var range := PositionedStrings.Range(Some(start + 1), Some(end));
    assert range == PositionedStrings.Range(Some(LastNonSpace(s.text, i) + 1), Some(FirstNonSpace(s.text, i + 1)));
    CutDeletes(s, i);
    r := Delete(s, range).0;
  }

  // ---------------------------------------------------------------------
  // The Code object

  /** A Code, whose offset the movers advance and whose string
      `stripwhitespace` edits. */
  class Code {
    var source: LString
    var offset: int

    function State(): Cur
      reads this
    {
      Cur(source, offset)
    }

    /** `Code(text)`: a PositionedString is used as it is; a str is laid out
        without its line breaks, and then, from the last character down to
        the second, a run of '\n' is inserted wherever the line number steps
        up. */
    constructor (t: Input)
      ensures State() == Built(t)
    {
      offset := 0;
      match t
      case FromString(p) =>
        source := p;
      case FromStr(s) =>
        var spread := SpreadLines(CreateString(s, 0));
        source := spread;
    }

    /** `advance(amount)`. */
    method Advance(amount: int) returns (r: LString)
      modifies this
      ensures (r, State()) == Advanced(old(State()), amount)
    {
      r := SubstringLength(State(), amount);
      offset := offset + amount;
    }

    /** `advancepast(m)`: tries every position from the offset to the end. */
    method AdvancePast(m: string) returns (r: Option<LString>)
      modifies this
      ensures (r, State()) == AdvancedPast(old(State()), m)
    {
      ghost var c := State();
      var i := offset;
      while i < |source.text|
        invariant c.offset <= i
        invariant State() == c
        invariant TextCode.FirstOccurrence(c.source.text, m, c.offset) == TextCode.FirstOccurrence(c.source.text, m, i)
        decreases |source.text| - i
      {
        var window := Slice(source, Some(i), Some(i + |m|));
        assert TextCode.OccursAt(c.source.text, m, i) <==> window.text == m;
        if window.text == m {
          AdvancedPastAt(c, m, i);
          r := Some(Slice(source, Some(offset), Some(i + |m|)));
          offset := i + |m|;
          assert State() == c.(offset := i + |m|);
          return;
        }
        i := i + 1;
      }
      AdvancedPastNone(c, m, i);
      return None;
    }

    /** `match(m)`. */
    method Match(m: string) returns (b: bool)
      modifies this
      ensures (b, State()) == Matched(old(State()), m)
    {
      var sub := SubstringLength(State(), |m|);
      MatchesIsSubstringTest(State(), m);
      if sub.text == m {
        offset := offset + |m|;
        return true;
      }
      return false;
    }

    /** `matchany(ms)`: `match` on each candidate in turn. */
    method MatchAny(ms: seq<string>) returns (r: Option<LString>)
      modifies this
      ensures (r, State()) == MatchedAny(old(State()), ms)
    {
      ghost var c := State();
      var k := 0;
      while k < |ms|
        invariant 0 <= k <= |ms|
        invariant State() == c
        invariant FirstMatch(c, ms, 0) == FirstMatch(c, ms, k)
      {
        var ok := Match(ms[k]);
        if ok {
          MatchedAnyAt(c, ms, k);
          assert State() == PassedOver(c, ms[k]).1;
          r := Some(SubstringRelative(State(), -|ms[k]|, 0));
          assert r == PassedOver(c, ms[k]).0;
          return;
        }
        k := k + 1;
      }
      MatchedAnyNone(c, ms);
      return None;
    }

    /** `matchrange(lower, upper)`. */
    method MatchRange(lower: char, upper: char) returns (r: Result<Option<LString>>)
      modifies this
      ensures Moved(r, State()) == MatchedRange(old(State()), lower, upper)
    {
      var ch := CharAt(State(), 0);
      if ch.Failure? {
        return Failure(ch.error);
      }
      if lower <= ch.value.text[0] <= upper {
        offset := offset + 1;
        var p := At(source, offset - 1);
        if p.Failure? {
          return Failure(p.error);
        }
        return Success(Some(p.value));
      }
      return Success(None);
    }

    /** `stripwhitespace()`, with the third loop going on at a boundary the
        shortened string still has. */
    method StripWhitespace()
      requires Valid(source)
      modifies this
      ensures source == Strip(old(source)) && offset == old(offset)
    {
      var front := StripFront(source);
      source := front;
      var back := StripBack(source);
      source := back;
      var cut := StripBoundaries(source);
      source := cut;
    }

    /** `skip_whitespace()`. */
    method SkipWhitespace() returns (outcome: Outcome)
      modifies this
      ensures (outcome, State()) == SkippedWhitespace(old(State()))
    {
      while true
        invariant SkippedWhitespace(State()) == SkippedWhitespace(old(State()))
        decreases Len(State())
      {
        var ch := CharAt(State(), 0);
        if ch.Failure? {
          return Fail(ch.error);
        }
        if !Blank(ch.value) {
          return Pass;
        }
        SpaceIsInside(State());
        var _ := Advance(1);
      }
    }
  }
}
