/**
 * The PositionedString of the older all-in-one text module: a text with
 * two parallel lists, the line number and the position within its line of
 * every character. Its operations are functions on values; `del`, which
 * the source applies in place, is a function the Code class of
 * CStringCode assigns back.
 */
module CStringText {
  import opened Wrappers
  import PositionedStrings

  datatype LString = LString(text: string, lines: seq<int>, positions: seq<int>)

  /** The three lists have one entry per character. */
  predicate Valid(s: LString) {
    |s.lines| == |s.text| && |s.positions| == |s.text|
  }

  /** The right operand of `+`, `insert` and the comparisons: a str, a
      PositionedString, or an object of any other type. */
  datatype Operand = Raw(s: string) | Positioned(p: LString) | Other

  function Min(a: int, b: int): int { if a < b then a else b }

  function Max(a: int, b: int): int { if a < b then b else a }

  // ---------------------------------------------------------------------
  // create_string

  /** The lists of a newer PositionedString's coordinates. */
  function FromCoordinates(p: PositionedStrings.PositionedString): (r: LString)
    ensures r.text == p.text && |r.lines| == |p.coordinates| && |r.positions| == |p.coordinates|
    ensures forall k :: 0 <= k < |p.coordinates| ==>
      r.lines[k] == p.coordinates[k].line && r.positions[k] == p.coordinates[k].column
  {
    LString(p.text, seq(|p.coordinates|, k requires 0 <= k < |p.coordinates| => p.coordinates[k].line),
                    seq(|p.coordinates|, k requires 0 <= k < |p.coordinates| => p.coordinates[k].column))
  }

  /** `PositionedString.create_string(text, line, keepends=False)`: the same
      layout the newer `create_string` builds, character j of source line i
      on line `line + i` at position j. */
  function CreateString(text: string, line: int): (r: LString)
    ensures Valid(r)
  {
    PositionedStrings.LayoutShape(PositionedStrings.SplitLines(text), line);
    FromCoordinates(PositionedStrings.Layout(PositionedStrings.SplitLines(text), line))
  }

  /** The created string has every line break removed and one line and one
      position per character. */
  lemma CreateStringText(text: string, line: int)
    ensures var r := CreateString(text, line);
      Valid(r) && r.text == PositionedStrings.RemoveBreaks(text) && PositionedStrings.NoBreaks(r.text)
  {
    PositionedStrings.CreateStringMeaning(text, line);
  }

  /** Each character of the created string is found at its line and position
      among the lines of the source text. */
  lemma CreateStringPlaces(text: string, line: int, k: int)
    requires 0 <= k < |CreateString(text, line).text|
    ensures var r := CreateString(text, line); var ls := PositionedStrings.SplitLines(text);
      line <= r.lines[k] < line + |ls|
      && 0 <= r.positions[k] < |ls[r.lines[k] - line]|
      && ls[r.lines[k] - line][r.positions[k]] == r.text[k]
  {
    var ls := PositionedStrings.SplitLines(text);
    var p := PositionedStrings.Layout(ls, line);
    PositionedStrings.LayoutShape(ls, line);
    PositionedStrings.LayoutPositions(ls, line);
    assert p.coordinates[k].line == CreateString(text, line).lines[k];
  }

  /** The line numbers of the created string never decrease. */
  lemma CreateStringLinesAscend(text: string, line: int, k: int)
    requires 0 < k < |CreateString(text, line).text|
    ensures CreateString(text, line).lines[k - 1] <= CreateString(text, line).lines[k]
  {
    var ls := PositionedStrings.SplitLines(text);
    var p := PositionedStrings.Layout(ls, line);
    PositionedStrings.LayoutShape(ls, line);
    PositionedStrings.LayoutOrdered(ls, line);
    assert PositionedStrings.Before(p.coordinates[k - 1], p.coordinates[k]);
  }

  // ---------------------------------------------------------------------
  // Indexing, slicing, +, insert

  /** `s[start:stop]`: the three lists sliced alike. */
  function Slice(s: LString, start: Option<int>, stop: Option<int>): (r: LString)
    ensures Valid(s) ==> Valid(r)
    ensures r.text == PositionedStrings.SliceOf(s.text, start, stop)
  {
    LString(PositionedStrings.SliceOf(s.text, start, stop),
            PositionedStrings.SliceOf(s.lines, start, stop),
            PositionedStrings.SliceOf(s.positions, start, stop))
  }

  /** On an aligned string, a slice within bounds is the plain window of each list. */
  lemma SliceWindow(s: LString, a: int, b: int)
    requires Valid(s) && 0 <= a <= b <= |s.text|
    ensures Slice(s, Some(a), Some(b)) == LString(s.text[a..b], s.lines[a..b], s.positions[a..b])
  {
  }

  /** `s[key]` for an integer key: text, line and position at Python's index,
      IndexError from whichever list the index misses first. */
  function At(s: LString, key: int): (r: Result<LString>)
    ensures r.Success? <==> (PositionedStrings.PyIndex(|s.text|, key).Some?
      && PositionedStrings.PyIndex(|s.lines|, key).Some? && PositionedStrings.PyIndex(|s.positions|, key).Some?)
    ensures r.Failure? ==> r.error == Python("IndexError")
    ensures Valid(s) && 0 <= key < |s.text| ==>
      r == Success(LString([s.text[key]], [s.lines[key]], [s.positions[key]]))
    ensures r.Success? ==> Valid(r.value) && |r.value.text| == 1
  {
    match (PositionedStrings.PyIndex(|s.text|, key), PositionedStrings.PyIndex(|s.lines|, key),
           PositionedStrings.PyIndex(|s.positions|, key))
    case (Some(i), Some(j), Some(k)) => Success(LString([s.text[i]], [s.lines[j]], [s.positions[k]]))
    case _ => Failure(Python("IndexError"))
  }

  /** `s.line(index)`. */
  function Line(s: LString, index: int): (r: Result<int>)
    ensures r.Success? <==> PositionedStrings.PyIndex(|s.lines|, index).Some?
    ensures 0 <= index < |s.lines| ==> r == Success(s.lines[index])
  {
    match PositionedStrings.PyIndex(|s.lines|, index)
    case Some(i) => Success(s.lines[i])
    case None => Failure(Python("IndexError"))
  }

  /** A str of n characters all on one line and position. */
  function Uniform(u: string, line: int, position: int): (r: LString)
    ensures Valid(r) && r.text == u
    ensures forall k :: 0 <= k < |u| ==> r.lines[k] == line && r.positions[k] == position
  {
    LString(u, seq(|u|, _ => line), seq(|u|, _ => position))
  }

  function Concat(a: LString, b: LString): (r: LString)
    ensures Valid(a) && Valid(b) ==> Valid(r)
    ensures r.text == a.text + b.text
  {
    LString(a.text + b.text, a.lines + b.lines, a.positions + b.positions)
  }

  /** `s + other`. A str takes the line and the position of the last
      character (reading them raises IndexError when the lists are empty but
      the text is not), or 0 and 0 after an empty string; any other type
      fails the assertion. */
  function Add(s: LString, other: Operand): (r: Result<LString>)
    ensures other.Other? ==> r == Failure(Python("AssertionError"))
    ensures other.Positioned? ==> r == Success(Concat(s, other.p))
    ensures other.Raw? && Valid(s) ==>
      r.Success? && r.value.text == s.text + other.s && Valid(r.value)
      && r.value.lines[..|s.text|] == s.lines && r.value.positions[..|s.text|] == s.positions
      && forall k :: |s.text| <= k < |r.value.text| ==>
           r.value.lines[k] == (if |s.text| > 0 then s.lines[|s.text| - 1] else 0)
           && r.value.positions[k] == (if |s.text| > 0 then s.positions[|s.text| - 1] else 0)
  {
    match other
    case Other => Failure(Python("AssertionError"))
    case Positioned(p) => Success(Concat(s, p))
    case Raw(u) =>
      if |s.text| > 0 && (|s.lines| == 0 || |s.positions| == 0) then Failure(Python("IndexError"))
      else
        var line := if |s.text| > 0 then s.lines[|s.lines| - 1] else 0;
        var position := if |s.text| > 0 then s.positions[|s.positions| - 1] else 0;
        Success(Concat(s, Uniform(u, line, position)))
  }

  /** `s.insert(index, other)`: `s[:index] + other + s[index:]` after the
      assertion `index <= len(text)`; a str takes the line and the position
      of the character before index, or 0 and 0 when index is not positive. */
  function Insert(s: LString, index: int, other: Operand): (r: Result<LString>) {
    if index > |s.text| then Failure(Python("AssertionError"))
    else
      var piece :-
        match other
        case Raw(u) =>
          if index > 0 then
            (match (Line(s, index - 1), PositionedStrings.PyIndex(|s.positions|, index - 1))
             case (Success(line), Some(k)) => Success(Positioned(Uniform(u, line, s.positions[k])))
             case _ => Failure(Python("IndexError")))
          else Success(Positioned(Uniform(u, 0, 0)))
        case _ => Success(other);
      var left :- Add(Slice(s, None, Some(index)), piece);
      Add(left, Positioned(Slice(s, Some(index), None)))
  }

  /** On an aligned string and an index from 0 to the length, inserting a str
      puts its characters at index, each with the line and position of the
      character before (0 and 0 at the front), keeps the three lists aligned,
      and leaves the rest as it was; an index past the end fails the
      assertion. */
  lemma InsertMeaning(s: LString, index: int, u: string)
    requires Valid(s)
    ensures index > |s.text| ==> Insert(s, index, Raw(u)) == Failure(Python("AssertionError"))
    ensures 0 <= index <= |s.text| ==>
      var r := Insert(s, index, Raw(u));
      var line := if index > 0 then s.lines[index - 1] else 0;
      var position := if index > 0 then s.positions[index - 1] else 0;
      r.Success? && Valid(r.value)
      && r.value.text == s.text[..index] + u + s.text[index..]
      && r.value.lines == s.lines[..index] + seq(|u|, _ => line) + s.lines[index..]
      && r.value.positions == s.positions[..index] + seq(|u|, _ => position) + s.positions[index..]
  {
    if 0 <= index <= |s.text| {
      var line := if index > 0 then s.lines[index - 1] else 0;
      var position := if index > 0 then s.positions[index - 1] else 0;
      var left := Slice(s, None, Some(index));
      assert left == LString(s.text[..index], s.lines[..index], s.positions[..index]);
      var right := Slice(s, Some(index), None);
      assert right == LString(s.text[index..], s.lines[index..], s.positions[index..]);
      assert Uniform(u, line, position).lines == seq(|u|, _ => line);
    }
  }

  // ---------------------------------------------------------------------
  // del

  /** The key of `del s[key]`: an index or a slice without a step. */
  type Key = PositionedStrings.Key

  /** `del s[key]` as written: only a slice key removes characters from the
      text; lines and positions lose the key either way, so deleting an index
      leaves one more character than there are lines. */
  function DeleteAsWritten(s: LString, key: Key): (LString, Outcome) {
    var text := if key.Range? then PositionedStrings.Deleted(s.text, key).value else s.text;
    match PositionedStrings.Deleted(s.lines, key)
    case None => (s.(text := text), Fail(Python("IndexError")))
    case Some(lines) =>
      match PositionedStrings.Deleted(s.positions, key)
      case None => (LString(text, lines, s.positions), Fail(Python("IndexError")))
      case Some(positions) => (LString(text, lines, positions), Pass)
  }

  /** Deleting index 0 of "ab" as written keeps the text "ab" with a single
      line and position left. */
  lemma DeleteIndexUnaligns()
    ensures var s := LString("ab", [0, 0], [0, 1]);
      var (r, outcome) := DeleteAsWritten(s, PositionedStrings.Index(0));
      Valid(s) && outcome == Pass && r.text == "ab" && |r.lines| == 1 && !Valid(r)
  {
  }

  /** `del s[key]` as intended: the same positions leave all three lists. */
  function Delete(s: LString, key: Key): (LString, Outcome) {
    match PositionedStrings.Deleted(s.text, key)
    case None => (s, Fail(Python("IndexError")))
    case Some(text) =>
      match PositionedStrings.Deleted(s.lines, key)
      case None => (s.(text := text), Fail(Python("IndexError")))
      case Some(lines) =>
        match PositionedStrings.Deleted(s.positions, key)
        case None => (LString(text, lines, s.positions), Fail(Python("IndexError")))
        case Some(positions) => (LString(text, lines, positions), Pass)
  }

  /** On an aligned string, deleting raises only for an index out of range,
      leaving the string as it was, and otherwise removes the same positions
      from the text, the lines and the positions. */
  lemma DeleteMeaning(s: LString, key: Key)
    requires Valid(s)
    ensures var (r, outcome) := Delete(s, key);
      (outcome.Fail? <==> key.Index? && PositionedStrings.PyIndex(|s.text|, key.i).None?)
      && (outcome.Fail? ==> r == s)
      && (outcome.Pass? ==>
            var (a, b) := PositionedStrings.RemovedSpan(|s.text|, key);
            a <= b <= |s.text| && Valid(r)
            && r == LString(s.text[..a] + s.text[b..], s.lines[..a] + s.lines[b..], s.positions[..a] + s.positions[b..]))
  {
  }

  /** For a slice key, the only kind the Code class deletes with, the code as
      written and as intended agree. */
  lemma DeleteRangeAgrees(s: LString, start: Option<int>, stop: Option<int>)
    ensures DeleteAsWritten(s, PositionedStrings.Range(start, stop)) == Delete(s, PositionedStrings.Range(start, stop))
  {
  }

  // ---------------------------------------------------------------------
  // Character classes, int(), comparisons, hash

  /** `s.isspace()`: a non-empty text of whitespace only. */
  predicate Blank(s: LString) {
    |s.text| > 0 && forall k :: 0 <= k < |s.text| ==> PositionedStrings.IsSpace(s.text[k])
  }

  /** `int(s)`: the first character as a hex digit; the empty string fails
      on `text[0]`. */
  function Int(s: LString): (r: Result<nat>)
    ensures |s.text| == 0 ==> r == Failure(Python("IndexError"))
    ensures |s.text| > 0 ==> (r.Success? <==> PositionedStrings.HexValue(s.text[0]).Some?)
    ensures r.Success? ==> r.value < 16
  {
    if |s.text| == 0 then Failure(Python("IndexError"))
    else match PositionedStrings.HexValue(s.text[0])
      case Some(v) => Success(v)
      case None => Failure(Python("ValueError"))
  }

  /** The older `int()` reads digits exactly as the newer one does as written. */
  lemma IntAsNewer(s: LString, cs: seq<PositionedStrings.Coordinate>)
    ensures Int(s) == PositionedStrings.IntAsWritten(PositionedStrings.PositionedString(s.text, cs))
  {
  }

  /** `s == other`: a str or a PositionedString compares by text, anything
      else is unequal. */
  predicate Equal(s: LString, other: Operand) {
    match other
    case Raw(u) => s.text == u
    case Positioned(p) => s.text == p.text
    case Other => false
  }

  /** The text another operand of a comparison has; the comparisons other
      than `==` assert that it is a str or a PositionedString. */
  function Compared(other: Operand): (r: Result<string>)
    ensures r.Failure? <==> other.Other?
  {
    match other
    case Raw(u) => Success(u)
    case Positioned(p) => Success(p.text)
    case Other => Failure(Python("AssertionError"))
  }

  /** `s != other`. */
  function NotEqual(s: LString, other: Operand): Result<bool> {
    var t :- Compared(other); Success(s.text != t)
  }

  function Lt(s: LString, other: Operand): Result<bool> {
    var t :- Compared(other); Success(PositionedStrings.Less(s.text, t))
  }

  function Gt(s: LString, other: Operand): Result<bool> {
    var t :- Compared(other); Success(PositionedStrings.Less(t, s.text))
  }

  function Le(s: LString, other: Operand): Result<bool> {
    var t :- Compared(other); Success(!PositionedStrings.Less(t, s.text))
  }

  function Ge(s: LString, other: Operand): Result<bool> {
    var t :- Compared(other); Success(!PositionedStrings.Less(s.text, t))
  }

  /** The comparisons look at the text only. `!=` and `==` are opposite on
      strs and PositionedStrings, but `!=` raises for any other object where
      `==` answers False; exactly one of <, == and > holds, and <= and >= are
      the strict orders or the equality. */
  lemma ComparisonsOnText(s: LString, other: Operand)
    ensures other.Other? ==> (!Equal(s, other) && NotEqual(s, other).Failure?
      && Lt(s, other).Failure? && Le(s, other).Failure? && Gt(s, other).Failure? && Ge(s, other).Failure?)
    ensures !other.Other? ==> (
      var eq := Equal(s, other);
      NotEqual(s, other) == Success(!eq)
      && (Lt(s, other).value || eq || Gt(s, other).value)
      && !(Lt(s, other).value && Gt(s, other).value)
      && (eq ==> !Lt(s, other).value && !Gt(s, other).value)
      && (Le(s, other).value <==> Lt(s, other).value || eq)
      && (Ge(s, other).value <==> Gt(s, other).value || eq))
  {
    if !other.Other? {
      PositionedStrings.LessTrichotomy(s.text, Compared(other).value);
    }
  }

  /** The key `__hash__` hashes: the text, so strings equal under `==` hash alike. */
  function HashKey(s: LString): string {
    s.text
  }

  lemma HashFollowsEquality(a: LString, b: LString)
    requires Equal(a, Positioned(b))
    ensures HashKey(a) == HashKey(b)
  {
  }
}
