/**
 * A string in which every character carries the coordinate (line, column) it
 * had in the source text, so that a piece of code can be cut, joined and
 * rearranged while each character still knows where it came from.
 *
 * `PositionedString` is the value: its text and the list of coordinates,
 * meant to be of equal length (`Valid`). Slicing, `+`, `insert`, `int()` and
 * the comparisons build or inspect values; `__delitem__`, the one operation
 * that changes a string in place, is a method of the `StringObject` class.
 * Python's indexing and slicing rules (negative positions counting from the
 * end, slice bounds clipped to the length) are written out here because every
 * text utility depends on them.
 */
module PositionedStrings {
  import opened Wrappers

  datatype Coordinate = Coordinate(line: int, column: int)

  datatype PositionedString = PositionedString(text: string, coordinates: seq<Coordinate>)

  /** The right operand of `+`, `insert` and the orderings: a builtin str or a PositionedString. */
  datatype Text = Plain(s: string) | Positioned(p: PositionedString)

  /** The right operand of `==` and `!=`, which accept any object. `__eq__`
      tests `type(other) == PositionedString`, so an instance of a subclass
      (a CodeObject or a Token) is told apart from a PositionedString proper. */
  datatype Operand = Str(s: string) | Exact(p: PositionedString) | Subclass(q: PositionedString) | Foreign

  /** One coordinate per character, the invariant every operation keeps. */
  predicate Valid(s: PositionedString) {
    |s.coordinates| == |s.text|
  }

  function EmptyString(): PositionedString {
    PositionedString("", [])
  }

  /** `str(other)`: the text of either kind of operand. */
  function TextOf(t: Text): string {
    match t
    case Plain(s) => s
    case Positioned(p) => p.text
  }

  // ---------------------------------------------------------------------
  // Python indexing and slicing

  /** Position denoted by index i into a sequence of length n, or None when
      Python raises IndexError. */
  function PyIndex(n: nat, i: int): (r: Option<nat>)
    ensures r.Some? <==> -(n as int) <= i < n
    ensures r.Some? ==> r.value < n && (r.value == i || r.value == i + n)
  {
    if 0 <= i < n then Some(i) else if -(n as int) <= i < 0 then Some(i + n) else None
  }

  /** A slice bound: absent means the default, a negative bound counts from
      the end, and the result is clipped to 0..n. */
  function SliceBound(n: nat, i: Option<int>, default: nat): (r: nat)
    requires default <= n
    ensures r <= n
    ensures i.Some? && 0 <= i.value <= n ==> r == i.value
    ensures i.Some? && -(n as int) <= i.value < 0 ==> r == i.value + n
  {
    match i
    case None => default
    case Some(k) => if k < 0 then (if k + n < 0 then 0 else k + n) else if k > n then n else k
  }

  /** `s[start:stop]` with no step. */
  function SliceOf<T>(s: seq<T>, start: Option<int>, stop: Option<int>): (r: seq<T>)
    ensures |r| <= |s|
    ensures forall k :: 0 <= k < |r| ==> SliceBound(|s|, start, 0) + k < |s| && r[k] == s[SliceBound(|s|, start, 0) + k]
    ensures start.None? ==> r == s[..SliceBound(|s|, stop, |s|)]
    ensures stop.None? ==> r == s[SliceBound(|s|, start, 0)..]
  {
    Sliced(s, start, stop)
  }

  /** The window `s[start:stop]` selects, without the facts SliceOf states
      about it (for uses that only compare it). */
  function Sliced<T>(s: seq<T>, start: Option<int>, stop: Option<int>): seq<T> {
    var a := SliceBound(|s|, start, 0);
    var b := SliceBound(|s|, stop, |s|);
    if a < b then s[a..b] else []
  }

  // ---------------------------------------------------------------------
  // create_string

  /** The characters `str.splitlines` breaks lines at. */
  predicate IsBreak(c: char) {
    var n := c as int;
    n == 10 || n == 11 || n == 12 || n == 13 || n == 0x1C || n == 0x1D || n == 0x1E
    || n == 0x85 || n == 0x2028 || n == 0x2029
  }

  predicate NoBreaks(s: string) {
    forall i :: 0 <= i < |s| ==> !IsBreak(s[i])
  }

  /** Index of the first line break in s, or |s| when there is none. */
  function LineEnd(s: string): (k: nat)
    ensures k <= |s|
    ensures NoBreaks(s[..k])
    ensures k < |s| ==> IsBreak(s[k])
  {
    if |s| == 0 || IsBreak(s[0]) then 0
    else
      var k := 1 + LineEnd(s[1..]);
      assert s[..k] == [s[0]] + s[1..][..k - 1];
      k
  }

  /** Length of the break at position k: "\r\n" counts as one break. */
  function BreakWidth(s: string, k: nat): (w: nat)
    requires k < |s|
    ensures 1 <= w <= 2 && k + w <= |s|
  {
    if s[k] == '\r' && k + 1 < |s| && s[k + 1] == '\n' then 2 else 1
  }

  /** `str.splitlines(keepends=False)`: the lines without their breaks; a
      final break does not start another line. */
  function SplitLines(s: string): seq<string>
    decreases |s|
  {
    if |s| == 0 then []
    else
      var k := LineEnd(s);
      if k == |s| then [s]
      else [s[..k]] + SplitLines(s[k + BreakWidth(s, k)..])
  }

  /** The coordinates of a line of `width` characters on line `line`. */
  function Row(line: int, width: nat): (r: seq<Coordinate>)
    ensures |r| == width
    ensures forall j :: 0 <= j < width ==> r[j] == Coordinate(line, j)
  {
    seq(width, j => Coordinate(line, j))
  }

  /** The string `create_string` builds from its lines, the first of them
      numbered `first`: the lines one after another, character j of line i at
      coordinate (first + i, j). */
  function Layout(lines: seq<string>, first: int): PositionedString
    decreases |lines|
  {
    if |lines| == 0 then EmptyString()
    else
      var init := Layout(lines[..|lines| - 1], first);
      var last := lines[|lines| - 1];
      PositionedString(init.text + last, init.coordinates + Row(first + |lines| - 1, |last|))
  }

  /** `PositionedString.create_string(text, line)`. */
  method CreateString(text: string, line: int) returns (r: PositionedString)
    ensures r == Layout(SplitLines(text), line)
  {
    var lines := SplitLines(text);
    var chars := "";
    var coordinates: seq<Coordinate> := [];
    for i := 0 to |lines|
      invariant PositionedString(chars, coordinates) == Layout(lines[..i], line)
    {
      ghost var before := Layout(lines[..i], line);
      for j := 0 to |lines[i]|
        invariant chars == before.text + lines[i][..j]
        invariant coordinates == before.coordinates + Row(line + i, j)
      {
        assert lines[i][..j + 1] == lines[i][..j] + [lines[i][j]];
        assert Row(line + i, j + 1) == Row(line + i, j) + [Coordinate(i + line, j)];
        chars := chars + [lines[i][j]];
        coordinates := coordinates + [Coordinate(i + line, j)];
      }
      assert lines[..i + 1][..i] == lines[..i];
      assert lines[i][..|lines[i]|] == lines[i];
    }
    assert lines[..|lines|] == lines;
    r := PositionedString(chars, coordinates);
  }

  /** The lines one after another. */
  function Joined(lines: seq<string>): string
    decreases |lines|
  {
    if |lines| == 0 then "" else Joined(lines[..|lines| - 1]) + lines[|lines| - 1]
  }

  /** The text with every line break left out: the independent account of
      what `create_string` keeps. */
  function RemoveBreaks(s: string): string
    decreases |s|
  {
    if |s| == 0 then "" else (if IsBreak(s[0]) then "" else [s[0]]) + RemoveBreaks(s[1..])
  }

  lemma {:induction false} JoinedCons(a: string, lines: seq<string>)
    ensures Joined([a] + lines) == a + Joined(lines)
    decreases |lines|
  {
    if |lines| == 0 {
      assert [a] + lines == [a];
      assert Joined([a]) == Joined([]) + a;
    } else {
      var init := lines[..|lines| - 1];
      assert ([a] + lines)[..|[a] + lines| - 1] == [a] + init;
      JoinedCons(a, init);
    }
  }

  lemma {:induction false} RemoveBreaksAppend(a: string, b: string)
    ensures RemoveBreaks(a + b) == RemoveBreaks(a) + RemoveBreaks(b)
    decreases |a|
  {
    if |a| > 0 {
      assert (a + b)[1..] == a[1..] + b;
      RemoveBreaksAppend(a[1..], b);
    } else {
      assert a + b == b;
    }
  }

  lemma {:induction false} RemoveBreaksKeeps(a: string)
    requires NoBreaks(a)
    ensures RemoveBreaks(a) == a
    decreases |a|
  {
    if |a| > 0 {
      assert NoBreaks(a[1..]) by {
        forall i | 0 <= i < |a[1..]| ensures !IsBreak(a[1..][i]) {
          assert a[1..][i] == a[i + 1];
        }
      }
      RemoveBreaksKeeps(a[1..]);
      assert a == [a[0]] + a[1..];
    }
  }

  /** No line `splitlines` returns holds a break. */
  lemma {:induction false} SplitLinesNoBreaks(s: string)
    ensures forall i :: 0 <= i < |SplitLines(s)| ==> NoBreaks(SplitLines(s)[i])
    decreases |s|
  {
    if |s| > 0 {
      var k := LineEnd(s);
      if k == |s| {
        assert s[..k] == s;
      } else {
        var rest := s[k + BreakWidth(s, k)..];
        SplitLinesNoBreaks(rest);
        var lines := SplitLines(s);
        assert lines == [s[..k]] + SplitLines(rest);
        forall i | 0 <= i < |lines| ensures NoBreaks(lines[i]) {
          if i > 0 {
            assert lines[i] == SplitLines(rest)[i - 1];
          }
        }
      }
    }
  }

  /** A break-free prefix passes through RemoveBreaks unchanged. */
  lemma {:induction false} RemoveBreaksPrefix(s: string, k: nat)
    requires k <= |s| && NoBreaks(s[..k])
    ensures RemoveBreaks(s) == s[..k] + RemoveBreaks(s[k..])
    decreases k
  {
    if k > 0 {
      assert !IsBreak(s[..k][0]);
      assert s[1..][..k - 1] == s[..k][1..];
      assert NoBreaks(s[1..][..k - 1]);
      RemoveBreaksPrefix(s[1..], k - 1);
      assert s[1..][k - 1..] == s[k..];
      assert s[..k] == [s[0]] + s[1..][..k - 1];
    }
  }

  /** Joining the lines gives back the text without its breaks. */
  lemma {:induction false} SplitLinesJoin(s: string)
    ensures Joined(SplitLines(s)) == RemoveBreaks(s)
    decreases |s|
  {
    if |s| > 0 {
      var k := LineEnd(s);
      RemoveBreaksPrefix(s, k);
      if k == |s| {
        assert s[..k] == s;
        assert Joined([s]) == Joined([]) + s;
      } else {
        var w := BreakWidth(s, k);
        var rest := s[k + w..];
        assert s[k..][1..] == s[k + 1..];
        if w == 2 {
          assert s[k + 1..][0] == '\n';
          assert s[k + 1..][1..] == rest;
        }
        assert RemoveBreaks(s[k..]) == RemoveBreaks(rest);
        SplitLinesJoin(rest);
        JoinedCons(s[..k], SplitLines(rest));
      }
    }
  }

  /** The laid-out string has one coordinate per character and its text is
      the lines joined. */
  lemma {:induction false} LayoutShape(lines: seq<string>, first: int)
    ensures Valid(Layout(lines, first))
    ensures Layout(lines, first).text == Joined(lines)
    decreases |lines|
  {
    if |lines| > 0 {
      LayoutShape(lines[..|lines| - 1], first);
    }
  }

  /** Every character sits at the coordinate of the line and column it was
      taken from. */
  lemma {:induction false} LayoutPositions(lines: seq<string>, first: int)
    ensures var r := Layout(lines, first);
      forall k :: 0 <= k < |r.coordinates| ==>
        first <= r.coordinates[k].line < first + |lines|
        && 0 <= r.coordinates[k].column < |lines[r.coordinates[k].line - first]|
        && k < |r.text|
        && lines[r.coordinates[k].line - first][r.coordinates[k].column] == r.text[k]
    decreases |lines|
  {
    if |lines| > 0 {
      var n := |lines|;
      var init := lines[..n - 1];
      LayoutPositions(init, first);
      LayoutShape(init, first);
      var before := Layout(init, first);
      var r := Layout(lines, first);
      forall k | 0 <= k < |r.coordinates|
        ensures first <= r.coordinates[k].line < first + n
        ensures 0 <= r.coordinates[k].column < |lines[r.coordinates[k].line - first]|
        ensures k < |r.text|
        ensures lines[r.coordinates[k].line - first][r.coordinates[k].column] == r.text[k]
      {
        if k < |before.coordinates| {
          assert r.coordinates[k] == before.coordinates[k];
          assert r.text[k] == before.text[k];
          assert init[r.coordinates[k].line - first] == lines[r.coordinates[k].line - first];
        } else {
          var j := k - |before.coordinates|;
          assert r.coordinates[k] == Row(first + n - 1, |lines[n - 1]|)[j];
          assert r.text[k] == lines[n - 1][j];
        }
      }
    }
  }

  /** (line, column) ordering of coordinates. */
  predicate Before(a: Coordinate, b: Coordinate) {
    a.line < b.line || (a.line == b.line && a.column < b.column)
  }

  /** The coordinates run strictly forward through the text. */
  lemma {:induction false} LayoutOrdered(lines: seq<string>, first: int)
    ensures var cs := Layout(lines, first).coordinates;
      forall k1, k2 :: 0 <= k1 < k2 < |cs| ==> Before(cs[k1], cs[k2])
    decreases |lines|
  {
    if |lines| > 0 {
      var n := |lines|;
      var init := lines[..n - 1];
      LayoutOrdered(init, first);
      LayoutPositions(init, first);
      var before := Layout(init, first).coordinates;
      var cs := Layout(lines, first).coordinates;
      forall k | 0 <= k < |before| ensures before[k].line < first + n - 1 {
        assert |init| == n - 1;
        assert Layout(init, first).coordinates[k] == before[k];
      }
      assert cs == before + Row(first + n - 1, |lines[n - 1]|);
      forall k1, k2 | 0 <= k1 < k2 < |cs| ensures Before(cs[k1], cs[k2]) {
        if k2 < |before| {
          assert cs[k1] == before[k1] && cs[k2] == before[k2];
        } else if k1 < |before| {
          assert cs[k1] == before[k1];
          assert before[k1].line < first + n - 1;
          assert cs[k2] == Row(first + n - 1, |lines[n - 1]|)[k2 - |before|];
        } else {
          assert cs[k1] == Row(first + n - 1, |lines[n - 1]|)[k1 - |before|];
          assert cs[k2] == Row(first + n - 1, |lines[n - 1]|)[k2 - |before|];
        }
      }
    }
  }

  /** What `create_string` makes of a text: every break removed, one
      coordinate per remaining character, each character found again at its
      coordinate among the text's lines (numbered from `line`), and the
      coordinates in reading order. */
  lemma CreateStringMeaning(text: string, line: int)
    ensures var r := Layout(SplitLines(text), line);
      Valid(r) && r.text == RemoveBreaks(text) && NoBreaks(r.text)
      && (forall k :: 0 <= k < |r.coordinates| ==>
            line <= r.coordinates[k].line < line + |SplitLines(text)|
            && 0 <= r.coordinates[k].column < |SplitLines(text)[r.coordinates[k].line - line]|
            && SplitLines(text)[r.coordinates[k].line - line][r.coordinates[k].column] == r.text[k])
      && (forall k1, k2 :: 0 <= k1 < k2 < |r.coordinates| ==> Before(r.coordinates[k1], r.coordinates[k2]))
  {
    var lines := SplitLines(text);
    LayoutShape(lines, line);
    SplitLinesJoin(text);
    LayoutPositions(lines, line);
    LayoutOrdered(lines, line);
    SplitLinesNoBreaks(text);
    var r := Layout(lines, line);
    forall i | 0 <= i < |r.text| ensures !IsBreak(r.text[i]) {
      var c := r.coordinates[i];
      assert NoBreaks(lines[c.line - line]);
    }
  }

  /** A text of line breaks only gives the empty string. */
  lemma CreateStringBlank()
    ensures Layout(SplitLines("\n\n\n"), 0) == EmptyString()
  {
    CreateStringMeaning("\n\n\n", 0);
    assert "\n\n\n"[1..] == "\n\n" && "\n\n"[1..] == "\n" && "\n"[1..] == "";
    assert RemoveBreaks("\n\n\n") == "";
  }

  lemma SplitLinesEmptyLine()
    ensures SplitLines("a\r\n\rb") == ["a", "", "b"]
  {
    var s := "a\r\n\rb";
    assert s[1..] == "\r\n\rb";
    assert LineEnd(s[1..]) == 0;
    assert LineEnd(s) == 1;
    assert BreakWidth(s, 1) == 2;
    assert s[3..] == "\rb" && s[..1] == "a";
    assert "\rb"[1..] == "b" && "b"[1..] == "";
    assert LineEnd("\rb") == 0 && LineEnd("b") == 1;
    assert SplitLines("\rb") == [""] + SplitLines("b");
  }

  /** "\r\n" is one break, and an empty line still counts as a line. */
  lemma CreateStringEmptyLine()
    ensures Layout(SplitLines("a\r\n\rb"), 0)
         == PositionedString("ab", [Coordinate(0, 0), Coordinate(2, 0)])
  {
    SplitLinesEmptyLine();
    LayoutEmptyLine();
  }

  lemma LayoutEmptyLine()
    ensures Layout(["a", "", "b"], 0) == PositionedString("ab", [Coordinate(0, 0), Coordinate(2, 0)])
  {
    LayoutOneTwo();
    var lines := ["a", "", "b"];
    assert lines[..2] == ["a", ""];
    assert Row(2, 1) == [Coordinate(2, 0)];
    assert Layout(lines, 0) == PositionedString("a" + "b", [Coordinate(0, 0)] + [Coordinate(2, 0)]);
  }

  lemma LayoutOneTwo()
    ensures Layout(["a", ""], 0) == PositionedString("a", [Coordinate(0, 0)])
  {
    var one := ["a"];
    assert one[..0] == [];
    assert Row(0, 1) == [Coordinate(0, 0)];
    assert Layout(one, 0) == PositionedString("a", [Coordinate(0, 0)]);
    var two := ["a", ""];
    assert two[..1] == one;
    assert Row(1, 0) == [];
  }

  // ---------------------------------------------------------------------
  // Indexing, slicing, +, insert

  /** `s[key]` for an integer key: a one-character string, or IndexError
      when the key is out of range of the text or of the coordinates. */
  function At(s: PositionedString, key: int): (r: Result<PositionedString>)
    ensures r.Success? <==> PyIndex(|s.text|, key).Some? && PyIndex(|s.coordinates|, key).Some?
    ensures r.Success? ==> Valid(r.value) && |r.value.text| == 1
    ensures r.Failure? ==> r.error == Python("IndexError")
    ensures Valid(s) && 0 <= key < |s.text| ==>
      r == Success(PositionedString([s.text[key]], [s.coordinates[key]]))
  {
    match (PyIndex(|s.text|, key), PyIndex(|s.coordinates|, key))
    case (Some(i), Some(j)) => Success(PositionedString([s.text[i]], [s.coordinates[j]]))
    case _ => Failure(Python("IndexError"))
  }

  /** `s[start:stop]`: text and coordinates sliced alike. */
  function Slice(s: PositionedString, start: Option<int>, stop: Option<int>): (r: PositionedString)
    ensures r.text == SliceOf(s.text, start, stop)
    ensures Valid(s) ==> Valid(r)
  {
    PositionedString(SliceOf(s.text, start, stop), SliceOf(s.coordinates, start, stop))
  }

  /** `a + b` for two PositionedStrings. */
  function Concat(a: PositionedString, b: PositionedString): (r: PositionedString)
    ensures Valid(a) && Valid(b) ==> Valid(r)
    ensures |r.text| == |a.text| + |b.text|
  {
    PositionedString(a.text + b.text, a.coordinates + b.coordinates)
  }

  /** The coordinate `+` gives each added character of a plain str: the last
      coordinate with its column moved one on, or (0, 0) after an empty string. */
  function Following(s: PositionedString): Coordinate
    requires |s.text| > 0 ==> |s.coordinates| > 0
  {
    if |s.text| > 0 then
      var last := s.coordinates[|s.coordinates| - 1];
      Coordinate(last.line, last.column + 1)
    else Coordinate(0, 0)
  }

  /** `s + t`. Adding a str reads the last coordinate, which raises
      IndexError when the text is non-empty but the coordinates are. */
  function Add(s: PositionedString, t: Text): (r: Result<PositionedString>)
    ensures r.Success? <==> t.Positioned? || |s.text| == 0 || |s.coordinates| > 0
    ensures r.Success? ==> r.value.text == s.text + TextOf(t)
    ensures r.Success? ==> |s.coordinates| <= |r.value.coordinates|
    ensures r.Success? ==> r.value.coordinates[..|s.coordinates|] == s.coordinates
    ensures r.Success? && t.Plain? ==>
      |r.value.coordinates| == |s.coordinates| + |t.s|
      && forall k :: |s.coordinates| <= k < |r.value.coordinates| ==> r.value.coordinates[k] == Following(s)
    ensures r.Success? && t.Positioned? ==> r.value.coordinates[|s.coordinates|..] == t.p.coordinates
    ensures r.Success? && Valid(s) && (t.Positioned? ==> Valid(t.p)) ==> Valid(r.value)
  {
    match t
    case Positioned(p) => Success(Concat(s, p))
    case Plain(u) =>
      if |s.text| > 0 && |s.coordinates| == 0 then Failure(Python("IndexError"))
      else Success(Concat(s, PositionedString(u, seq(|u|, _ => Following(s)))))
  }

  /** Where `insert` puts the new text: a negative index counts from one past
      the end, so -1 appends. */
  function InsertionPoint(n: nat, index: int): (j: nat)
    requires -(n + 1) <= index <= n
    ensures j <= n
  {
    if index < 0 then index + n + 1 else index
  }

  /** `s.insert(index, t)`: `s[:index] + t + s[index:]`, after the assertion
      that index lies in -(len+1)..len. */
  function Insert(s: PositionedString, index: int, t: Text): (r: Result<PositionedString>)
  {
    var n := |s.text|;
    if !(-(n + 1) <= index <= n) then Failure(Python("AssertionError"))
    else
      var j := InsertionPoint(n, index);
      var left :- Add(Slice(s, None, Some(j)), t);
      Success(Concat(left, Slice(s, Some(j), None)))
  }

  /** On a valid string, `insert` succeeds exactly for the indices the
      assertion allows, places the new text at the insertion point on both
      lists, and gives the characters of an inserted str the coordinate after
      the preceding character. */
  lemma InsertMeaning(s: PositionedString, index: int, t: Text)
    requires Valid(s)
    requires t.Positioned? ==> Valid(t.p)
    ensures var r := Insert(s, index, t); var n := |s.text|;
      (r.Success? <==> -(n + 1) <= index <= n)
      && (r.Failure? ==> r.error == Python("AssertionError"))
      && (r.Success? ==>
            var j := InsertionPoint(n, index);
            Valid(r.value)
            && r.value.text == s.text[..j] + TextOf(t) + s.text[j..]
            && r.value.coordinates[..j] == s.coordinates[..j]
            && r.value.coordinates[j + |TextOf(t)|..] == s.coordinates[j..]
            && (t.Positioned? ==> r.value.coordinates[j..j + |t.p.text|] == t.p.coordinates)
            && (t.Plain? ==> forall k :: j <= k < j + |t.s| ==>
                  r.value.coordinates[k] == Following(PositionedString(s.text[..j], s.coordinates[..j]))))
  {
    var n := |s.text|;
    if -(n + 1) <= index <= n {
      var j := InsertionPoint(n, index);
      var left := Slice(s, None, Some(j));
      assert left == PositionedString(s.text[..j], s.coordinates[..j]);
      var right := Slice(s, Some(j), None);
      assert right == PositionedString(s.text[j..], s.coordinates[j..]);
      var mid := Add(left, t).value;
      assert |mid.coordinates| == j + |TextOf(t)|;
      var r := Concat(mid, right);
      assert r.coordinates[..j] == mid.coordinates[..j];
      assert r.coordinates[j + |TextOf(t)|..] == right.coordinates;
    }
  }

  // ---------------------------------------------------------------------
  // isspace()

  /** `str.isspace` on one character: the characters Python counts as
      whitespace. */
  predicate IsSpace(ch: char) {
    var k := ch as int;
    9 <= k <= 13 || 28 <= k <= 32 || k == 0x85 || k == 0xA0 || k == 0x1680
    || 0x2000 <= k <= 0x200A || k == 0x2028 || k == 0x2029 || k == 0x202F || k == 0x205F || k == 0x3000
  }

  /** `s.isspace()`: a non-empty text of whitespace only. */
  predicate Blank(s: PositionedString) {
    |s.text| > 0 && forall k :: 0 <= k < |s.text| ==> IsSpace(s.text[k])
  }

  // ---------------------------------------------------------------------
  // int(), line(), comparisons

  /** Value of a hexadecimal digit in either case. */
  function HexValue(c: char): (r: Option<nat>)
    ensures r.Some? ==> r.value < 16
    ensures r.Some? <==> '0' <= c <= '9' || 'a' <= c <= 'f' || 'A' <= c <= 'F'
  {
    if '0' <= c <= '9' then Some(c as int - '0' as int)
    else if 'a' <= c <= 'f' then Some(c as int - 'a' as int + 10)
    else if 'A' <= c <= 'F' then Some(c as int - 'A' as int + 10)
    else None
  }

  /** The digit that writes v, in lower or upper case: the inverse of HexValue. */
  function HexDigit(v: nat, upper: bool): (c: char)
    requires v < 16
    ensures HexValue(c) == Some(v)
  {
    if v < 10 then ('0' as int + v) as char
    else if upper then ('A' as int + v - 10) as char
    else ('a' as int + v - 10) as char
  }

  /** `int(s)` as written: the empty string fails on `self.text[0]` with
      IndexError before the hex test is reached. */
  function IntAsWritten(s: PositionedString): (r: Result<nat>)
    ensures |s.text| == 0 ==> r == Failure(Python("IndexError"))
    ensures |s.text| > 0 ==> (r.Success? <==> HexValue(s.text[0]).Some?)
  {
    if |s.text| == 0 then Failure(Python("IndexError"))
    else match HexValue(s.text[0])
      case Some(v) => Success(v)
      case None => Failure(Python("ValueError"))
  }

  /** `int(s)` as intended: the value of the first character as a hex digit,
      and ValueError for any string that does not start with one, the empty
      string included. */
  function Int(s: PositionedString): (r: Result<nat>)
    ensures r.Success? <==> |s.text| > 0 && HexValue(s.text[0]).Some?
    ensures r.Success? ==> r.value < 16 && Some(r.value) == HexValue(s.text[0])
    ensures r.Failure? ==> r.error == Python("ValueError")
  {
    if |s.text| > 0 && HexValue(s.text[0]).Some? then Success(HexValue(s.text[0]).value)
    else Failure(Python("ValueError"))
  }

  /** The two agree on every non-empty string; on the empty one the error
      differs. */
  lemma IntAsWrittenDiffers(s: PositionedString)
    ensures |s.text| > 0 ==> IntAsWritten(s) == Int(s)
    ensures IntAsWritten(EmptyString()) != Int(EmptyString())
  {
  }

  /** A string starting with the digit of v reads back as v, whatever follows. */
  lemma IntOfDigit(v: nat, upper: bool, rest: string, coordinates: seq<Coordinate>)
    requires v < 16
    ensures Int(PositionedString([HexDigit(v, upper)] + rest, coordinates)) == Success(v)
  {
    assert ([HexDigit(v, upper)] + rest)[0] == HexDigit(v, upper);
  }

  /** `s.line(index)`: the line of the coordinate at index. */
  function Line(s: PositionedString, index: int): (r: Result<int>)
    ensures r.Success? <==> -|s.coordinates| <= index < |s.coordinates|
    ensures 0 <= index < |s.coordinates| ==> r == Success(s.coordinates[index].line)
    ensures -|s.coordinates| <= index < 0 ==> r == Success(s.coordinates[|s.coordinates| + index].line)
  {
    match PyIndex(|s.coordinates|, index)
    case Some(i) => Success(s.coordinates[i].line)
    case None => Failure(Python("IndexError"))
  }

  /** `__eq__`: a str or an exact PositionedString compares by text; any
      other object, a subclass instance included, is unequal. */
  predicate Equal(s: PositionedString, other: Operand) {
    match other
    case Str(t) => s.text == t
    case Exact(p) => s.text == p.text
    case _ => false
  }

  /** `__ne__`: like `__eq__`, but any other object compares as different. */
  predicate NotEqual(s: PositionedString, other: Operand) {
    match other
    case Str(t) => s.text != t
    case Exact(p) => s.text != p.text
    case _ => true
  }

  /** `__ne__` is the negation of `__eq__` for every operand, and equality
      looks at the text only: the coordinates never matter. */
  lemma EqualityOnText(s: PositionedString, other: Operand)
    ensures NotEqual(s, other) <==> !Equal(s, other)
    ensures other.Str? ==> (Equal(s, other) <==> s.text == other.s)
    ensures other.Exact? ==> (Equal(s, other) <==> s.text == other.p.text)
    ensures other.Subclass? ==> !Equal(s, other)
  {
  }

  /** Python's str ordering: lexicographic by code point, a proper prefix first. */
  predicate Less(a: string, b: string)
    decreases |a|
  {
    if |a| == 0 then |b| > 0
    else if |b| == 0 then false
    else if a[0] != b[0] then a[0] < b[0]
    else Less(a[1..], b[1..])
  }

  predicate Lt(s: PositionedString, t: Text) { Less(s.text, TextOf(t)) }
  predicate Gt(s: PositionedString, t: Text) { Less(TextOf(t), s.text) }
  predicate Le(s: PositionedString, t: Text) { !Less(TextOf(t), s.text) }
  predicate Ge(s: PositionedString, t: Text) { !Less(s.text, TextOf(t)) }

  lemma {:induction false} LessTrichotomy(a: string, b: string)
    ensures Less(a, b) || a == b || Less(b, a)
    ensures !(Less(a, b) && Less(b, a))
    ensures !Less(a, a)
    decreases |a|
  {
    if |a| > 0 && |b| > 0 {
      LessTrichotomy(a[1..], b[1..]);
      if a[0] == b[0] && a[1..] == b[1..] {
        assert a == [a[0]] + a[1..] && b == [b[0]] + b[1..];
      }
    }
    if |a| > 0 {
      LessTrichotomy(a[1..], a[1..]);
    }
  }

  /** Exactly one of <, == and > holds between a string and the other
      operand, and <= and >= are the strict orders or the text equality. */
  lemma OrderingOnText(s: PositionedString, t: Text)
    ensures Lt(s, t) || s.text == TextOf(t) || Gt(s, t)
    ensures !(Lt(s, t) && Gt(s, t))
    ensures s.text == TextOf(t) ==> !Lt(s, t) && !Gt(s, t)
    ensures Le(s, t) <==> Lt(s, t) || s.text == TextOf(t)
    ensures Ge(s, t) <==> Gt(s, t) || s.text == TextOf(t)
  {
    LessTrichotomy(s.text, TextOf(t));
  }

  /** The key `__hash__` hashes: the text. Strings equal under `==` have
      equal keys. */
  function HashKey(s: PositionedString): string {
    s.text
  }

  lemma HashFollowsEquality(a: PositionedString, b: PositionedString)
    requires Equal(a, Exact(b))
    ensures HashKey(a) == HashKey(b)
  {
  }

  // ---------------------------------------------------------------------
  // __delitem__

  /** The key of `del s[key]`: an index or a slice without a step. */
  datatype Key = Index(i: int) | Range(start: Option<int>, stop: Option<int>)

  /** `del xs[key]` on a list: None when Python raises IndexError. */
  function Deleted<T>(xs: seq<T>, key: Key): (r: Option<seq<T>>)
    ensures key.Range? ==> r.Some?
    ensures key.Index? ==> (r.Some? <==> PyIndex(|xs|, key.i).Some?)
  {
    match key
    case Index(i) =>
      (match PyIndex(|xs|, i)
       case Some(j) => Some(xs[..j] + xs[j + 1..])
       case None => None)
    case Range(start, stop) =>
      var a := SliceBound(|xs|, start, 0);
      var b := SliceBound(|xs|, stop, |xs|);
      if a < b then Some(xs[..a] + xs[b..]) else Some(xs)
  }

  /** The state `__delitem__` leaves and whether it raised: the text is
      reassigned before the coordinates are deleted, so an index valid for
      the text but not for the coordinates changes the text and then raises. */
  function DeleteItem(s: PositionedString, key: Key): (PositionedString, Outcome) {
    match Deleted(s.text, key)
    case None => (s, Fail(Python("IndexError")))
    case Some(text) =>
      match Deleted(s.coordinates, key)
      case None => (s.(text := text), Fail(Python("IndexError")))
      case Some(coordinates) => (PositionedString(text, coordinates), Pass)
  }

  /** The positions `del` removes from a sequence of length n: a..b. */
  function RemovedSpan(n: nat, key: Key): (nat, nat)
    requires key.Index? ==> PyIndex(n, key.i).Some?
  {
    match key
    case Index(i) => var j := PyIndex(n, i).value; (j, j + 1)
    case Range(start, stop) =>
      var a := SliceBound(n, start, 0);
      var b := SliceBound(n, stop, n);
      if a < b then (a, b) else (a, a)
  }

  /** On a valid string, deleting succeeds unless an index is out of range,
      in which case nothing changes, and it removes the same positions from
      the text and from the coordinates, keeping them aligned. */
  lemma DeleteItemMeaning(s: PositionedString, key: Key)
    requires Valid(s)
    ensures var (r, outcome) := DeleteItem(s, key);
      (outcome.Fail? <==> key.Index? && PyIndex(|s.text|, key.i).None?)
      && (outcome.Fail? ==> r == s)
      && (outcome.Pass? ==>
            var (a, b) := RemovedSpan(|s.text|, key);
            a <= b <= |s.text|
            && r.text == s.text[..a] + s.text[b..]
            && r.coordinates == s.coordinates[..a] + s.coordinates[b..]
            && Valid(r))
  {
  }

  /** A PositionedString object, whose fields `del` updates in place. */
  class StringObject {
    var text: string
    var coordinates: seq<Coordinate>

    function Value(): PositionedString
      reads this
    {
      PositionedString(text, coordinates)
    }

    constructor (s: PositionedString)
      ensures Value() == s
    {
      text := s.text;
      coordinates := s.coordinates;
    }

    /** `del self[key]`. */
    method Delete(key: Key) returns (outcome: Outcome)
      modifies this
      ensures (Value(), outcome) == DeleteItem(old(Value()), key)
    {
      ghost var before := Value();
      var chars := Deleted(text, key);
      if chars.None? {
        return Fail(Python("IndexError"));
      }
      text := chars.value;
      var cs := Deleted(coordinates, key);
      if cs.None? {
        assert Deleted(before.coordinates, key).None?;
        return Fail(Python("IndexError"));
      }
      coordinates := cs.value;
      outcome := Pass;
    }
  }
}
