/**
 * The LinedCode of the older all-in-one text module: the text cut into its
 * lines, each a Code of its own with the whitespace at its ends stripped,
 * and the index of the line being read. Lines that are whitespace only are
 * dropped; reading and moving go to the current line and never beyond it,
 * and `advanceline` goes on to the next line once the current one is read.
 *
 * The lines are held as `Cur` values (a string and an offset), which is
 * what each Code of the list amounts to: no other object refers to them.
 */
module CStringLined {
  import opened Wrappers
  import PositionedStrings
  import opened CStringText
  import opened CStringCode

  // ---------------------------------------------------------------------
  // Cutting the text into lines

  /** The string the lines are cut from: a str laid out without its line
      breaks, or a PositionedString as it is. */
  function Source(t: Input): (r: LString)
    ensures t.FromStr? ==> Valid(r)
    ensures t.FromString? ==> r == t.p
  {
    match t
    case FromStr(s) => CreateString(s, 0)
    case FromString(p) => p
  }

  /** Every character from `last` up to i is on line `lineno`. */
  predicate OnLine(t: LString, last: nat, i: nat, lineno: int)
    requires Valid(t) && last <= i <= |t.text|
  {
    forall k :: last <= k < i ==> t.lines[k] == lineno
  }

  /** The pieces the constructor's loop cuts out from character i on,
      `last` being where the piece being collected began and `lineno` the
      line number it is on. A piece ends where the line number changes; the
      first is taken to be on line 0, so a text whose first character is on
      another line starts with an empty piece. */
  function Segments(t: LString, i: nat, last: nat, lineno: int): (r: seq<LString>)
    requires Valid(t) && last <= i <= |t.text|
    decreases |t.text| - i
    ensures |r| > 0
    ensures forall k :: 0 <= k < |r| ==> Valid(r[k])
  {
    if i == |t.text| then [Window(t, last, i)]
    else if t.lines[i] != lineno then [Window(t, last, i)] + Segments(t, i + 1, i, t.lines[i])
    else Segments(t, i + 1, last, lineno)
  }

  /** The pieces after `stripwhitespace`. */
  function Strips(ws: seq<LString>): (r: seq<LString>)
    requires forall k :: 0 <= k < |ws| ==> Valid(ws[k])
    ensures |r| == |ws|
    ensures forall k :: 0 <= k < |r| ==> r[k] == Strip(ws[k])
  {
    seq(|ws|, k requires 0 <= k < |ws| => Strip(ws[k]))
  }

  /** The stripped pieces that are kept: every one but those of whitespace
      only (an empty one is kept, since an empty text is not `isspace`). */
  function Keep(qs: seq<LString>): seq<Cur>
    decreases |qs|
  {
    if qs == [] then [] else KeepOne(qs[0]) + Keep(qs[1..])
  }

  function KeepOne(q: LString): seq<Cur> {
    if Blank(q) then [] else [Cur(q, 0)]
  }

  /** The lines of `LinedCode(text)`. */
  function CutLines(t: Input): seq<Cur>
    requires t.FromString? ==> Valid(t.p)
  {
    Keep(Strips(Segments(Source(t), 0, 0, 0)))
  }

  /** What every line of a LinedCode is: aligned, on one source line, not
      whitespace only, and without whitespace at either end. */
  predicate Stripped(c: Cur) {
    Valid(c.source) && OneLine(c.source) && !Blank(c.source) && Ends(c.source.text)
  }

  predicate AllStripped(ls: seq<Cur>) {
    forall k :: 0 <= k < |ls| ==> Stripped(ls[k])
  }

  /** The texts of the lines, one after another. */
  function Texts(ls: seq<Cur>): string
    decreases |ls|
  {
    if ls == [] then "" else ls[0].source.text + Texts(ls[1..])
  }

  /** The texts of the pieces, one after another. */
  function Joined(ws: seq<LString>): string
    decreases |ws|
  {
    if ws == [] then "" else ws[0].text + Joined(ws[1..])
  }

  lemma {:induction false} TextsAppend(a: seq<Cur>, b: seq<Cur>)
    ensures Texts(a + b) == Texts(a) + Texts(b)
    decreases |a|
  {
    if a == [] {
      assert a + b == b;
    } else {
      assert (a + b)[1..] == a[1..] + b;
      TextsAppend(a[1..], b);
    }
  }

  lemma {:induction false} KeepAppend(a: seq<LString>, b: seq<LString>)
    ensures Keep(a + b) == Keep(a) + Keep(b)
    decreases |a|
  {
    if a == [] {
      assert a + b == b;
    } else {
      assert (a + b)[0] == a[0];
      assert (a + b)[1..] == a[1..] + b;
      KeepAppend(a[1..], b);
      assert Keep(a + b) == KeepOne(a[0]) + Keep(a[1..] + b);
    }
  }

  lemma StripsAppend(a: seq<LString>, b: seq<LString>)
    requires forall k :: 0 <= k < |a| ==> Valid(a[k])
    requires forall k :: 0 <= k < |b| ==> Valid(b[k])
    ensures Strips(a + b) == Strips(a) + Strips(b)
  {
    assert forall k :: 0 <= k < |b| ==> (a + b)[|a| + k] == b[k];
  }

  lemma SuffixSplit<X>(s: seq<X>, a: nat, b: nat)
    requires a <= b <= |s|
    ensures s[a..] == s[a..b] + s[b..]
  {
  }

  // The pieces

  /** Every piece is on one line, and the pieces put together are the text
      from `last` on. */
  lemma {:induction false} SegmentsCover(t: LString, i: nat, last: nat, lineno: int)
    requires Valid(t) && last <= i <= |t.text| && OnLine(t, last, i, lineno)
    ensures forall k :: 0 <= k < |Segments(t, i, last, lineno)| ==> OneLine(Segments(t, i, last, lineno)[k])
    ensures Joined(Segments(t, i, last, lineno)) == t.text[last..]
    decreases |t.text| - i
  {
    var w := Window(t, last, i);
    if i == |t.text| {
      WindowOneLine(t, last, i, lineno);
      assert Joined([w]) == w.text + Joined([]);
    } else if t.lines[i] != lineno {
      WindowOneLine(t, last, i, lineno);
      var rest := Segments(t, i + 1, i, t.lines[i]);
      SegmentsCover(t, i + 1, i, t.lines[i]);
      assert Segments(t, i, last, lineno) == [w] + rest;
      assert ([w] + rest)[1..] == rest;
      assert Joined([w] + rest) == w.text + Joined(rest);
      SuffixSplit(t.text, last, i);
    } else {
      SegmentsCover(t, i + 1, last, lineno);
      assert Segments(t, i, last, lineno) == Segments(t, i + 1, last, lineno);
    }
  }

  /** Once a piece has begun with a character, no piece is empty. */
  lemma {:induction false} SegmentsNonEmpty(t: LString, i: nat, last: nat, lineno: int)
    requires Valid(t) && last < i <= |t.text|
    ensures forall k :: 0 <= k < |Segments(t, i, last, lineno)| ==> |Segments(t, i, last, lineno)[k].text| > 0
    decreases |t.text| - i
  {
    if i < |t.text| {
      if t.lines[i] != lineno {
        SegmentsNonEmpty(t, i + 1, i, t.lines[i]);
      } else {
        SegmentsNonEmpty(t, i + 1, last, lineno);
      }
    }
  }

  /** The first piece is empty when the text is, or when its first character
      is not on line 0; the pieces after it all have a character. */
  lemma SegmentsStart(t: LString)
    requires Valid(t)
    ensures |Segments(t, 0, 0, 0)| > 0
    ensures (Segments(t, 0, 0, 0)[0].text == "") <==> (|t.text| == 0 || t.lines[0] != 0)
    ensures forall k :: 0 < k < |Segments(t, 0, 0, 0)| ==> |Segments(t, 0, 0, 0)[k].text| > 0
  {
    if |t.text| > 0 {
      if t.lines[0] != 0 {
        SegmentsNonEmpty(t, 1, 0, t.lines[0]);
        var rest := Segments(t, 1, 0, t.lines[0]);
        assert Segments(t, 0, 0, 0) == [Window(t, 0, 0)] + rest;
        assert forall k :: 0 < k < |[Window(t, 0, 0)] + rest| ==> ([Window(t, 0, 0)] + rest)[k] == rest[k - 1];
      } else {
        SegmentsNonEmpty(t, 1, 0, 0);
        assert Segments(t, 0, 0, 0) == Segments(t, 1, 0, 0);
      }
    }
  }

  lemma WindowOneLine(t: LString, last: nat, i: nat, lineno: int)
    requires Valid(t) && last <= i <= |t.text| && OnLine(t, last, i, lineno)
    ensures OneLine(Window(t, last, i))
  {
    var w := Window(t, last, i);
    assert forall k :: 0 <= k < |w.lines| ==> w.lines[k] == t.lines[last + k];
  }

  // Stripping and keeping

  /** Trimming the ends of a one-line string leaves it on one line. */
  lemma TrimOneLine(p: LString)
    requires Valid(p) && OneLine(p)
    ensures OneLine(TrimBoth(p))
  {
    TrimMeaning(p);
    if !AllSpace(p.text) {
      var a := Front(p);
      var t := TrimBoth(p);
      assert forall k :: 0 <= k < |t.lines| ==> t.lines[k] == p.lines[a + k];
    }
  }

  /** What `stripwhitespace` makes of a piece on one line: a string on one
      line, without whitespace at its ends unless it is whitespace only, with
      a character if the piece had one, and whitespace only if the piece
      was; and stripping it as written cannot raise (the written third loop
      only misbehaves at a line boundary, and a piece has none). */
  lemma PieceStrip(p: LString)
    requires Valid(p) && OneLine(p)
    ensures OneLine(Strip(p))
    ensures !Blank(Strip(p)) ==> Ends(Strip(p).text)
    ensures |p.text| > 0 ==> |Strip(p).text| > 0
    ensures |p.text| > 0 && AllSpace(p.text) ==> Blank(Strip(p))
    ensures StripAsWritten(p) == Success(Strip(p))
  {
    StripOneLine(p);
    StripMeaning(p);
    TrimOneLine(p);
    TrimMeaning(p);
  }

  /** Stripped pieces on one line, kept, are stripped lines. */
  lemma {:induction false} KeepStripped(qs: seq<LString>)
    requires StrippedPieces(qs)
    ensures AllStripped(Keep(qs))
    decreases |qs|
  {
    if qs != [] {
      KeepStripped(qs[1..]);
      var a, b := KeepOne(qs[0]), Keep(qs[1..]);
      assert Keep(qs) == a + b;
      assert forall k :: |a| <= k < |a + b| ==> (a + b)[k] == b[k - |a|];
    }
  }

  /** Dropping the pieces of whitespace only loses whitespace and nothing
      else. */
  lemma {:induction false} KeepText(qs: seq<LString>)
    ensures Without(Texts(Keep(qs)), PositionedStrings.IsSpace) == Without(Joined(qs), PositionedStrings.IsSpace)
    decreases |qs|
  {
    if qs != [] {
      var q := qs[0];
      var a := KeepOne(q);
      KeepText(qs[1..]);
      TextsAppend(a, Keep(qs[1..]));
      WithoutAppend(Texts(a), Texts(Keep(qs[1..])), PositionedStrings.IsSpace);
      WithoutAppend(q.text, Joined(qs[1..]), PositionedStrings.IsSpace);
      assert Keep(qs) == a + Keep(qs[1..]);
      assert Joined(qs) == q.text + Joined(qs[1..]);
      if Blank(q) {
        WithoutAllDropped(q.text, PositionedStrings.IsSpace);
      } else {
        assert a[1..] == [];
        assert Texts(a) == q.text + Texts([]);
        assert Texts(a) == q.text;
      }
    }
  }

  /** Stripping every piece loses whitespace and nothing else. */
  lemma {:induction false} StripsText(ws: seq<LString>)
    requires forall k :: 0 <= k < |ws| ==> Valid(ws[k])
    ensures Without(Joined(Strips(ws)), PositionedStrings.IsSpace) == Without(Joined(ws), PositionedStrings.IsSpace)
    decreases |ws|
  {
    if ws != [] {
      var qs := Strips(ws);
      assert qs[1..] == Strips(ws[1..]);
      StripsText(ws[1..]);
      StripMeaning(ws[0]);
      WithoutAppend(qs[0].text, Joined(qs[1..]), PositionedStrings.IsSpace);
      WithoutAppend(ws[0].text, Joined(ws[1..]), PositionedStrings.IsSpace);
    }
  }

  /** Stripped pieces that have a character leave only lines that have one. */
  lemma {:induction false} KeepNonEmpty(qs: seq<LString>)
    requires forall k :: 0 <= k < |qs| ==> |qs[k].text| > 0
    ensures forall k :: 0 <= k < |Keep(qs)| ==> |Keep(qs)[k].source.text| > 0
    decreases |qs|
  {
    if qs != [] {
      KeepNonEmpty(qs[1..]);
      var a, b := KeepOne(qs[0]), Keep(qs[1..]);
      assert Keep(qs) == a + b;
      assert forall k :: |a| <= k < |a + b| ==> (a + b)[k] == b[k - |a|];
    }
  }

  /** Pieces of whitespace only leave no line at all. */
  lemma {:induction false} KeepBlank(qs: seq<LString>)
    requires forall k :: 0 <= k < |qs| ==> Blank(qs[k])
    ensures Keep(qs) == []
    decreases |qs|
  {
    if qs != [] {
      KeepBlank(qs[1..]);
    }
  }

  lemma {:induction false} KeepOffsets(qs: seq<LString>)
    ensures forall k :: 0 <= k < |Keep(qs)| ==> Keep(qs)[k].offset == 0
    decreases |qs|
  {
    if qs != [] {
      KeepOffsets(qs[1..]);
      var a, b := KeepOne(qs[0]), Keep(qs[1..]);
      assert Keep(qs) == a + b;
      assert forall k :: |a| <= k < |a + b| ==> (a + b)[k] == b[k - |a|];
    }
  }

  /** A whitespace-only text cuts into whitespace-only pieces. */
  lemma {:induction false} JoinedAllSpace(ws: seq<LString>)
    requires AllSpace(Joined(ws))
    ensures forall k :: 0 <= k < |ws| ==> AllSpace(ws[k].text)
    decreases |ws|
  {
    if ws != [] {
      var a, b := ws[0].text, Joined(ws[1..]);
      assert Joined(ws) == a + b;
      assert forall k :: 0 <= k < |a| ==> (a + b)[k] == a[k];
      assert forall k :: 0 <= k < |b| ==> (a + b)[|a| + k] == b[k];
      JoinedAllSpace(ws[1..]);
    }
  }

  // The lines

  /** Stripped pieces as the lines are made of: each on one line, and
      without whitespace at its ends unless it is whitespace only. */
  predicate StrippedPieces(qs: seq<LString>) {
    forall k :: 0 <= k < |qs| ==> Valid(qs[k]) && OneLine(qs[k]) && (!Blank(qs[k]) ==> Ends(qs[k].text))
  }

  /** Every piece after the first has a character. */
  predicate LaterHaveText(qs: seq<LString>) {
    forall k :: 0 < k < |qs| ==> |qs[k].text| > 0
  }

  /** The pieces after stripping are stripped pieces, with a character
      after the first. */
  lemma StripsOfSegments(s: LString)
    requires Valid(s)
    ensures StrippedPieces(Strips(Segments(s, 0, 0, 0)))
    ensures LaterHaveText(Strips(Segments(s, 0, 0, 0)))
  {
    var ws := Segments(s, 0, 0, 0);
    var qs := Strips(ws);
    SegmentsCover(s, 0, 0, 0);
    SegmentsStart(s);
    forall k | 0 <= k < |qs|
      ensures Valid(qs[k]) && OneLine(qs[k]) && (!Blank(qs[k]) ==> Ends(qs[k].text))
      ensures k > 0 ==> |qs[k].text| > 0
    {
      PieceStrip(ws[k]);
    }
  }

  /** Stripping the pieces as written never raises: the constructor never
      meets the IndexError of `stripwhitespace`. */
  lemma CutNeverRaises(t: Input)
    requires t.FromString? ==> Valid(t.p)
    ensures var ws := Segments(Source(t), 0, 0, 0);
      forall k :: 0 <= k < |ws| ==> StripAsWritten(ws[k]) == Success(Strip(ws[k]))
  {
    var ws := Segments(Source(t), 0, 0, 0);
    SegmentsCover(Source(t), 0, 0, 0);
    forall k | 0 <= k < |ws|
      ensures StripAsWritten(ws[k]) == Success(Strip(ws[k]))
    {
      PieceStrip(ws[k]);
    }
  }

  /** The lines of a LinedCode: every one stripped, every one with its
      offset at 0, only the first ever empty, and between them every
      character of the text that is not whitespace, in order. */
  lemma CutLinesMeaning(t: Input)
    requires t.FromString? ==> Valid(t.p)
    ensures AllStripped(CutLines(t))
    ensures Without(Texts(CutLines(t)), PositionedStrings.IsSpace) == Without(Source(t).text, PositionedStrings.IsSpace)
    ensures forall k :: 0 < k < |CutLines(t)| ==> |CutLines(t)[k].source.text| > 0
    ensures forall k :: 0 <= k < |CutLines(t)| ==> CutLines(t)[k].offset == 0
  {
    var s := Source(t);
    LinesStripped(s);
    LinesText(s);
    LinesAfterTheFirst(s);
    KeepOffsets(Strips(Segments(s, 0, 0, 0)));
  }

  lemma LinesStripped(s: LString)
    requires Valid(s)
    ensures AllStripped(Keep(Strips(Segments(s, 0, 0, 0))))
  {
    StripsOfSegments(s);
    KeepStripped(Strips(Segments(s, 0, 0, 0)));
  }

  lemma LinesText(s: LString)
    requires Valid(s)
    ensures Without(Texts(Keep(Strips(Segments(s, 0, 0, 0)))), PositionedStrings.IsSpace) == Without(s.text, PositionedStrings.IsSpace)
  {
    var ws := Segments(s, 0, 0, 0);
    SegmentsCover(s, 0, 0, 0);
    KeepText(Strips(ws));
    StripsText(ws);
  }

  lemma LinesAfterTheFirst(s: LString)
    requires Valid(s)
    ensures var ls := Keep(Strips(Segments(s, 0, 0, 0)));
      forall k :: 0 < k < |ls| ==> |ls[k].source.text| > 0
  {
    StripsOfSegments(s);
    KeepLater(Strips(Segments(s, 0, 0, 0)));
  }

  /** Stripped pieces with a character after the first leave lines with a
      character after the first. */
  lemma KeepLater(qs: seq<LString>)
    requires LaterHaveText(qs)
    ensures forall k :: 0 < k < |Keep(qs)| ==> |Keep(qs)[k].source.text| > 0
  {
    if qs != [] {
      var later := qs[1..];
      assert forall k :: 0 <= k < |later| ==> later[k] == qs[k + 1];
      KeepNonEmpty(later);
      assert qs == [qs[0]] + later;
      KeepAppend([qs[0]], later);
      assert |Keep([qs[0]])| <= 1;
      AfterTheFirst(Keep([qs[0]]), Keep(later));
    }
  }

  lemma AfterTheFirst(a: seq<Cur>, b: seq<Cur>)
    requires |a| <= 1 && forall k :: 0 <= k < |b| ==> |b[k].source.text| > 0
    ensures forall k :: 0 < k < |a + b| ==> |(a + b)[k].source.text| > 0
  {
    assert forall k :: |a| <= k < |a + b| ==> (a + b)[k] == b[k - |a|];
  }

  /** Two quirks of the constructor: an empty text gives one empty line, and
      a text whose first character is not on line 0 begins with an empty
      line; a text of whitespace only that starts on line 0 gives no line
      at all, so that every access to the current line raises IndexError. */
  lemma CutLinesEdges(t: Input)
    requires t.FromString? ==> Valid(t.p)
    ensures |Source(t).text| == 0 ==> CutLines(t) == [Cur(Source(t), 0)]
    ensures |Source(t).text| > 0 && Source(t).lines[0] != 0 ==>
      |CutLines(t)| > 0 && CutLines(t)[0].source.text == ""
    ensures |Source(t).text| > 0 && Source(t).lines[0] == 0 && AllSpace(Source(t).text) ==> CutLines(t) == []
  {
    var s := Source(t);
    if |s.text| == 0 {
      EmptyEdge(s);
    } else if s.lines[0] != 0 {
      OtherLineEdge(s);
    } else if AllSpace(s.text) {
      BlankEdge(s);
    }
  }

  lemma EmptyEdge(s: LString)
    requires Valid(s) && |s.text| == 0
    ensures Keep(Strips(Segments(s, 0, 0, 0))) == [Cur(s, 0)]
  {
    var ws := Segments(s, 0, 0, 0);
    assert ws == [s];
    StripMeaning(s);
    assert Strips(ws) == [s];
    assert Keep([s]) == KeepOne(s) + Keep([]);
  }

  lemma OtherLineEdge(s: LString)
    requires Valid(s) && |s.text| > 0 && s.lines[0] != 0
    ensures var ls := Keep(Strips(Segments(s, 0, 0, 0))); |ls| > 0 && ls[0].source.text == ""
  {
    var ws := Segments(s, 0, 0, 0);
    var qs := Strips(ws);
    SegmentsStart(s);
    assert qs == [qs[0]] + qs[1..];
    KeepAppend([qs[0]], qs[1..]);
    StripMeaning(ws[0]);
    assert qs[0].text == "";
    assert Keep([qs[0]]) == [Cur(qs[0], 0)] + Keep([]);
  }

  lemma BlankEdge(s: LString)
    requires Valid(s) && |s.text| > 0 && s.lines[0] == 0 && AllSpace(s.text)
    ensures Keep(Strips(Segments(s, 0, 0, 0))) == []
  {
    var ws := Segments(s, 0, 0, 0);
    var qs := Strips(ws);
    SegmentsCover(s, 0, 0, 0);
    JoinedAllSpace(ws);
    SegmentsNonEmpty(s, 1, 0, 0);
    assert ws == Segments(s, 1, 0, 0);
    forall k | 0 <= k < |qs|
      ensures Blank(qs[k])
    {
      PieceStrip(ws[k]);
    }
    KeepBlank(qs);
  }

  /** `Code(text[last:i])` followed by its `stripwhitespace()`, kept unless
      whitespace is all it has. */
  method KeepLine(text: LString, last: nat, i: nat) returns (kept: seq<Cur>)
    requires Valid(text) && last <= i <= |text.text|
    ensures kept == Keep([Strip(Window(text, last, i))])
  {
    SliceWindow(text, last, i);
    var line := new Code(FromString(Slice(text, Some(last), Some(i))));
    line.StripWhitespace();
    if Blank(line.source) {
      return [];
    }
    return [line.State()];
  }

  /** One round of the constructor's loop at a change of line number ... */
  lemma SegmentsCut(t: LString, i: nat, last: nat, lineno: int)
    requires Valid(t) && last <= i < |t.text| && t.lines[i] != lineno
    ensures Segments(t, i, last, lineno) == [Window(t, last, i)] + Segments(t, i + 1, i, t.lines[i])
    ensures OnLine(t, i, i + 1, t.lines[i])
  {
  }

  /** ... and elsewhere. */
  lemma SegmentsGoOn(t: LString, i: nat, last: nat, lineno: int)
    requires Valid(t) && last <= i < |t.text| && t.lines[i] == lineno && OnLine(t, last, i, lineno)
    ensures Segments(t, i, last, lineno) == Segments(t, i + 1, last, lineno)
    ensures OnLine(t, last, i + 1, lineno)
  {
  }

  lemma Regroup3<X>(a: seq<X>, b: seq<X>, c: seq<X>)
    ensures a + (b + c) == (a + b) + c
  {
  }

  // ---------------------------------------------------------------------
  // The state and what reads it

  /** The state of a LinedCode: its lines and the index of the current one. */
  datatype Lined = Lined(lines: seq<Cur>, line: int)

  /** What a step that may raise returns, with the state it leaves. */
  datatype LMoved<T> = LMoved(result: Result<T>, after: Lined)

  /** The index of the current line is in range, or 0 when there are no lines. */
  predicate Inside(s: Lined) {
    0 <= s.line && (s.line < |s.lines| || (s.line == 0 && s.lines == []))
  }

  /** What the constructor leaves and every operation keeps: each line
      stripped, and the lines after the current one not yet read and not
      empty. */
  predicate Wellformed(s: Lined) {
    Inside(s) && AllStripped(s.lines)
    && forall k :: s.line < k < |s.lines| ==> s.lines[k].offset == 0 && |s.lines[k].source.text| > 0
  }

  /** `current_line()`: `lines[line]`, IndexError when there is no line. */
  function CurrentLine(s: Lined): Result<Cur>
    requires Inside(s)
  {
    if s.line < |s.lines| then Success(s.lines[s.line]) else Failure(Python("IndexError"))
  }

  function GetOffset(s: Lined): Result<int>
    requires Inside(s)
  {
    var c :- CurrentLine(s); Success(c.offset)
  }

  /** `substring_length`, `substring_absolute`, `substring_relative` and
      `code[item]` on the current line. */
  function LineSubstringLength(s: Lined, length: int): Result<LString>
    requires Inside(s)
  {
    var c :- CurrentLine(s); Success(SubstringLength(c, length))
  }

  function LineSubstringAbsolute(s: Lined, start: Option<int>, end: Option<int>): Result<LString>
    requires Inside(s)
  {
    var c :- CurrentLine(s); Success(SubstringAbsolute(c, start, end))
  }

  function LineSubstringRelative(s: Lined, start: int, end: int): Result<LString>
    requires Inside(s)
  {
    var c :- CurrentLine(s); Success(SubstringRelative(c, start, end))
  }

  function LineCharAt(s: Lined, item: int): Result<LString>
    requires Inside(s)
  {
    var c :- CurrentLine(s); CharAt(c, item)
  }

  lemma SliceOneLine(p: LString, start: Option<int>, stop: Option<int>)
    requires Valid(p) && OneLine(p)
    ensures OneLine(Slice(p, start, stop))
  {
    var q := Slice(p, start, stop);
    assert forall k :: 0 <= k < |q.lines| ==> q.lines[k] == p.lines[PositionedStrings.SliceBound(|p.lines|, start, 0) + k];
  }

  /** Every substring and character read from a string on one line is on
      that line. */
  lemma CurReadsOneLine(c: Cur, start: Option<int>, end: Option<int>, a: int, b: int, n: int, item: int)
    requires Valid(c.source) && OneLine(c.source)
    ensures OneLine(SubstringLength(c, n))
    ensures OneLine(SubstringAbsolute(c, start, end))
    ensures OneLine(SubstringRelative(c, a, b))
    ensures CharAt(c, item).Success? ==> OneLine(CharAt(c, item).value)
  {
    var p, o := c.source, c.offset;
    SliceOneLine(p, Some(o), Some(Min(o + n, |p.text|)));
    SliceOneLine(p, Some(if start.Some? then start.value else o), Some(Min(if end.Some? then end.value else o, |p.text|)));
    SliceOneLine(p, Some(a + o), Some(Min(b + o, |p.text|)));
    CharOneLine(c, item);
  }

  lemma CharOneLine(c: Cur, item: int)
    ensures CharAt(c, item).Success? ==> OneLine(CharAt(c, item).value)
  {
    if CharAt(c, item).Success? {
      assert |CharAt(c, item).value.lines| == 1;
    }
  }

  /** "Substrings will not span multiple lines": every substring and
      character read is a piece of the current line, on one source line. */
  lemma ReadsStayOnLine(s: Lined, start: Option<int>, end: Option<int>, a: int, b: int, n: int, item: int)
    requires Wellformed(s)
    ensures LineSubstringLength(s, n).Success? ==> OneLine(LineSubstringLength(s, n).value)
    ensures LineSubstringAbsolute(s, start, end).Success? ==> OneLine(LineSubstringAbsolute(s, start, end).value)
    ensures LineSubstringRelative(s, a, b).Success? ==> OneLine(LineSubstringRelative(s, a, b).value)
    ensures LineCharAt(s, item).Success? ==> OneLine(LineCharAt(s, item).value)
    ensures CurrentLine(s).Failure? ==> LineSubstringLength(s, n).Failure? && LineCharAt(s, item).Failure?
  {
    if s.line < |s.lines| {
      var c := s.lines[s.line];
      assert Stripped(c);
      CurReadsOneLine(c, start, end, a, b, n, item);
    }
  }

  /** `hasmore()`: a later line, or something left on the current one. */
  function LinedHasMore(s: Lined): Result<bool>
    requires Inside(s)
  {
    if s.line < |s.lines| - 1 then Success(true)
    else var c :- CurrentLine(s); Success(HasMore(c))
  }

  /** What is left on the lines from index `from` on. */
  function Total(ls: seq<Cur>, from: nat): nat
    decreases |ls| - from
  {
    if from >= |ls| then 0 else Len(ls[from]) + Total(ls, from + 1)
  }

  /** `len()`: what is left on the current line and on every later one. */
  function LinedLen(s: Lined): Result<nat>
    requires Inside(s)
  {
    var c :- CurrentLine(s); Success(Total(s.lines, s.line))
  }

  /** On a well-formed LinedCode, there is more to read exactly when the
      length is not 0: the later lines are unread and not empty. */
  lemma HasMoreIffLength(s: Lined)
    requires Wellformed(s)
    ensures LinedHasMore(s).Success? <==> |s.lines| > 0
    ensures LinedLen(s).Success? <==> |s.lines| > 0
    ensures |s.lines| > 0 ==> (LinedHasMore(s).value <==> LinedLen(s).value > 0)
  {
    if |s.lines| > 0 {
      if s.line < |s.lines| - 1 {
        assert Total(s.lines, s.line + 1) == Len(s.lines[s.line + 1]) + Total(s.lines, s.line + 2);
      } else {
        assert Total(s.lines, s.line) == Len(s.lines[s.line]);
      }
    }
  }

  // ---------------------------------------------------------------------
  // Moving

  /** The state with the current line replaced by `d`. */
  function Put(s: Lined, d: Cur): Lined
    requires Inside(s) && s.line < |s.lines|
  {
    s.(lines := s.lines[s.line := d])
  }

  /** `advance(amount)`, `advancepast(m)`, `match(m)`, `matchany(ms)` and
      `matchrange(lower, upper)`: the Code operation on the current line. */
  function LineAdvance(s: Lined, amount: int): LMoved<LString>
    requires Inside(s)
  {
    match CurrentLine(s)
    case Failure(e) => LMoved(Failure(e), s)
    case Success(c) => LMoved(Success(Advanced(c, amount).0), Put(s, Advanced(c, amount).1))
  }

  function LineAdvancePast(s: Lined, m: string): LMoved<Option<LString>>
    requires Inside(s)
  {
    match CurrentLine(s)
    case Failure(e) => LMoved(Failure(e), s)
    case Success(c) => LMoved(Success(AdvancedPast(c, m).0), Put(s, AdvancedPast(c, m).1))
  }

  function LineMatch(s: Lined, m: string): LMoved<bool>
    requires Inside(s)
  {
    match CurrentLine(s)
    case Failure(e) => LMoved(Failure(e), s)
    case Success(c) => LMoved(Success(Matched(c, m).0), Put(s, Matched(c, m).1))
  }

  function LineMatchAny(s: Lined, ms: seq<string>): LMoved<Option<LString>>
    requires Inside(s)
  {
    match CurrentLine(s)
    case Failure(e) => LMoved(Failure(e), s)
    case Success(c) => LMoved(Success(MatchedAny(c, ms).0), Put(s, MatchedAny(c, ms).1))
  }

  function LineMatchRange(s: Lined, lower: char, upper: char): LMoved<Option<LString>>
    requires Inside(s)
  {
    match CurrentLine(s)
    case Failure(e) => LMoved(Failure(e), s)
    case Success(c) => LMoved(MatchedRange(c, lower, upper).result, Put(s, MatchedRange(c, lower, upper).after))
  }

  /** A state that differs from `s` at most in the offset of the current line. */
  predicate OnlyOffsetMoved(s: Lined, r: Lined) {
    r.line == s.line && |r.lines| == |s.lines|
    && (forall k :: 0 <= k < |s.lines| && k != s.line ==> r.lines[k] == s.lines[k])
    && (forall k :: 0 <= k < |s.lines| ==> r.lines[k].source == s.lines[k].source)
  }

  /** Moving the current line's cursor keeps its string, so a LinedCode stays
      as it was apart from that one offset, and stays well-formed. */
  lemma PutOffset(s: Lined, d: Cur)
    requires Inside(s) && s.line < |s.lines| && d.source == s.lines[s.line].source
    ensures OnlyOffsetMoved(s, Put(s, d))
    ensures Wellformed(s) ==> Wellformed(Put(s, d))
  {
  }

  /** The movers never leave the current line: only its offset changes, and
      with no line they raise IndexError and change nothing. */
  lemma MoversStayOnLine(s: Lined, amount: int, m: string, ms: seq<string>, lower: char, upper: char)
    requires Inside(s)
    ensures OnlyOffsetMoved(s, LineAdvance(s, amount).after)
    ensures OnlyOffsetMoved(s, LineAdvancePast(s, m).after)
    ensures OnlyOffsetMoved(s, LineMatch(s, m).after)
    ensures OnlyOffsetMoved(s, LineMatchAny(s, ms).after)
    ensures OnlyOffsetMoved(s, LineMatchRange(s, lower, upper).after)
    ensures s.lines == [] ==> LineAdvance(s, amount) == LMoved(Failure(Python("IndexError")), s)
  {
    if s.line < |s.lines| {
      var c := s.lines[s.line];
      PutOffset(s, Advanced(c, amount).1);
      PutOffset(s, AdvancedPast(c, m).1);
      PutOffset(s, Matched(c, m).1);
      MatchedAnyKeepsSource(c, ms);
      PutOffset(s, MatchedAny(c, ms).1);
      MatchedRangeKeepsSource(c, lower, upper);
      PutOffset(s, MatchedRange(c, lower, upper).after);
    }
  }

  lemma MatchedAnyKeepsSource(c: Cur, ms: seq<string>)
    ensures MatchedAny(c, ms).1.source == c.source
  {
    match FirstMatch(c, ms, 0)
    case None =>
    case Some(k) => assert MatchedAny(c, ms) == PassedOver(c, ms[k]);
  }

  lemma MatchedRangeKeepsSource(c: Cur, lower: char, upper: char)
    ensures MatchedRange(c, lower, upper).after.source == c.source
  {
  }

  /** `advanceline()`: on to the next line only when there is one and the
      current line has been read to its end; otherwise nothing changes. */
  function NextLine(s: Lined): (r: Lined)
    requires Inside(s)
    ensures Inside(r) && r.lines == s.lines
    ensures r.line == s.line + 1 <==> s.line < |s.lines| - 1 && !HasMore(s.lines[s.line])
    ensures r.line != s.line + 1 ==> r == s
  {
    if s.line < |s.lines| - 1 && !HasMore(s.lines[s.line]) then s.(line := s.line + 1) else s
  }

  /** `advanceline` keeps a LinedCode well-formed, never passes the last
      line and never skips unread text: the line it leaves has nothing
      left, and the new line is unread. */
  lemma NextLineMeaning(s: Lined)
    requires Wellformed(s)
    ensures Wellformed(NextLine(s))
    ensures NextLine(s).line != s.line ==>
      Len(s.lines[s.line]) == 0 && NextLine(s).lines[NextLine(s).line].offset == 0
      && LinedLen(NextLine(s)) == LinedLen(s)
  {
    if NextLine(s).line != s.line {
      assert Total(s.lines, s.line) == Len(s.lines[s.line]) + Total(s.lines, s.line + 1);
    }
  }

  /** The constructor's loop over the characters, and the last line after it. */
  method CutInto(text: LString) returns (ls: seq<Cur>)
    requires Valid(text)
    ensures ls == Keep(Strips(Segments(text, 0, 0, 0)))
  {
    ghost var goal := Segments(text, 0, 0, 0);
    ghost var done: seq<LString> := [];
    var acc: seq<Cur> := [];
    var linenumber := 0;
    var last: nat := 0;
    for i := 0 to |text.text|
      invariant last <= i
      invariant OnLine(text, last, i, linenumber)
      invariant forall k :: 0 <= k < |done| ==> Valid(done[k])
      invariant done + Segments(text, i, last, linenumber) == goal
      invariant acc == Keep(Strips(done))
    {
      if text.lines[i] != linenumber {
        var kept := KeepLine(text, last, i);
        SegmentsCut(text, i, last, linenumber);
        var w := Window(text, last, i);
        Regroup3(done, [w], Segments(text, i + 1, i, text.lines[i]));
        Extend(done, w);
        done := done + [w];
        acc := acc + kept;
        last := i;
        linenumber := text.lines[i];
      } else {
        SegmentsGoOn(text, i, last, linenumber);
      }
    }
    var kept := KeepLine(text, last, |text.text|);
    var w := Window(text, last, |text.text|);
    assert goal == done + [w];
    Extend(done, w);
    return acc + kept;
  }

  /** The lines kept grow by those of the next piece. */
  lemma Extend(done: seq<LString>, w: LString)
    requires Valid(w) && forall k :: 0 <= k < |done| ==> Valid(done[k])
    ensures Keep(Strips(done + [w])) == Keep(Strips(done)) + Keep([Strip(w)])
  {
    StripsAppend(done, [w]);
    assert Strips([w]) == [Strip(w)];
    KeepAppend(Strips(done), [Strip(w)]);
  }

  /** A new LinedCode is well-formed. */
  lemma CutLinesWellformed(t: Input)
    requires t.FromString? ==> Valid(t.p)
    ensures Wellformed(Lined(CutLines(t), 0))
  {
    CutLinesMeaning(t);
  }

  // ---------------------------------------------------------------------
  // The LinedCode object

  class LinedCode {
    var lines: seq<Cur>
    var line: int

    function State(): Lined
      reads this
    {
      Lined(lines, line)
    }

    /** `LinedCode(text)`: each line is cut out where the line number
        changes, made a Code, stripped, and kept unless it is whitespace
        only; then the same for the rest of the text. */
    constructor (t: Input)
      requires t.FromString? ==> Valid(t.p)
      ensures State() == Lined(CutLines(t), 0)
      ensures Wellformed(State())
    {
      var ls := CutInto(Source(t));
      lines := ls;
      line := 0;
      CutLinesWellformed(t);
    }

    /** `getoffset()`. */
    method Offset() returns (r: Result<int>)
      requires Inside(State())
      ensures r == GetOffset(State())
    {
      if line >= |lines| {
        return Failure(Python("IndexError"));
      }
      return Success(lines[line].offset);
    }

    method Advance(amount: int) returns (r: Result<LString>)
      requires Wellformed(State())
      modifies this
      ensures Wellformed(State())
      ensures LMoved(r, State()) == LineAdvance(old(State()), amount)
    {
      if line >= |lines| {
        return Failure(Python("IndexError"));
      }
      var moved := Advanced(lines[line], amount);
      PutOffset(State(), moved.1);
      lines := lines[line := moved.1];
      return Success(moved.0);
    }

    method AdvancePast(m: string) returns (r: Result<Option<LString>>)
      requires Wellformed(State())
      modifies this
      ensures Wellformed(State())
      ensures LMoved(r, State()) == LineAdvancePast(old(State()), m)
    {
      if line >= |lines| {
        return Failure(Python("IndexError"));
      }
      var moved := AdvancedPast(lines[line], m);
      PutOffset(State(), moved.1);
      lines := lines[line := moved.1];
      return Success(moved.0);
    }

    method Match(m: string) returns (r: Result<bool>)
      requires Wellformed(State())
      modifies this
      ensures Wellformed(State())
      ensures LMoved(r, State()) == LineMatch(old(State()), m)
    {
      if line >= |lines| {
        return Failure(Python("IndexError"));
      }
      var moved := Matched(lines[line], m);
      PutOffset(State(), moved.1);
      lines := lines[line := moved.1];
      return Success(moved.0);
    }

    method MatchAny(ms: seq<string>) returns (r: Result<Option<LString>>)
      requires Wellformed(State())
      modifies this
      ensures Wellformed(State())
      ensures LMoved(r, State()) == LineMatchAny(old(State()), ms)
    {
      if line >= |lines| {
        return Failure(Python("IndexError"));
      }
      var moved := MatchedAny(lines[line], ms);
      MatchedAnyKeepsSource(lines[line], ms);
      PutOffset(State(), moved.1);
      lines := lines[line := moved.1];
      return Success(moved.0);
    }

    method MatchRange(lower: char, upper: char) returns (r: Result<Option<LString>>)
      requires Wellformed(State())
      modifies this
      ensures Wellformed(State())
      ensures LMoved(r, State()) == LineMatchRange(old(State()), lower, upper)
    {
      if line >= |lines| {
        return Failure(Python("IndexError"));
      }
      var moved := MatchedRange(lines[line], lower, upper);
      MatchedRangeKeepsSource(lines[line], lower, upper);
      PutOffset(State(), moved.after);
      lines := lines[line := moved.after];
      return moved.result;
    }

    /** `advanceline()`: whether it moved on. */
    method AdvanceLine() returns (moved: bool)
      requires Wellformed(State())
      modifies this
      ensures Wellformed(State())
      ensures State() == NextLine(old(State()))
      ensures moved <==> line != old(line)
    {
      NextLineMeaning(State());
      if line < |lines| - 1 && !HasMore(lines[line]) {
        line := line + 1;
        return true;
      }
      return false;
    }

    /** `len()`: the current line's length, then each later line's added. */
    method Length() returns (r: Result<nat>)
      requires Inside(State())
      ensures r == LinedLen(State())
    {
      if line >= |lines| {
        return Failure(Python("IndexError"));
      }
      var length := Len(lines[line]);
      for i := line + 1 to |lines|
        invariant length + Total(lines, i) == Total(lines, line)
      {
        length := length + Len(lines[i]);
      }
      return Success(length);
    }
  }
}
