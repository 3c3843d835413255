/**
 * The Tokenizer of the assembler (assembler/tokenizer.py) as the object it
 * is: a LinedCode it moves through and the list of tokens it appends to.
 * Each reader method performs the steps of its Python counterpart (match,
 * match_range, indexing, advance) and is proved to leave exactly what the
 * scan functions of Lexemes describe. Skipping blanks and comments and the
 * main loop of the constructor are specified by SkipBlank, SkipComment and
 * Loop on values, and the methods are proved to follow them.
 */
module AsmTokenizer {
  import opened Wrappers
  import opened PositionedStrings
  import opened CodeObjects
  import opened TextCode
  import opened Tokens
  import opened Lexemes

  const CommentNotClosedMessage := "Comment not closed"
  const UnexpectedCharacterMessage := "Unexpected character"

  /** A LinedCode state the tokenizer can work on: the cursor inside the
      current line, and the remaining text aligned. */
  predicate Ready(l: Lined) {
    Within(l.cursor) && Valid(l.remaining)
  }

  /** m lies no further back than l: fewer remaining characters, or as many
      and no more left on the current line. */
  predicate NoFurther(l: Lined, m: Lined) {
    |m.remaining.text| < |l.remaining.text|
    || (|m.remaining.text| == |l.remaining.text|
        && |m.cursor.text.text| - m.cursor.offset <= |l.cursor.text.text| - l.cursor.offset)
  }

  /** m lies strictly further on than l. */
  predicate Further(l: Lined, m: Lined) {
    |m.remaining.text| < |l.remaining.text|
    || (|m.remaining.text| == |l.remaining.text|
        && |m.cursor.text.text| - m.cursor.offset < |l.cursor.text.text| - l.cursor.offset)
  }

  // ---------------------------------------------------------------------
  // The LinedCode steps, as the tokenizer uses them

  /** `skip_line` moves to the next line, a non-empty one, with fewer
      characters remaining; on the last line it only moves the offset to the
      end of the line. */
  lemma {:induction false} SkipLineReady(l: Lined)
    requires Ready(l)
    ensures var (moved, m) := SkippedLine(l);
      Ready(m)
      && (moved ==> |m.remaining.text| < |l.remaining.text| && |m.cursor.text.text| > 0 && m.cursor.offset == 0)
      && (!moved ==> m == l.(cursor := l.cursor.(offset := |l.cursor.text.text|)))
  {
    SkipLineMeaning(l);
  }

  /** `match(c)` of a single character. */
  lemma {:induction false} MatchOne(c: Cursor, a: char)
    requires Within(c)
    ensures Matched(c, [[a]])
      == if Next1(c, a) then (Some(Span(c.text, c.offset, c.offset + 1)), c.(offset := c.offset + 1)) else (None, c)
  {
    MatchMeaning(c, [[a]]);
    Next1Test(c, a);
    if Next1(c, a) {
      CandidateTest(c, [a]);
      assert FirstMatch(c, [[a]], 0) == Some(0);
      assert c.text.text[c.offset..c.offset + 1] == [a];
    }
  }

  /** `match(ab)` of two characters. */
  lemma {:induction false} MatchPairAt(c: Cursor, a: char, b: char)
    requires Within(c)
    ensures Matched(c, [[a, b]])
      == if Next2(c, a, b) then (Some(Span(c.text, c.offset, c.offset + 2)), c.(offset := c.offset + 2)) else (None, c)
  {
    MatchMeaning(c, [[a, b]]);
    Next2Test(c, a, b);
    if Next2(c, a, b) {
      CandidateTest(c, [a, b]);
      assert FirstMatch(c, [[a, b]], 0) == Some(0);
      assert c.text.text[c.offset..c.offset + 2] == [a, b];
    }
  }

  /** `code[0]` and `code[1]` after an opening quotation mark: the
      characters there, or the null character, which is no quotation mark,
      past the end of the line. */
  lemma {:induction false} QuoteAt(c: Cursor)
    requires Within(c) && |c.text.text| > 0
    ensures var t := c.text.text; var o := c.offset;
      CharAt(c, 0).Success? && CharAt(c, 1).Success?
      && (CharAt(c, 0).value.text == "'" <==> o < |t| && t[o] == '\'')
      && (CharAt(c, 1).value.text == "'" <==> o + 1 < |t| && t[o + 1] == '\'')
      && (o < |t| ==> CharAt(c, 0).value.text == [t[o]])
  {
  }

  /** A span grows by the character after it. */
  lemma {:induction false} SpanSnoc(s: PositionedString, a: int, b: int)
    requires Valid(s) && 0 <= a <= b < |s.text|
    ensures Concat(Span(s, a, b), PositionedString([s.text[b]], [s.coordinates[b]])) == Span(s, a, b + 1)
  {
    assert s.text[a..b] + [s.text[b]] == s.text[a..b + 1];
    assert s.coordinates[a..b] + [s.coordinates[b]] == s.coordinates[a..b + 1];
  }

  /** `match(ab, ac)` of two two-character candidates with the same first
      character. */
  lemma {:induction false} MatchEither(c: Cursor, a: char, b: char, b2: char)
    requires Within(c)
    ensures Matched(c, [[a, b], [a, b2]])
      == if Next2(c, a, b) || Next2(c, a, b2) then (Some(Span(c.text, c.offset, c.offset + 2)), c.(offset := c.offset + 2))
         else (None, c)
  {
    var ms := [[a, b], [a, b2]];
    MatchMeaning(c, ms);
    Next2Test(c, a, b);
    Next2Test(c, a, b2);
    CandidateTest(c, ms[0]);
    CandidateTest(c, ms[1]);
    if Next2(c, a, b) {
      assert FirstMatch(c, ms, 0) == Some(0);
      assert c.text.text[c.offset..c.offset + 2] == ms[0];
    } else if Next2(c, a, b2) {
      assert FirstMatch(c, ms, 1) == Some(1);
      assert FirstMatch(c, ms, 0) == Some(1);
      assert c.text.text[c.offset..c.offset + 2] == ms[1];
    }
  }

  /** `code[i]` inside the word loop: the character at offset + i, or the
      null character at the end of the line, which is no word character. */
  lemma {:induction false} WordCharAt(c: Cursor, i: int)
    requires Within(c) && c.offset < |c.text.text| && 1 <= i && c.offset + i <= |c.text.text|
    ensures var k := c.offset + i; var t := c.text.text; var ch := CharAt(c, i);
      ch.Success? && |ch.value.text| == 1
      && (IsWordChar(ch.value.text[0]) <==> k < |t| && IsWordChar(t[k]))
      && (!IsWordChar(ch.value.text[0]) ==> WordRun(t, k) == k)
      && (k < |t| ==> ch.value == PositionedString([t[k]], [c.text.coordinates[k]]))
  {
    if c.offset + i == |c.text.text| {
      assert CharAt(c, i).value.text == "\0";
    }
  }

  /** A word character after the word so far extends it by one. */
  lemma {:induction false} WordGrows(c: Cursor, i: int, word: PositionedString)
    requires Within(c) && 1 <= i && c.offset + i < |c.text.text| && IsWordChar(c.text.text[c.offset + i])
    requires word == Span(c.text, c.offset, c.offset + i)
    requires WordRun(c.text.text, c.offset + 1) == WordRun(c.text.text, c.offset + i)
    ensures Concat(word, PositionedString([c.text.text[c.offset + i]], [c.text.coordinates[c.offset + i]]))
      == Span(c.text, c.offset, c.offset + i + 1)
    ensures WordRun(c.text.text, c.offset + 1) == WordRun(c.text.text, c.offset + i + 1)
  {
    SpanSnoc(c.text, c.offset, c.offset + i);
  }

  /** Where the word loop stops is where the word ends: at the first
      character that is no word character, or when i reaches `len(code)`. */
  lemma {:induction false} WordEndAt(t: string, o: int, i: int, span: int)
    requires 0 <= o < |t| && 1 <= i <= Max(span, 1) && o + i <= |t|
    requires WordRun(t, o + 1) == WordRun(t, o + i)
    requires i == Max(span, 1) || WordRun(t, o + i) == o + i
    ensures WordEnd(t, o, span) == o + i
  {
  }

  /** `match_range(lower, upper)` for a range that leaves out the null
      character read past the end of the line. */
  lemma {:induction false} MatchRangeAt(c: Cursor, lower: char, upper: char)
    requires Within(c) && '\0' < lower
    ensures var t := c.text.text;
      MatchedRange(c, lower, upper)
      == if |t| == 0 then Moved(Failure(Python("IndexError")), c)
         else if c.offset < |t| && lower <= t[c.offset] <= upper then
           Moved(Success(Some(Span(c.text, c.offset, c.offset + 1))), c.(offset := c.offset + 1))
         else Moved(Success(None), c)
  {
    var t := c.text.text;
    if c.offset < |t| {
      MatchRangeMeaning(c, lower, upper);
      assert t[c.offset..c.offset + 1] == [t[c.offset]];
      assert c.text.coordinates[c.offset..c.offset + 1] == [c.text.coordinates[c.offset]];
    } else if |t| > 0 {
      assert CharAt(c, 0).value.text == "\0";
    }
  }

  /** `int(code[0])` on a line with characters: the value of the hex digit
      at the offset, ValueError on any other character and on the null
      character read past the end of the line. */
  lemma {:induction false} HexAt(c: Cursor)
    requires Within(c) && |c.text.text| > 0
    ensures var d := Int(CharAt(c, 0).value); var t := c.text.text;
      (d.Success? <==> c.offset < |t| && HexValue(t[c.offset]).Some?)
      && (d.Success? ==> d.value == HexValue(t[c.offset]).value)
  {
    if c.offset >= |c.text.text| {
      assert CharAt(c, 0).value.text == "\0";
    }
  }

  /** The digits `match_range` accepts are the digits of the base. */
  lemma {:induction false} RangeDigits(ch: char)
    ensures IsDigit(ch, 2) <==> ch == '0' || ch == '1'
    ensures IsDigit(ch, 8) <==> '0' <= ch <= '7'
    ensures IsDigit(ch, 10) <==> '0' <= ch <= '9'
    ensures IsDigit(ch, 16) <==> HexValue(ch).Some?
    ensures '0' <= ch <= '9' ==> DigitValue(ch) == ch as int - '0' as int
  {
  }

  /** One more digit of the run: the value is multiplied by the base and
      the digit added, and the run goes on to the same end. */
  lemma {:induction false} DigitStep(t: string, from: int, o: int, base: nat, n: nat)
    requires 0 <= from <= o < |t| && IsDigit(t[o], base)
    requires DigitRun(t, from, base) == DigitRun(t, o, base) && n == RunValue(t, from, o, base)
    ensures DigitRun(t, from, base) == DigitRun(t, o + 1, base)
    ensures RunValue(t, from, o + 1, base) == base * n + HexValue(t[o]).value
  {
  }

  /** A character that is no digit of the base ends the run. */
  lemma {:induction false} DigitStop(t: string, from: int, o: int, base: nat)
    requires 0 <= from <= o <= |t| && !(o < |t| && IsDigit(t[o], base))
    requires DigitRun(t, from, base) == DigitRun(t, o, base)
    ensures DigitRun(t, from, base) == o
  {
  }

  /** Where each integer reader ends: with no digit after the prefix, or
      with the value of the digits up to the end of their run. */
  lemma {:induction false} BinEnds(c: Cursor, end: int, n: nat)
    requires Within(c) && (Next2(c, '0', 'b') || Next2(c, '0', 'B'))
    requires c.offset + 2 <= end == DigitRun(c.text.text, c.offset + 2, 2)
    ensures end == c.offset + 2 ==> ScanBin(c) == Raised(BadBinary, end)
    ensures end > c.offset + 2 && n == RunValue(c.text.text, c.offset + 2, end, 2) ==>
      ScanBin(c) == Found(Integer, end, Some(IntLiteral(n)))
  {
  }

  lemma {:induction false} HexEnds(c: Cursor, end: int, n: nat)
    requires Within(c) && (Next2(c, '0', 'x') || Next2(c, '0', 'X'))
    requires c.offset + 2 <= end == DigitRun(c.text.text, c.offset + 2, 16)
    ensures end == c.offset + 2 ==> ScanHex(c) == Raised(BadHex, end)
    ensures end > c.offset + 2 && n == RunValue(c.text.text, c.offset + 2, end, 16) ==>
      ScanHex(c) == Found(Integer, end, Some(IntLiteral(n)))
  {
  }

  lemma {:induction false} OctEnds(c: Cursor, end: int, n: nat)
    requires Within(c) && Next1(c, '0')
    requires end == DigitRun(c.text.text, c.offset + 1, 8) && n == RunValue(c.text.text, c.offset + 1, end, 8)
    ensures ScanOct(c) == Found(Integer, end, Some(IntLiteral(n)))
  {
  }

  lemma {:induction false} DecEnds(c: Cursor, end: int, n: nat)
    requires Within(c) && c.offset < |c.text.text| && IsDigit(c.text.text[c.offset], 10)
    requires end == DigitRun(c.text.text, c.offset, 10) && n == RunValue(c.text.text, c.offset, end, 10)
    ensures ScanDec(c) == Found(Integer, end, Some(IntLiteral(n)))
  {
  }

  // ---------------------------------------------------------------------
  // Blanks and comments

  /** What the skip stops at: the end of the code, or a character on the
      current line that is neither whitespace nor the start of a comment. */
  predicate Settled(l: Lined) {
    var c := l.cursor;
    !LinedHasMore(l)
    || (HasMore(c) && 0 <= c.offset && !IsSpace(c.text.text[c.offset])
        && !Next2(c, '/', '/') && !Next2(c, '/', '*'))
  }

  /** `advance_past('*' + '/')` inside the line: it stops just past the end
      of a comment, or does not move. */
  lemma {:induction false} PastCommentEnd(c: Cursor)
    requires Within(c)
    ensures var (r, d) := AdvancedPast(c, "*/"); var t := c.text.text;
      (r.None? ==> d == c)
      && (r.Some? ==> d.text == c.text && c.offset + 2 <= d.offset <= |t| && t[d.offset - 2..d.offset] == "*/")
  {
    AdvancePastMeaning(c, "*/");
    var (r, d) := AdvancedPast(c, "*/");
    if r.Some? {
      OccursAtWindow(c.text.text, "*/", d.offset - 2);
    }
  }

  /** The inner loop of `skip_whitespace_and_comments` after a block
      comment opens (slash, star): `advance_past` of the closing star, slash
      on each line in turn, raising once no line is left. */
  function SkipComment(l: Lined): (r: Result<Lined>)
    requires Ready(l)
    decreases |l.remaining.text|
    ensures r.Success? ==> Ready(r.value) && Further(l, r.value)
    ensures r.Success? ==>
      2 <= r.value.cursor.offset && r.value.cursor.text.text[r.value.cursor.offset - 2..r.value.cursor.offset] == "*/"
    ensures r.Success? && |l.cursor.text.text| > 0 ==> |r.value.cursor.text.text| > 0
    ensures r.Failure? ==> r.error == SyntaxError(CommentNotClosedMessage)
  {
    PastCommentEnd(l.cursor);
    var (past, d) := AdvancedPast(l.cursor, "*/");
    if past.Some? then Success(l.(cursor := d))
    else
      SkipLineReady(l);
      var (moved, m) := SkippedLine(l);
      if !moved then Failure(SyntaxError(CommentNotClosedMessage)) else SkipComment(m)
  }

  /** One pass of the loop of `skip_whitespace_and_comments`: the state the
      next pass starts from, or how the skip ends. */
  datatype Step = Again(next: Lined) | InComment(after: Lined) | Done(result: Result<Lined>)

  /** A pass tests, in order: the character at the offset is whitespace
      (it is passed); `//` (the rest of the line is skipped); a block
      comment, slash, star (skipped by SkipComment from just past its opening); else
      `advance_line`, which ends the skip unless the line is used up and
      another follows. Reading the character of a line with none raises
      IndexError. */
  function BlankStep(l: Lined): (r: Step)
    requires Ready(l)
    ensures r.Again? ==> Ready(r.next) && Further(l, r.next)
    ensures r.Again? && |l.cursor.text.text| > 0 ==> |r.next.cursor.text.text| > 0
    ensures r.InComment? ==> Ready(r.after) && Further(l, r.after) && |r.after.cursor.text.text| > 0
    ensures r.Done? && r.result.Success? ==> r.result.value == l && Settled(l)
    ensures r.Done? && r.result.Failure? ==> |l.cursor.text.text| == 0 && r.result.error == Python("IndexError")
  {
    var c := l.cursor;
    var t := c.text.text;
    if |t| == 0 then Done(Failure(Python("IndexError")))
    else if c.offset < |t| && IsSpace(t[c.offset]) then Again(l.(cursor := c.(offset := c.offset + 1)))
    else if Next2(c, '/', '/') then
      var after := l.(cursor := c.(offset := c.offset + 2));
      SkipLineReady(after);
      Again(SkippedLine(after).1)
    else if Next2(c, '/', '*') then InComment(l.(cursor := c.(offset := c.offset + 2)))
    else
      SkipLineReady(l);
      var (moved, m) := AdvancedLine(l);
      if moved then Again(m) else Done(Success(l))
  }

  // BlankStep on a line with characters, case by case in the order
  // `skip_whitespace_and_comments` tests them.

  lemma {:induction false} StepSpace(l: Lined)
    requires Ready(l) && l.cursor.offset < |l.cursor.text.text| && IsSpace(l.cursor.text.text[l.cursor.offset])
    ensures BlankStep(l) == Again(l.(cursor := l.cursor.(offset := l.cursor.offset + 1)))
  {
  }

  lemma {:induction false} StepLine(l: Lined)
    requires Ready(l) && |l.cursor.text.text| > 0
    requires !(l.cursor.offset < |l.cursor.text.text| && IsSpace(l.cursor.text.text[l.cursor.offset]))
    requires Next2(l.cursor, '/', '/')
    ensures var after := l.(cursor := l.cursor.(offset := l.cursor.offset + 2));
      Ready(after) && BlankStep(l) == Again(SkippedLine(after).1)
  {
  }

  lemma {:induction false} StepComment(l: Lined)
    requires Ready(l) && |l.cursor.text.text| > 0
    requires !(l.cursor.offset < |l.cursor.text.text| && IsSpace(l.cursor.text.text[l.cursor.offset]))
    requires !Next2(l.cursor, '/', '/') && Next2(l.cursor, '/', '*')
    ensures BlankStep(l) == InComment(l.(cursor := l.cursor.(offset := l.cursor.offset + 2)))
  {
  }

  lemma {:induction false} StepEnd(l: Lined)
    requires Ready(l) && |l.cursor.text.text| > 0
    requires !(l.cursor.offset < |l.cursor.text.text| && IsSpace(l.cursor.text.text[l.cursor.offset]))
    requires !Next2(l.cursor, '/', '/') && !Next2(l.cursor, '/', '*')
    ensures AdvancedLine(l).0 ==> BlankStep(l) == Again(AdvancedLine(l).1)
    ensures !AdvancedLine(l).0 ==> BlankStep(l) == Done(Success(l))
  {
  }

  /** `skip_whitespace_and_comments`: passes of its loop until one ends it,
      at a character that is none of those passes over or at the end of the
      code. */
  function SkipBlank(l: Lined): (r: Result<Lined>)
    requires Ready(l)
    decreases |l.remaining.text|, |l.cursor.text.text| - l.cursor.offset
    ensures r.Success? ==> Ready(r.value) && NoFurther(l, r.value) && Settled(r.value)
    ensures r.Success? && |l.cursor.text.text| > 0 ==> |r.value.cursor.text.text| > 0
    ensures r.Failure? ==>
      r.error == if |l.cursor.text.text| == 0 then Python("IndexError") else SyntaxError(CommentNotClosedMessage)
  {
    match BlankStep(l)
    case Done(r) => r
    case Again(m) => SkipBlank(m)
    case InComment(after) =>
      var closed := SkipComment(after);
      if closed.Failure? then Failure(closed.error) else SkipBlank(closed.value)
  }

  /** A comment opened on the last line is closed exactly when star, slash occurs
      on the rest of that line, and the skip then stops just past the first
      occurrence; otherwise it raises 'Comment not closed'. */
  lemma {:induction false} CommentOnLastLine(l: Lined)
    requires Ready(l) && |l.remaining.text| == 0
    ensures var t := l.cursor.text.text; var o := l.cursor.offset;
      (SkipComment(l).Success? <==> exists i :: o <= i < |t| && OccursAt(t, "*/", i))
      && (SkipComment(l).Failure? ==> SkipComment(l).error == SyntaxError(CommentNotClosedMessage))
      && (SkipComment(l).Success? ==>
            var i := SkipComment(l).value.cursor.offset - 2;
            OccursAt(t, "*/", i) && forall j :: o <= j < i ==> !OccursAt(t, "*/", j))
  {
    AdvancePastMeaning(l.cursor, "*/");
    var t := l.cursor.text.text;
    var found := FirstOccurrence(t, "*/", l.cursor.offset);
    if found.Some? {
      assert SkipComment(l) == Success(l.(cursor := l.cursor.(offset := found.value + 2)));
    } else {
      SkipLineReady(l);
      assert SkipComment(l) == Failure(SyntaxError(CommentNotClosedMessage));
    }
  }

  // ---------------------------------------------------------------------
  // The main loop

  /** One pass of the constructor's loop: the state and tokens the next
      pass starts from, or how the loop ends. */
  datatype Turn = Carry(state: Lined, tokens: seq<Token>) | Stop(outcome: Result<seq<Token>>)

  /** A pass runs while the code has more: it reads an integer, else a word,
      else a symbol, raising 'Unexpected character' when none reads, and then
      skips blanks and comments again. */
  function LoopTurn(l: Lined, ts: seq<Token>): (r: Turn)
    requires Ready(l)
    ensures r.Carry? ==> Ready(r.state) && Further(l, r.state)
    ensures r.Carry? && |l.cursor.text.text| > 0 ==> |r.state.cursor.text.text| > 0
    ensures r.Stop? && LinedHasMore(l) ==> r.outcome.Failure?
    ensures Separated(ts) && r.Carry? ==> Separated(r.tokens) && |ts| < |r.tokens| && r.tokens[..|ts|] == ts
    ensures Separated(ts) && r.Stop? && r.outcome.Failure? && |l.cursor.text.text| > 0 ==> r.outcome.error.Compiler?
  {
    if !LinedHasMore(l) then Stop(Success(ts))
    else
      var c := l.cursor;
      match ScanToken(c, LinedLength(l))
      case Nothing => Stop(Failure(SyntaxError(UnexpectedCharacterMessage)))
      case Raised(p, _) => ProblemKinds(p); Stop(Failure(ProblemError(p)))
      case Found(kind, end, value) =>
        var text := Span(c.text, c.offset, end);
        AddedSeparated(ts, kind, text, value);
        match AddToken(ts, kind, text, value)
        case Failure(e) => Stop(Failure(e))
        case Success(us) =>
          var closed := SkipBlank(Lined(c.(offset := end), l.remaining));
          if closed.Failure? then Stop(Failure(closed.error)) else Carry(closed.value, us)
  }

  /** The loop of the constructor from a state the skip has left: passes
      until one ends it. */
  function Loop(l: Lined, ts: seq<Token>): (r: Result<seq<Token>>)
    requires Ready(l)
    decreases |l.remaining.text|, |l.cursor.text.text| - l.cursor.offset
    ensures Separated(ts) && r.Success? ==> Separated(r.value) && |ts| <= |r.value| && r.value[..|ts|] == ts
    ensures Separated(ts) && r.Failure? && |l.cursor.text.text| > 0 ==> r.error.Compiler?
  {
    match LoopTurn(l, ts)
    case Stop(r) => r
    case Carry(m, us) =>
      var r := Loop(m, us);
      PrefixOfPrefix(ts, us, r);
      r
  }

  /** A prefix of a prefix is a prefix. */
  lemma {:induction false} PrefixOfPrefix(ts: seq<Token>, us: seq<Token>, r: Result<seq<Token>>)
    ensures |ts| <= |us| && us[..|ts|] == ts && r.Success? && |us| <= |r.value| && r.value[..|us|] == us
      ==> |ts| <= |r.value| && r.value[..|ts|] == ts
  {
    if |ts| <= |us| && us[..|ts|] == ts && r.Success? && |us| <= |r.value| && r.value[..|us|] == us {
      assert r.value[..|ts|] == r.value[..|us|][..|ts|];
    }
  }

  /** Adding a token read from the code to a separated list succeeds and
      keeps it separated, the old tokens first. */
  lemma {:induction false} AddedSeparated(ts: seq<Token>, kind: TokenType, text: PositionedString, value: Option<Literal>)
    requires kind != InstructionEnd && Valid(text) && |text.text| > 0
    ensures Separated(ts) ==>
      var r := AddToken(ts, kind, text, value);
      r.Success? && Separated(r.value) && |ts| < |r.value| && r.value[..|ts|] == ts
  {
    if Separated(ts) {
      AddTokenSeparated(ts, kind, text, value);
    }
  }

  /** The constructor's work on a state: skip, then the loop from no tokens on. */
  function Scanned(l: Lined, ts: seq<Token>): Result<seq<Token>>
    requires Ready(l)
  {
    match SkipBlank(l)
    case Failure(e) => Failure(e)
    case Success(m) => Loop(m, ts)
  }

  /** The LinedCode a str opens on is ready, and on a text with characters
      its first line has some. */
  lemma {:induction false} OpenedReady(s: string)
    ensures Ready(OpenedLines(Opened(Plain(s))))
    ensures |Opened(Plain(s)).text| > 0 ==> |OpenedLines(Opened(Plain(s))).cursor.text.text| > 0
    ensures |Opened(Plain(s)).text| == 0 ==> |OpenedLines(Opened(Plain(s))).cursor.text.text| == 0
  {
    var p := Opened(Plain(s));
    SkipLineReady(Lined(Cursor(p, 0), p));
  }

  /** `tokenize`: the tokens of the text, or the exception raised. The
      tokens come out separated as `addtoken` keeps them; a text with no
      characters once line breaks are dropped raises IndexError on its first
      character, and on any other text every exception raised is a
      CompilerException. */
  function Tokenized(s: string): (r: Result<seq<Token>>)
    ensures r.Success? ==> Separated(r.value)
    ensures |Opened(Plain(s)).text| == 0 ==> r == Failure(Python("IndexError"))
    ensures |Opened(Plain(s)).text| > 0 && r.Failure? ==> r.error.Compiler?
  {
    OpenedReady(s);
    Scanned(OpenedLines(Opened(Plain(s))), [])
  }

  /** `tokenize(file)` as written: `Tokenizer(text)` builds `LinedCode(text)`,
      whose `Code(text)` raises TypeError on every str. So the tokenizer as
      written never gives a token, and it differs from Tokenized on every
      text, which never raises TypeError. */
  function TokenizedAsWritten(s: string): (r: Result<seq<Token>>)
    ensures r == Failure(Python("TypeError"))
    ensures r != Tokenized(s)
  {
    var code := OpenedAsWritten(Plain(s));
    if code.Failure? then Failure(code.error) else Tokenized(s)
  }

  // ---------------------------------------------------------------------
  // The Tokenizer object

  /** A Tokenizer: the LinedCode it reads and the tokens it has added. */
  class Tokenizer {
    const code: LinedCode
    var tokens: seq<Token>

    function State(): Lined
      reads this, code, code.code
    {
      code.State()
    }

    predicate Valid()
      reads this, code, code.code
    {
      code.Valid() && Ready(State())
    }

    function Cursor(): Cursor
      reads this, code, code.code
    {
      code.code.State()
    }

    /** `Tokenizer(text)` up to its loop, which is Run: a LinedCode on the
        text and no tokens. */
    constructor (text: string)
      ensures fresh(code) && fresh(code.code)
      ensures Valid() && tokens == []
      ensures State() == OpenedLines(Opened(Plain(text)))
    {
      OpenedReady(text);
      code := new LinedCode(Plain(text));
      tokens := [];
    }

    // The Code steps the readers take, each stated by what it tests and
    // how far it moves the offset along the current line.

    /** `code.match(a)` of one character. */
    method MatchChar(a: char) returns (found: bool)
      requires Valid()
      modifies code.code
      ensures Valid() && code.code.text == old(code.code.text)
      ensures found == Next1(old(Cursor()), a)
      ensures code.code.offset == if found then old(code.code.offset) + 1 else old(code.code.offset)
    {
      MatchOne(Cursor(), a);
      var m := code.code.Match([[a]]);
      found := m.Some?;
    }

    /** `code.match(ab)` of two characters. */
    method MatchPair(a: char, b: char) returns (found: bool)
      requires Valid()
      modifies code.code
      ensures Valid() && code.code.text == old(code.code.text)
      ensures found == Next2(old(Cursor()), a, b)
      ensures code.code.offset == if found then old(code.code.offset) + 2 else old(code.code.offset)
    {
      MatchPairAt(Cursor(), a, b);
      var m := code.code.Match([[a, b]]);
      found := m.Some?;
    }

    /** `code.match(ab, ac)`: a prefix in either case. */
    method MatchPrefix(a: char, b: char, b2: char) returns (found: bool)
      requires Valid()
      modifies code.code
      ensures Valid() && code.code.text == old(code.code.text)
      ensures found == (Next2(old(Cursor()), a, b) || Next2(old(Cursor()), a, b2))
      ensures code.code.offset == if found then old(code.code.offset) + 2 else old(code.code.offset)
    {
      MatchEither(Cursor(), a, b, b2);
      var m := code.code.Match([[a, b], [a, b2]]);
      found := m.Some?;
    }

    /** `code.match_range(lower, upper)`: the character read, if it lies in
        the range; IndexError on a line with no characters. */
    method MatchRange(lower: char, upper: char) returns (r: Result<Option<PositionedString>>)
      requires Valid() && '\0' < lower
      modifies code.code
      ensures Valid() && code.code.text == old(code.code.text)
      ensures var t := code.code.text.text; var o := old(code.code.offset);
        (r.Failure? <==> |t| == 0) && (r.Failure? ==> r.error == Python("IndexError"))
        && (r.Success? && r.value.Some? <==> o < |t| && lower <= t[o] <= upper)
        && (r.Success? && r.value.Some? ==> r.value.value.text == [t[o]] && code.code.offset == o + 1)
        && (!(r.Success? && r.value.Some?) ==> code.code.offset == o)
    {
      ghost var c := Cursor();
      MatchRangeAt(c, lower, upper);
      r := code.code.MatchRange(lower, upper);
      if r.Success? && r.value.Some? {
        assert r.value.value == Span(c.text, c.offset, c.offset + 1);
      }
    }

    /** `code.advance(amount)` inside the current line. */
    method Advance(amount: nat)
      requires Valid() && code.code.offset + amount <= |code.code.text.text|
      modifies code.code
      ensures Valid() && code.code.text == old(code.code.text)
      ensures code.code.offset == old(code.code.offset) + amount
    {
      AdvanceMeaning(Cursor(), amount);
      var passed := code.code.Advance(amount);
    }

    /** `addtoken(token_type, text, value)`. */
    method AddToken(kind: TokenType, text: PositionedString, value: Option<Literal>) returns (r: Result<Token>)
      modifies this
      ensures match Tokens.AddToken(old(tokens), kind, text, value)
        case Success(us) => r.Success? && tokens == us && r.value == Last(us)
        case Failure(e) => r == Failure(e) && tokens == old(tokens)
    {
      var v := if value.Some? then value.value else StrLiteral(text.text);
      if |tokens| > 0 {
        var last := TokenLine(tokens[|tokens| - 1]);
        if last.Failure? {
          return Failure(last.error);
        }
        var here := Line(text, 0);
        if here.Failure? {
          return Failure(here.error);
        }
        if last.value != here.value {
          tokens := tokens + [EndToken()];
        }
      }
      var token := Token(kind, CodeObject(Some(v), text));
      tokens := tokens + [token];
      r := Success(token);
    }

    /** `addtoken(kind, code.substring(start=start), value)`: the text from
        `start` to the offset. */
    method AddRead(kind: TokenType, start: int, value: Option<Literal>) returns (r: Result<bool>)
      requires Valid() && 0 <= start <= code.code.offset
      modifies this
      ensures Read(r, Cursor(), tokens)
        == Emit(old(tokens), kind, Span(code.code.text, start, code.code.offset), value, Cursor())
    {
      var text := Substring(code.code.State(), Some(start), None, None, false).value;
      SliceIsSpan(code.code.text, start, code.code.offset);
      var added := AddToken(kind, text, value);
      r := if added.Success? then Success(true) else Failure(added.error);
    }

    /** `match('0')`, else `match('1')`: a binary digit, read. */
    method ReadBinDigit() returns (d: Option<nat>)
      requires Valid()
      modifies code.code
      ensures Valid() && code.code.text == old(code.code.text)
      ensures var t := code.code.text.text; var o := old(code.code.offset);
        (d.Some? <==> o < |t| && IsDigit(t[o], 2))
        && (d.Some? ==> d.value == HexValue(t[o]).value && code.code.offset == o + 1)
        && (d.None? ==> code.code.offset == o)
    {
      ghost var t := code.code.text.text;
      ghost var o := code.code.offset;
      if o < |t| {
        RangeDigits(t[o]);
      }
      var zero := MatchChar('0');
      if zero {
        return Some(0);
      }
      var one := MatchChar('1');
      d := if one then Some(1) else None;
    }

    /** The `while True` loop of `tokenize_bin`: `match('0')`, else
        `match('1')`, up to the first character that is neither. */
    method BinDigits(ghost from: int, n0: nat) returns (n: nat)
      requires Valid() && 0 <= from <= code.code.offset
      requires DigitRun(code.code.text.text, from, 2) == DigitRun(code.code.text.text, code.code.offset, 2)
      requires n0 == RunValue(code.code.text.text, from, code.code.offset, 2)
      modifies code.code
      ensures Valid() && code.code.text == old(code.code.text)
      ensures code.code.offset == DigitRun(code.code.text.text, from, 2)
      ensures n == RunValue(code.code.text.text, from, code.code.offset, 2)
    {
      ghost var s := code.code.text;
      ghost var t := s.text;
      n := n0;
      while true
        invariant Valid() && code.code.text == s && from <= code.code.offset <= |t|
        invariant DigitRun(t, from, 2) == DigitRun(t, code.code.offset, 2)
        invariant n == RunValue(t, from, code.code.offset, 2)
        decreases |t| - code.code.offset
      {
        var o := code.code.offset;
        var d := ReadBinDigit();
        if d.None? {
          DigitStop(t, from, o, 2);
          return;
        }
        DigitStep(t, from, o, 2, n);
        n := 2 * n + d.value;
      }
    }

    /** `int(code[0])` and `advance()`: a hexadecimal digit, read; the
        ValueError of any other character, the null character read past the
        end of the line included, reads nothing. */
    method ReadHexDigit() returns (d: Option<nat>)
      requires Valid() && |code.code.text.text| > 0
      modifies code.code
      ensures Valid() && code.code.text == old(code.code.text)
      ensures var t := code.code.text.text; var o := old(code.code.offset);
        (d.Some? <==> o < |t| && IsDigit(t[o], 16))
        && (d.Some? ==> d.value == HexValue(t[o]).value && code.code.offset == o + 1)
        && (d.None? ==> code.code.offset == o)
    {
      ghost var t := code.code.text.text;
      if code.code.offset < |t| {
        RangeDigits(t[code.code.offset]);
      }
      HexAt(Cursor());
      var v := Int(CharAt(code.code.State(), 0).value);
      if v.Failure? {
        return None;
      }
      Advance(1);
      d := Some(v.value);
    }

    /** The `while True` loop of `tokenize_hex`, up to the first ValueError. */
    method HexDigits(ghost from: int, n0: nat) returns (n: nat)
      requires Valid() && 0 <= from <= code.code.offset && |code.code.text.text| > 0
      requires DigitRun(code.code.text.text, from, 16) == DigitRun(code.code.text.text, code.code.offset, 16)
      requires n0 == RunValue(code.code.text.text, from, code.code.offset, 16)
      modifies code.code
      ensures Valid() && code.code.text == old(code.code.text)
      ensures code.code.offset == DigitRun(code.code.text.text, from, 16)
      ensures n == RunValue(code.code.text.text, from, code.code.offset, 16)
    {
      ghost var s := code.code.text;
      ghost var t := s.text;
      n := n0;
      while true
        invariant Valid() && code.code.text == s && from <= code.code.offset <= |t|
        invariant DigitRun(t, from, 16) == DigitRun(t, code.code.offset, 16)
        invariant n == RunValue(t, from, code.code.offset, 16)
        decreases |t| - code.code.offset
      {
        var o := code.code.offset;
        var d := ReadHexDigit();
        if d.None? {
          DigitStop(t, from, o, 16);
          return;
        }
        DigitStep(t, from, o, 16, n);
        n := 16 * n + d.value;
      }
    }

    /** The `while True` loop of `tokenize_oct` and of `tokenize_dec`:
        `match_range('0', top)` up to the first character out of the range. */
    method RangedDigits(ghost from: int, n0: nat, base: nat, top: char) returns (n: nat)
      requires Valid() && 0 <= from <= code.code.offset
      requires (base == 8 && top == '7') || (base == 10 && top == '9')
      requires DigitRun(code.code.text.text, from, base) == DigitRun(code.code.text.text, code.code.offset, base)
      requires n0 == RunValue(code.code.text.text, from, code.code.offset, base)
      modifies code.code
      ensures Valid() && code.code.text == old(code.code.text)
      ensures code.code.offset == DigitRun(code.code.text.text, from, base)
      ensures n == RunValue(code.code.text.text, from, code.code.offset, base)
    {
      ghost var s := code.code.text;
      ghost var t := s.text;
      n := n0;
      while true
        invariant Valid() && code.code.text == s && from <= code.code.offset <= |t|
        invariant DigitRun(t, from, base) == DigitRun(t, code.code.offset, base)
        invariant n == RunValue(t, from, code.code.offset, base)
        decreases |t| - code.code.offset
      {
        var o := code.code.offset;
        if o < |t| {
          RangeDigits(t[o]);
        }
        var ch := MatchRange('0', top);
        if ch.Failure? || ch.value.None? {
          DigitStop(t, from, o, base);
          return;
        }
        assert ch.value.value.text[0] == t[o];
        DigitStep(t, from, o, base, n);
        n := base * n + Int(ch.value.value).value;
      }
    }

    /** `tokenize_bin`. */
    method TokenizeBin() returns (r: Result<bool>)
      requires Valid()
      modifies this, code.code
      ensures Valid()
      ensures Read(r, Cursor(), tokens) == Perform(ScanBin(old(Cursor())), old(Cursor()), old(tokens))
    {
      ghost var c := Cursor();
      ghost var t := c.text.text;
      var start := code.code.offset;
      var prefix := MatchPrefix('0', 'b', 'B');
      if !prefix {
        return Success(false);
      }
      ghost var from := start + 2;
      var d := ReadBinDigit();
      if d.None? {
        DigitStop(t, from, from, 2);
        BinEnds(c, from, 0);
        return Failure(ProblemError(BadBinary));
      }
      DigitStep(t, from, from, 2, 0);
      var n := BinDigits(from, d.value);
      BinEnds(c, code.code.offset, n);
      r := AddRead(Integer, start, Some(IntLiteral(n)));
    }

    /** `tokenize_hex`: `int(code[0])` reads a hexadecimal digit and raises
        ValueError on any other character, the null character read past the
        end of the line included. */
    method TokenizeHex() returns (r: Result<bool>)
      requires Valid()
      modifies this, code.code
      ensures Valid()
      ensures Read(r, Cursor(), tokens) == Perform(ScanHex(old(Cursor())), old(Cursor()), old(tokens))
    {
      ghost var c := Cursor();
      ghost var t := c.text.text;
      var start := code.code.offset;
      var prefix := MatchPrefix('0', 'x', 'X');
      if !prefix {
        return Success(false);
      }
      ghost var from := start + 2;
      var d := ReadHexDigit();
      if d.None? {
        DigitStop(t, from, from, 16);
        HexEnds(c, from, 0);
        return Failure(ProblemError(BadHex));
      }
      DigitStep(t, from, from, 16, 0);
      var n := HexDigits(from, d.value);
      HexEnds(c, code.code.offset, n);
      r := AddRead(Integer, start, Some(IntLiteral(n)));
    }

    /** `tokenize_oct`. */
    method TokenizeOct() returns (r: Result<bool>)
      requires Valid()
      modifies this, code.code
      ensures Valid()
      ensures Read(r, Cursor(), tokens) == Perform(ScanOct(old(Cursor())), old(Cursor()), old(tokens))
    {
      ghost var c := Cursor();
      ghost var t := c.text.text;
      var start := code.code.offset;
      var zero := MatchChar('0');
      if !zero {
        return Success(false);
      }
      var n := RangedDigits(start + 1, 0, 8, '7');
      OctEnds(c, code.code.offset, n);
      r := AddRead(Integer, start, Some(IntLiteral(n)));
    }

    /** `tokenize_dec`. */
    method TokenizeDec() returns (r: Result<bool>)
      requires Valid()
      modifies this, code.code
      ensures Valid()
      ensures Read(r, Cursor(), tokens) == Perform(ScanDec(old(Cursor())), old(Cursor()), old(tokens))
    {
      ghost var c := Cursor();
      ghost var t := c.text.text;
      var start := code.code.offset;
      if start < |t| {
        RangeDigits(t[start]);
      }
      var ch := MatchRange('0', '9');
      if ch.Failure? {
        return Failure(ch.error);
      }
      if ch.value.None? {
        return Success(false);
      }
      assert ch.value.value.text[0] == t[start];
      DigitStep(t, start, start, 10, 0);
      var n := RangedDigits(start, Int(ch.value.value).value, 10, '9');
      DecEnds(c, code.code.offset, n);
      r := AddRead(Integer, start, Some(IntLiteral(n)));
    }

    /** `tokenize_char`: `code[1]` and `code[0]` read the null character
        past the end of the line. */
    method TokenizeChar() returns (r: Result<bool>)
      requires Valid()
      modifies this, code.code
      ensures Valid()
      ensures Read(r, Cursor(), tokens) == Perform(ScanChar(old(Cursor())), old(Cursor()), old(tokens))
    {
      ghost var c := Cursor();
      ghost var t := c.text.text;
      var start := code.code.offset;
      var quote := MatchChar('\'');
      if !quote {
        return Success(false);
      }
      QuoteAt(Cursor());
      if CharAt(code.code.State(), 1).value.text != "'" {
        if CharAt(code.code.State(), 0).value.text == "'" {
          return Failure(ProblemError(EmptyCharacter));
        }
        return Failure(ProblemError(UnclosedCharacter));
      }
      var ch := CharAt(code.code.State(), 0).value.text;
      Advance(2);
      if 32 <= ch[0] as int <= 126 {
        r := AddRead(Integer, start, Some(IntLiteral(ch[0] as int)));
      } else {
        r := Failure(ProblemError(UnprintableCharacter));
      }
    }

    /** The `for` loop of `tokenize_keyword_identifier_register`: the word
        grows by `code[i]` for i from 1 below `len(code)` while that is
        alphanumeric or an underscore. */
    method WordFrom(first: PositionedString, span: int) returns (word: PositionedString)
      requires Valid() && code.code.offset < |code.code.text.text|
      requires first == Span(code.code.text, code.code.offset, code.code.offset + 1)
      ensures word == Span(code.code.text, code.code.offset, WordEnd(code.code.text.text, code.code.offset, span))
    {
      ghost var c := Cursor();
      ghost var t := c.text.text;
      ghost var o := c.offset;
      word := first;
      var i := 1;
      while i < span
        invariant 1 <= i <= Max(span, 1) && o + i <= |t|
        invariant WordRun(t, o + 1) == WordRun(t, o + i)
        invariant word == Span(c.text, o, o + i)
        decreases span - i
      {
        var next := CharAt(code.code.State(), i);
        WordCharAt(c, i);
        if !IsWordChar(next.value.text[0]) {
          break;
        }
        WordGrows(c, i, word);
        word := Concat(word, next.value);
        i := i + 1;
      }
      WordEndAt(t, o, i, span);
    }

    /** `tokenize_keyword_identifier_register`. */
    method TokenizeWord() returns (r: Result<bool>)
      requires Valid()
      modifies this, code.code
      ensures Valid()
      ensures Read(r, Cursor(), tokens)
        == Perform(ScanWord(old(Cursor()), old(LinedLength(State()))), old(Cursor()), old(tokens))
    {
      ghost var c := Cursor();
      ghost var t := c.text.text;
      var o := code.code.offset;
      var first := CharAt(code.code.State(), 0);
      if first.Failure? {
        return Failure(first.error);
      }
      if !(IsLetter(first.value.text[0]) || first.value.text == "_") {
        return Success(false);
      }
      assert o < |t|;
      assert first.value == Span(c.text, o, o + 1);
      var word := WordFrom(first.value, LinedLength(code.State()));
      Advance(|word.text|);
      var added := AddToken(WordKind(word.text), word, None);
      r := if added.Success? then Success(true) else Failure(added.error);
    }

    /** `tokenize_symbol`. */
    method TokenizeSymbol() returns (r: Result<bool>)
      requires Valid()
      modifies this, code.code
      ensures Valid()
      ensures Read(r, Cursor(), tokens) == Perform(ScanSymbol(old(Cursor())), old(Cursor()), old(tokens))
    {
      ghost var c := Cursor();
      SymbolPerformed(c, tokens);
      SymbolMatched(c);
      var symbol := code.code.Match(Symbols);
      if symbol.None? {
        return Success(false);
      }
      var added := AddToken(Symbol, symbol.value, None);
      r := if added.Success? then Success(true) else Failure(added.error);
    }

    /** One of the functions `tokenize_int` tries. */
    method TokenizeWith(f: IntReader) returns (r: Result<bool>)
      requires Valid()
      modifies this, code.code
      ensures Valid()
      ensures Read(r, Cursor(), tokens) == Perform(ScanWith(f, old(Cursor())), old(Cursor()), old(tokens))
    {
      match f
      case BinReader => r := TokenizeBin();
      case HexReader => r := TokenizeHex();
      case OctReader => r := TokenizeOct();
      case DecReader => r := TokenizeDec();
      case CharReader => r := TokenizeChar();
    }

    /** `tokenize_int`: the readers in order, up to the first that adds a
        token or raises. */
    method TokenizeInt() returns (r: Result<bool>)
      requires Valid()
      modifies this, code.code
      ensures Valid()
      ensures Read(r, Cursor(), tokens) == Perform(ScanInt(old(Cursor())), old(Cursor()), old(tokens))
    {
      ghost var c := Cursor();
      ghost var ts := tokens;
      var readers := IntReaders;
      for k := 0 to |readers|
        invariant Valid() && Cursor() == c && tokens == ts
        invariant ScanFrom(k, c) == ScanInt(c)
      {
        r := TokenizeWith(readers[k]);
        PerformNothing(ScanWith(readers[k], c), c, ts);
        if r != Success(false) {
          return;
        }
      }
      r := Success(false);
    }

    /** The readers of the main loop: an integer, else a word, else a
        symbol, as the `and` of the three calls tries them. */
    method TokenizeAny() returns (r: Result<bool>)
      requires Valid()
      modifies this, code.code
      ensures Valid()
      ensures Read(r, Cursor(), tokens)
        == Perform(ScanToken(old(Cursor()), old(LinedLength(State()))), old(Cursor()), old(tokens))
    {
      ghost var c := Cursor();
      ghost var ts := tokens;
      PerformToken(c, LinedLength(State()), ts);
      PerformNothing(ScanInt(c), c, ts);
      PerformNothing(ScanWord(c, LinedLength(State())), c, ts);
      r := TokenizeInt();
      if r == Success(false) {
        r := TokenizeWord();
        if r == Success(false) {
          r := TokenizeSymbol();
        }
      }
    }

    /** One pass of the loop of `skip_whitespace_and_comments`: None when
        the loop goes on, else how the skip ends. */
    method SkipPass() returns (done: Option<Outcome>)
      requires Valid()
      modifies code, code.code
      ensures Valid()
      ensures match BlankStep(old(State()))
        case Again(m) => done.None? && State() == m
        case InComment(after) =>
          (SkipComment(after).Success? ==> done.None? && State() == SkipComment(after).value)
          && (SkipComment(after).Failure? ==> done == Some(Fail(SkipComment(after).error)))
        case Done(res) =>
          done.Some? && (res.Success? ==> done.value == Pass && State() == res.value)
          && (res.Failure? ==> done.value == Fail(res.error))
    {
      ghost var l := State();
      ghost var t := l.cursor.text.text;
      ghost var o := l.cursor.offset;
      var ch := CharAt(code.code.State(), 0);
      if ch.Failure? {
        return Some(Fail(ch.error));
      }
      if o < |t| {
        assert ch.value.text == [t[o]];
      } else {
        assert ch.value.text == "\0";
      }
      if IsSpace(ch.value.text[0]) {
        StepSpace(l);
        Advance(1);
        return None;
      }
      var line := MatchPair('/', '/');
      if line {
        StepLine(l);
        SkipLineReady(State());
        var more := code.SkipLine();
        return None;
      }
      var block := MatchPair('/', '*');
      if block {
        StepComment(l);
        var closed := SkipCommentBody();
        return if closed.Fail? then Some(closed) else None;
      }
      StepEnd(l);
      SkipLineReady(State());
      var moved := code.AdvanceLine();
      return if moved then None else Some(Pass);
    }

    /** `skip_whitespace_and_comments`. */
    method SkipWhitespaceAndComments() returns (r: Outcome)
      requires Valid()
      modifies code, code.code
      ensures Valid()
      ensures match SkipBlank(old(State()))
        case Success(m) => r == Pass && State() == m
        case Failure(e) => r == Fail(e)
    {
      ghost var goal := SkipBlank(State());
      while true
        invariant Valid() && SkipBlank(State()) == goal
        decreases |code.remaining.text|, |code.code.text.text| - code.code.offset
      {
        var done := SkipPass();
        if done.Some? {
          return done.value;
        }
      }
    }

    /** The loop of `skip_whitespace_and_comments` inside a block comment. */
    method SkipCommentBody() returns (r: Outcome)
      requires Valid()
      modifies code, code.code
      ensures Valid()
      ensures match SkipComment(old(State()))
        case Success(m) => r == Pass && State() == m
        case Failure(e) => r == Fail(e)
    {
      ghost var goal := SkipComment(State());
      while true
        invariant Valid() && SkipComment(State()) == goal
        decreases |code.remaining.text|
      {
        PastCommentEnd(Cursor());
        var past := code.code.AdvancePast("*/");
        if past.Some? {
          return Pass;
        }
        SkipLineReady(State());
        var more := code.SkipLine();
        if !more {
          return Fail(SyntaxError(CommentNotClosedMessage));
        }
      }
    }

    /** One pass of the loop of `Tokenizer(text)` while the code has more:
        a token, then the skip. */
    method RunPass() returns (r: Outcome)
      requires Valid() && LinedHasMore(State())
      modifies this, code, code.code
      ensures Valid()
      ensures match LoopTurn(old(State()), old(tokens))
        case Carry(m, us) => r == Pass && State() == m && tokens == us
        case Stop(res) => res.Failure? && r == Fail(res.error)
    {
      var read := TokenizeAny();
      if read.Failure? {
        return Fail(read.error);
      }
      if !read.value {
        return Fail(SyntaxError(UnexpectedCharacterMessage));
      }
      r := SkipWhitespaceAndComments();
    }

    /** The loop of `Tokenizer(text)`: skip, then passes while the code has
        more. */
    method Run() returns (r: Outcome)
      requires Valid()
      modifies this, code, code.code
      ensures Valid()
      ensures Scanned(old(State()), old(tokens)) == if r.Pass? then Success(tokens) else Failure(r.error)
    {
      var skipped := SkipWhitespaceAndComments();
      if skipped.Fail? {
        return skipped;
      }
      ghost var goal := Loop(State(), tokens);
      while LinedHasMore(code.State())
        invariant Valid() && Loop(State(), tokens) == goal
        decreases |code.remaining.text|, |code.code.text.text| - code.code.offset
      {
        var pass := RunPass();
        if pass.Fail? {
          return pass;
        }
      }
      r := Pass;
    }
  }

  /** A reader performing `Nothing` leaves everything as it was; any other
      scan either adds a token or raises. */
  lemma {:induction false} PerformNothing(s: Scan, c: Cursor, ts: seq<Token>)
    requires Within(c) && Fits(c, s)
    ensures Perform(s, c, ts).result == Success(false) <==> s.Nothing?
    ensures s.Nothing? ==> Perform(s, c, ts) == Read(Success(false), c, ts)
  {
  }

  /** The main loop's readers performed in turn: the first that does not
      read nothing decides. */
  lemma {:induction false} PerformToken(c: Cursor, span: int, ts: seq<Token>)
    requires Within(c)
    ensures var i := Perform(ScanInt(c), c, ts); var w := Perform(ScanWord(c, span), c, ts);
      Perform(ScanToken(c, span), c, ts)
      == if i.result != Success(false) then i
         else if w.result != Success(false) then w
         else Perform(ScanSymbol(c), c, ts)
  {
    PerformNothing(ScanInt(c), c, ts);
    PerformNothing(ScanWord(c, span), c, ts);
  }

  /** `tokenize(file)`: the tokens of `Tokenizer(code)`. */
  method Tokenize(text: string) returns (r: Result<seq<Token>>)
    ensures r == Tokenized(text)
  {
    var tokenizer := new Tokenizer(text);
    var outcome := tokenizer.Run();
    r := if outcome.Pass? then Success(tokenizer.tokens) else Failure(outcome.error);
  }
}
