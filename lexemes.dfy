/**
 * What each reader of the assembler's tokenizer (assembler/tokenizer.py)
 * reads at a cursor on the current line: binary, hexadecimal, octal and
 * decimal integers, character literals, words (keywords, registers and
 * identifiers) and symbols. Each reader is a function of the cursor giving
 * what it finds there: nothing of its kind, a token ending at some offset,
 * or an exception. Perform then adds the token found, as `addtoken` does;
 * the Tokenizer class performs the same steps on its LinedCode and is
 * proved to agree.
 */
module Lexemes {
  import opened Wrappers
  import opened PositionedStrings
  import opened CodeObjects
  import opened TextCode
  import opened Tokens
  import Assembly

  /** A cursor inside its text: sound, and not past the end. */
  predicate Within(c: Cursor) {
    Sound(c) && c.offset <= |c.text.text|
  }

  /** What a reader leaves: Success(true) when it added a token,
      Success(false) when the text does not start its kind of token, or the
      exception; and the cursor and tokens it leaves. */
  datatype Read = Read(result: Result<bool>, cursor: Cursor, tokens: seq<Token>)

  function SyntaxError(message: string): Error {
    Compiler("Syntax", message, [])
  }

  /** The characters from a to b of s, with their coordinates. */
  function Span(s: PositionedString, a: int, b: int): (r: PositionedString)
    requires Valid(s) && 0 <= a <= b <= |s.text|
    ensures Valid(r) && r.text == s.text[a..b] && |r.text| == b - a
  {
    PositionedString(s.text[a..b], s.coordinates[a..b])
  }

  /** Inside the text, a slice is the span. */
  lemma {:induction false} SliceIsSpan(s: PositionedString, a: int, b: int)
    requires Valid(s) && 0 <= a <= b <= |s.text|
    ensures Slice(s, Some(a), Some(b)) == Span(s, a, b)
  {
  }

  // ---------------------------------------------------------------------
  // Digits and their values

  /** A digit of the base: HexValue reads 0-9, a-f and A-F, and the base
      cuts that down to 0-1, 0-7, 0-9 or all sixteen. */
  predicate IsDigit(ch: char, base: nat) {
    HexValue(ch).Some? && HexValue(ch).value < base
  }

  predicate AllDigits(s: string, base: nat) {
    forall i :: 0 <= i < |s| ==> IsDigit(s[i], base)
  }

  /** The number the digits write, most significant first: the loop
      `n = base * n + digit` of every integer reader. */
  function Value(s: string, base: nat): nat
    decreases |s|
  {
    if |s| == 0 then 0 else Value(s[..|s| - 1], base) * base + DigitValue(s[|s| - 1])
  }

  /** What `int` gives for a digit character; Value is only applied to runs
      of digits, and gives 0 for any other character. */
  function DigitValue(ch: char): nat {
    if HexValue(ch).Some? then HexValue(ch).value else 0
  }

  /** The value of the digits of t from `from` to `end`, read in place: the
      loop `n = base * n + digit` as it runs over the text. */
  function RunValue(t: string, from: int, end: int, base: nat): nat
    requires 0 <= from <= end <= |t|
    decreases end - from
  {
    if end == from then 0 else RunValue(t, from, end - 1, base) * base + DigitValue(t[end - 1])
  }

  /** Read in place, the digits have the value of their slice. */
  lemma {:induction false} RunValueIsValue(t: string, from: int, end: int, base: nat)
    requires 0 <= from <= end <= |t|
    ensures RunValue(t, from, end, base) == Value(t[from..end], base)
    decreases end - from
  {
    if end > from {
      RunValueIsValue(t, from, end - 1, base);
      assert t[from..end][..end - 1 - from] == t[from..end - 1];
    }
  }

  /** One more digit multiplies by the base and adds it. */
  lemma {:induction false} ValueStep(t: string, from: int, i: int, base: nat)
    requires 0 <= from <= i < |t| && AllDigits(t[from..i + 1], base)
    ensures AllDigits(t[from..i], base)
    ensures Value(t[from..i + 1], base) == Value(t[from..i], base) * base + HexValue(t[i]).value
  {
    assert t[from..i + 1][..i - from] == t[from..i];
    assert t[from..i] == t[from..i + 1][..i - from];
  }

  /** Appending a digit appends it to the value. */
  lemma {:induction false} ValueSnoc(s: string, ch: char, base: nat)
    requires AllDigits(s, base) && IsDigit(ch, base)
    ensures AllDigits(s + [ch], base)
    ensures Value(s + [ch], base) == Value(s, base) * base + HexValue(ch).value
  {
    assert (s + [ch])[..|s|] == s;
  }

  /** `base` to the power n. */
  function Power(base: nat, n: nat): nat {
    if n == 0 then 1 else base * Power(base, n - 1)
  }

  lemma {:induction false} MulMonotone(x: nat, y: nat, z: nat)
    requires x <= y
    ensures x * z <= y * z
  {
  }

  /** n digits write a number below base^n. */
  lemma {:induction false} ValueBound(s: string, base: nat)
    requires AllDigits(s, base)
    ensures Value(s, base) < Power(base, |s|)
    decreases |s|
  {
    if |s| > 0 {
      var init := s[..|s| - 1];
      assert AllDigits(init, base) by {
        forall i | 0 <= i < |init| ensures IsDigit(init[i], base) {
          assert init[i] == s[i];
        }
      }
      ValueBound(init, base);
      assert IsDigit(s[|s| - 1], base);
      BoundStep(Value(init, base), Power(base, |init|), DigitValue(s[|s| - 1]), base);
    }
  }

  /** With v below p and a digit d below the base, v * base + d stays below
      base * p. */
  lemma BoundStep(v: nat, p: nat, d: nat, base: nat)
    requires v < p && d < base
    ensures v * base + d < base * p
  {
    MulMonotone(v + 1, p, base);
    assert (v + 1) * base == v * base + base;
    assert p * base == base * p;
  }

  /** The end of the run of digits of the base that starts at `from`. */
  function DigitRun(t: string, from: int, base: nat): (r: int)
    requires 0 <= from <= |t|
    decreases |t| - from
    ensures from <= r <= |t|
    ensures forall i :: from <= i < r ==> IsDigit(t[i], base)
    ensures r < |t| ==> !IsDigit(t[r], base)
  {
    if from == |t| || !IsDigit(t[from], base) then from
    else
      DigitRun(t, from + 1, base)
  }

  lemma {:induction false} DivMod(v: nat, base: nat)
    requires base > 0
    ensures (v / base) * base + v % base == v && v % base < base
  {
  }

  /** Dividing by the base shrinks a number that is at least the base. */
  lemma {:induction false} DivShrinks(v: nat, base: nat)
    requires 2 <= base <= v
    ensures 0 < v / base < v
  {
    DivMod(v, base);
    MulMonotone(2, base, v / base);
  }

  /** The digits that write v in the base, lower-case, without leading
      zeros: the numeral a programmer writes. */
  function Numeral(v: nat, base: nat): (s: string)
    requires 2 <= base <= 16
    decreases v
    ensures |s| > 0 && AllDigits(s, base)
  {
    if v < base then [HexDigit(v, false)]
    else
      DivShrinks(v, base);
      var init := Numeral(v / base, base);
      ValueSnoc(init, HexDigit(v % base, false), base);
      init + [HexDigit(v % base, false)]
  }


  /** Writing a number and reading the digits back gives the number. */
  lemma {:induction false} NumeralValue(v: nat, base: nat)
    requires 2 <= base <= 16
    ensures Value(Numeral(v, base), base) == v
    decreases v
  {
    if v < base {
      assert Numeral(v, base)[..0] == [];
    } else {
      var init := Numeral(v / base, base);
      var ch := HexDigit(v % base, false);
      assert Numeral(v, base) == init + [ch];
      DivShrinks(v, base);
      NumeralValue(v / base, base);
      ValueSnoc(init, ch, base);
      DivMod(v, base);
    }
  }

  /** A numeral starts with 0 only when it is "0". */
  lemma {:induction false} NumeralLead(v: nat, base: nat)
    requires 2 <= base <= 16
    ensures v == 0 ==> Numeral(v, base) == "0"
    ensures v > 0 ==> Numeral(v, base)[0] != '0'
    decreases v
  {
    if v >= base {
      var init := Numeral(v / base, base);
      assert Numeral(v, base) == init + [HexDigit(v % base, false)];
      DivShrinks(v, base);
      NumeralLead(v / base, base);
      assert Numeral(v, base)[0] == init[0];
    } else if v > 0 {
      assert HexValue(Numeral(v, base)[0]) == Some(v);
    }
  }

  /** A run of digits followed by a non-digit is where DigitRun stops. */
  lemma {:induction false} DigitRunOver(t: string, from: int, s: string, base: nat)
    requires 0 <= from && from + |s| <= |t| && t[from..from + |s|] == s && AllDigits(s, base)
    requires from + |s| < |t| ==> !IsDigit(t[from + |s|], base)
    ensures DigitRun(t, from, base) == from + |s|
    decreases |s|
  {
    if |s| > 0 {
      assert t[from] == s[0];
      assert t[from + 1..from + 1 + |s[1..]|] == s[1..];
      DigitRunOver(t, from + 1, s[1..], base);
    }
  }

  // ---------------------------------------------------------------------
  // What a reader finds, and adding the token it found

  /** What a reader finds at the cursor: nothing of its kind (it returns
      None), a token of a kind and value whose text runs from the cursor to
      `end`, or a problem it raises once the cursor has moved to `at`. */
  datatype Scan = Nothing | Found(kind: TokenType, end: int, value: Option<Literal>) | Raised(problem: Problem, at: int)

  /** The exceptions the readers raise: the syntax errors of malformed
      literals, and the IndexError of reading a character of a line that has
      none. */
  datatype Problem = BadBinary | BadHex | EmptyCharacter | UnclosedCharacter | UnprintableCharacter | EmptyLine

  const BadBinaryMessage := "Invalid binary literal"
  const BadHexMessage := "Invalid hex literal"
  const EmptyCharacterMessage := "Invalid character literal. Cannot have empty character literals"
  const UnclosedCharacterMessage := "Invalid character literal. Character has no closing quotation mark"
  const UnprintableCharacterMessage :=
    "Invalid character literal. Only characters with an ASCII value between 32 and 126 (inclusive) are allowed"

  /** The exception raised for each problem, with the tokenizer's messages. */
  function ProblemError(p: Problem): Error {
    match p
    case BadBinary => SyntaxError(BadBinaryMessage)
    case BadHex => SyntaxError(BadHexMessage)
    case EmptyCharacter => SyntaxError(EmptyCharacterMessage)
    case UnclosedCharacter => SyntaxError(UnclosedCharacterMessage)
    case UnprintableCharacter => SyntaxError(UnprintableCharacterMessage)
    case EmptyLine => Python("IndexError")
  }

  /** Every problem but an empty line raises a CompilerException. */
  lemma {:induction false} ProblemKinds(p: Problem)
    ensures ProblemError(p).Compiler? <==> p != EmptyLine
  {
  }

  /** A scan the cursor allows: a token is no INSTRUCTION_END and has a
      non-empty text inside the line; an exception leaves the cursor inside
      the line, and is an IndexError only on a line with no characters. */
  predicate Fits(c: Cursor, s: Scan) {
    match s
    case Nothing => true
    case Found(kind, end, _) => kind != InstructionEnd && c.offset < end <= |c.text.text|
    case Raised(p, at) => c.offset <= at <= |c.text.text| && (p == EmptyLine ==> |c.text.text| == 0)
  }

  /** `addtoken` after the cursor has moved to `after`; a raise leaves the
      tokens as they were. */
  function Emit(ts: seq<Token>, kind: TokenType, text: PositionedString, value: Option<Literal>, after: Cursor): Read {
    match AddToken(ts, kind, text, value)
    case Success(us) => Read(Success(true), after, us)
    case Failure(e) => Read(Failure(e), after, ts)
  }

  /** What the reader leaves: the cursor where it stopped, the tokens with
      the token it found added, and whether it read, read nothing or raised. */
  function Perform(s: Scan, c: Cursor, ts: seq<Token>): Read
    requires Within(c) && Fits(c, s)
  {
    match s
    case Nothing => Read(Success(false), c, ts)
    case Found(kind, end, value) => Emit(ts, kind, Span(c.text, c.offset, end), value, c.(offset := end))
    case Raised(p, at) => Read(Failure(ProblemError(p)), c.(offset := at), ts)
  }

  function Last(ts: seq<Token>): Token
    requires |ts| > 0
  {
    ts[|ts| - 1]
  }

  /** What every reader promises: it stays on the cursor's text inside its
      bounds; reading nothing moves nothing; a raise adds no token; a token
      read is exactly the characters passed over, and added after the tokens
      so far; and a separated list stays separated, with no exception but a
      CompilerException unless the line has no characters at all. */
  predicate Reads(c: Cursor, ts: seq<Token>, r: Read)
    requires Within(c)
  {
    r.cursor.text == c.text && c.offset <= r.cursor.offset <= |c.text.text|
    && (r.result == Success(false) ==> r.cursor == c && r.tokens == ts)
    && (r.result.Failure? ==> r.tokens == ts)
    && (r.result == Success(true) ==>
          c.offset < r.cursor.offset && |ts| < |r.tokens| && r.tokens[..|ts|] == ts
          && Last(r.tokens).kind != InstructionEnd
          && Last(r.tokens).code.source == Span(c.text, c.offset, r.cursor.offset))
    && (Separated(ts) ==>
          Separated(r.tokens) && (r.result.Failure? ==> r.result.error.Compiler? || |c.text.text| == 0))
  }

  /** Whatever a reader found, adding it keeps every promise of a reader. */
  lemma {:induction false} PerformReads(s: Scan, c: Cursor, ts: seq<Token>)
    requires Within(c) && Fits(c, s)
    ensures Reads(c, ts, Perform(s, c, ts))
  {
    match s
    case Nothing =>
    case Raised(p, _) => ProblemKinds(p);
    case Found(kind, end, value) =>
      var text := Span(c.text, c.offset, end);
      if Separated(ts) {
        AddTokenSeparated(ts, kind, text, value);
      }
  }

  /** The token `addtoken` puts last for a token found from the cursor to `end`. */
  function FoundToken(c: Cursor, kind: TokenType, end: int, value: Option<Literal>): Token
    requires Within(c) && c.offset <= end <= |c.text.text|
  {
    var text := Span(c.text, c.offset, end);
    Token(kind, CodeObject(Some(LiteralOr(value, text)), text))
  }

  /** After a separated list, a token found is added last and the cursor
      moves to its end. */
  lemma {:induction false} FoundLast(c: Cursor, ts: seq<Token>, s: Scan, kind: TokenType, end: int, value: Option<Literal>)
    requires Within(c) && Separated(ts) && s == Found(kind, end, value) && Fits(c, s)
    ensures var r := Perform(s, c, ts);
      r.result == Success(true) && r.cursor == c.(offset := end)
      && |r.tokens| > 0 && Last(r.tokens) == FoundToken(c, kind, end, value)
  {
    AddTokenSeparated(ts, kind, Span(c.text, c.offset, end), value);
  }

  // ---------------------------------------------------------------------
  // Integers

  /** The text goes on with the characters a and b (with a alone). */
  predicate Next2(c: Cursor, a: char, b: char) {
    0 <= c.offset && c.offset + 1 < |c.text.text| && c.text.text[c.offset] == a && c.text.text[c.offset + 1] == b
  }

  predicate Next1(c: Cursor, a: char) {
    0 <= c.offset < |c.text.text| && c.text.text[c.offset] == a
  }

  /** `match` of a two-character or a one-character candidate tests the next
      characters. */
  lemma {:induction false} Next2Test(c: Cursor, a: char, b: char)
    ensures Continues(c, [a, b]) <==> Next2(c, a, b)
  {
    if Continues(c, [a, b]) {
      ContinuesAt(c, [a, b]);
    }
    if Next2(c, a, b) {
      assert c.text.text[c.offset..c.offset + 2] == [a, b];
    }
  }

  lemma {:induction false} Next1Test(c: Cursor, a: char)
    ensures Continues(c, [a]) <==> Next1(c, a)
  {
    if Continues(c, [a]) {
      ContinuesAt(c, [a]);
    }
    if Next1(c, a) {
      assert c.text.text[c.offset..c.offset + 1] == [a];
    }
  }

  /** `tokenize_bin`: `match('0b', '0B')`, then one or more binary digits. */
  function ScanBin(c: Cursor): (r: Scan)
    requires Within(c)
    ensures Fits(c, r)
  {
    var t := c.text.text;
    if !(Next2(c, '0', 'b') || Next2(c, '0', 'B')) then Nothing
    else
      var from := c.offset + 2;
      var end := DigitRun(t, from, 2);
      if end == from then Raised(BadBinary, from)
      else Found(Integer, end, Some(IntLiteral(RunValue(t, from, end, 2))))
  }

  /** `tokenize_hex`: `match('0x', '0X')`, then one or more hexadecimal digits. */
  function ScanHex(c: Cursor): (r: Scan)
    requires Within(c)
    ensures Fits(c, r)
  {
    var t := c.text.text;
    if !(Next2(c, '0', 'x') || Next2(c, '0', 'X')) then Nothing
    else
      var from := c.offset + 2;
      var end := DigitRun(t, from, 16);
      if end == from then Raised(BadHex, from)
      else Found(Integer, end, Some(IntLiteral(RunValue(t, from, end, 16))))
  }

  /** `tokenize_oct`: `match('0')`, then zero or more octal digits; "0" alone is 0. */
  function ScanOct(c: Cursor): (r: Scan)
    requires Within(c)
    ensures Fits(c, r)
  {
    var t := c.text.text;
    if !Next1(c, '0') then Nothing
    else
      var from := c.offset + 1;
      var end := DigitRun(t, from, 8);
      Found(Integer, end, Some(IntLiteral(RunValue(t, from, end, 8))))
  }

  /** `tokenize_dec`: one or more decimal digits. `match_range` reads the
      character at the cursor, which raises on a line with no characters. */
  function ScanDec(c: Cursor): (r: Scan)
    requires Within(c)
    ensures Fits(c, r)
  {
    var t := c.text.text;
    if |t| == 0 then Raised(EmptyLine, c.offset)
    else if !(c.offset < |t| && IsDigit(t[c.offset], 10)) then Nothing
    else
      var end := DigitRun(t, c.offset, 10);
      Found(Integer, end, Some(IntLiteral(RunValue(t, c.offset, end, 10))))
  }

  /** `tokenize_char`: a quotation mark, one character with a code from 32
      to 126, and a closing quotation mark; the value is the code. */
  function ScanChar(c: Cursor): (r: Scan)
    requires Within(c)
    ensures Fits(c, r)
  {
    var t := c.text.text;
    var o := c.offset;
    if !Next1(c, '\'') then Nothing
    else if !(o + 2 < |t| && t[o + 2] == '\'') then
      Raised(if o + 1 < |t| && t[o + 1] == '\'' then EmptyCharacter else UnclosedCharacter, o + 1)
    else if 32 <= t[o + 1] as int <= 126 then Found(Integer, o + 3, Some(IntLiteral(t[o + 1] as int)))
    else Raised(UnprintableCharacter, o + 3)
  }

  /** The integer readers, in the order `tokenize_int` tries them. */
  datatype IntReader = BinReader | HexReader | OctReader | DecReader | CharReader

  const IntReaders: seq<IntReader> := [BinReader, HexReader, OctReader, DecReader, CharReader]

  function ScanWith(f: IntReader, c: Cursor): (r: Scan)
    requires Within(c)
    ensures Fits(c, r)
  {
    match f
    case BinReader => ScanBin(c)
    case HexReader => ScanHex(c)
    case OctReader => ScanOct(c)
    case DecReader => ScanDec(c)
    case CharReader => ScanChar(c)
  }

  /** The loop of `tokenize_int` from its k-th reader on: the first reader
      that reads or raises decides, and when none does nothing is read. */
  function ScanFrom(k: nat, c: Cursor): (r: Scan)
    requires Within(c)
    decreases |IntReaders| - k
    ensures Fits(c, r)
  {
    if k >= |IntReaders| then Nothing
    else
      var r := ScanWith(IntReaders[k], c);
      if !r.Nothing? then r else ScanFrom(k + 1, c)
  }

  /** `tokenize_int`: binary, hexadecimal, octal, decimal and character
      literals tried in that order. */
  function ScanInt(c: Cursor): (r: Scan)
    requires Within(c)
    ensures Fits(c, r)
  {
    ScanFrom(0, c)
  }

  // ---------------------------------------------------------------------
  // Words and symbols

  /** `isalpha` and `isalnum` on one character, for ASCII letters and digits. */
  predicate IsLetter(ch: char) {
    'a' <= ch <= 'z' || 'A' <= ch <= 'Z'
  }

  predicate IsWordStart(ch: char) {
    IsLetter(ch) || ch == '_'
  }

  predicate IsWordChar(ch: char) {
    IsLetter(ch) || '0' <= ch <= '9' || ch == '_'
  }

  /** The end of the run of word characters from `from` on. */
  function WordRun(t: string, from: int): (r: int)
    requires 0 <= from <= |t|
    decreases |t| - from
    ensures from <= r <= |t|
    ensures forall i :: from <= i < r ==> IsWordChar(t[i])
    ensures r < |t| ==> !IsWordChar(t[r])
  {
    if from == |t| || !IsWordChar(t[from]) then from else WordRun(t, from + 1)
  }

  /** Where the word that starts at o ends: the `for` loop runs i from 1 up
      to `len(code)` and stops early at the first character that is neither
      alphanumeric nor an underscore. */
  function WordEnd(t: string, o: int, span: int): (r: int)
    requires 0 <= o < |t|
    ensures o < r <= |t|
  {
    Min(WordRun(t, o + 1), o + Max(span, 1))
  }

  /** `word in keywords`, then `word in registers`, else an identifier. */
  function WordKind(w: string): TokenType {
    if Assembly.KeywordNamed(w).Some? then Keyword
    else if Assembly.RegisterNamed(w).Some? then Register
    else Identifier
  }

  /** `tokenize_keyword_identifier_register`, `span` being `len(code)`. */
  function ScanWord(c: Cursor, span: int): (r: Scan)
    requires Within(c)
    ensures Fits(c, r)
  {
    var t := c.text.text;
    var o := c.offset;
    if |t| == 0 then Raised(EmptyLine, o)
    else if !(o < |t| && IsWordStart(t[o])) then Nothing
    else
      var end := WordEnd(t, o, span);
      Found(WordKind(t[o..end]), end, None)
  }

  const Symbols: seq<string> := [":", "+", "-", "&", "|", "!", "(", ")"]

  /** The symbol `match` passes over is the one the text goes on with. */
  lemma {:induction false} SymbolMatched(c: Cursor)
    requires Within(c)
    ensures var (m, d) := Matched(c, Symbols);
      (m.None? <==> forall k :: 0 <= k < |Symbols| ==> !Continues(c, Symbols[k]))
      && (m.None? ==> d == c)
      && (m.Some? ==>
            d == c.(offset := c.offset + 1) && d.offset <= |c.text.text|
            && m.value == Span(c.text, c.offset, d.offset))
  {
    MatchMeaning(c, Symbols);
    var first := FirstMatch(c, Symbols, 0);
    if first.Some? {
      assert |Symbols[first.value]| == 1;
    }
  }

  /** `tokenize_symbol`: one of the symbols, its text as its value. */
  function ScanSymbol(c: Cursor): (r: Scan)
    requires Within(c)
    ensures Fits(c, r)
  {
    SymbolMatched(c);
    var (m, d) := Matched(c, Symbols);
    if m.None? then Nothing else Found(Symbol, d.offset, None)
  }

  /** The symbol found is the one `match` passed over, and the cursor the
      one it left. */
  lemma {:induction false} SymbolPerformed(c: Cursor, ts: seq<Token>)
    requires Within(c)
    ensures var (m, d) := Matched(c, Symbols);
      Perform(ScanSymbol(c), c, ts) == if m.None? then Read(Success(false), c, ts) else Emit(ts, Symbol, m.value, None, d)
  {
    SymbolMatched(c);
  }

  /** The readers of the main loop: an integer, else a word, else a symbol. */
  function ScanToken(c: Cursor, span: int): (r: Scan)
    requires Within(c)
    ensures Fits(c, r)
  {
    var i := ScanInt(c);
    if !i.Nothing? then i
    else
      var w := ScanWord(c, span);
      if !w.Nothing? then w else ScanSymbol(c)
  }

  // ---------------------------------------------------------------------
  // What the readers read

  /** The literal ends at k: no word character follows it there. */
  predicate Delimited(t: string, k: int) {
    0 <= k && (k < |t| ==> !IsWordChar(t[k]))
  }

  /** A literal delimited at k is followed by no digit of any base. */
  lemma {:induction false} DelimitedNoDigit(t: string, k: int, base: nat)
    requires Delimited(t, k)
    ensures k < |t| ==> !IsDigit(t[k], base)
  {
  }

  /** Continuing with a + b is continuing with a and then with b. */
  lemma {:induction false} ContinuesSplit(c: Cursor, a: string, b: string)
    requires Continues(c, a + b)
    ensures Continues(c, a) && c.text.text[c.offset + |a|..c.offset + |a| + |b|] == b
  {
    var t := c.text.text;
    var o := c.offset;
    assert t[o..o + |a|] == (a + b)[..|a|];
    assert t[o + |a|..o + |a| + |b|] == (a + b)[|a|..];
  }

  /** The text goes on with m character by character. */
  lemma {:induction false} ContinuesAt(c: Cursor, m: string)
    requires Continues(c, m)
    ensures forall i :: 0 <= i < |m| ==> c.text.text[c.offset + i] == m[i]
  {
    var t := c.text.text;
    var o := c.offset;
    forall i | 0 <= i < |m|
      ensures t[o + i] == m[i]
    {
      assert t[o..o + |m|][i] == t[o + i];
    }
  }

  /** A reader that finds nothing passes the cursor on to the next one. */
  lemma {:induction false} PassesOn(k: nat, c: Cursor)
    requires Within(c) && k < |IntReaders| && ScanWith(IntReaders[k], c).Nothing?
    ensures ScanFrom(k, c) == ScanFrom(k + 1, c)
  {
  }

  /** A reader that finds a token or raises decides what the loop gives. */
  lemma {:induction false} Decides(k: nat, c: Cursor)
    requires Within(c) && k < |IntReaders| && !ScanWith(IntReaders[k], c).Nothing?
    ensures ScanFrom(k, c) == ScanWith(IntReaders[k], c)
  {
  }

  /** When the loop finds nothing, every reader from the k-th on found nothing. */
  lemma {:induction false} NoneFound(k: nat, c: Cursor, j: nat)
    requires Within(c) && ScanFrom(k, c).Nothing? && k <= j < |IntReaders|
    ensures ScanWith(IntReaders[j], c).Nothing?
    decreases j - k
  {
    if k < j {
      NoneFound(k + 1, c, j);
    }
  }

  /** Without a digit or a quotation mark at the cursor no integer is read. */
  lemma {:induction false} IntDeclines(c: Cursor)
    requires Within(c) && c.offset < |c.text.text|
    requires !IsDigit(c.text.text[c.offset], 10) && c.text.text[c.offset] != '\''
    ensures ScanInt(c) == Nothing
  {
    PassesOn(0, c);
    PassesOn(1, c);
    PassesOn(2, c);
    PassesOn(3, c);
    PassesOn(4, c);
  }

  /** A digit or a quotation mark at the cursor makes the integer reader
      find a token or raise. */
  lemma {:induction false} IntReads(c: Cursor)
    requires Within(c) && c.offset < |c.text.text|
    requires IsDigit(c.text.text[c.offset], 10) || c.text.text[c.offset] == '\''
    ensures !ScanInt(c).Nothing?
  {
    var t := c.text.text;
    var o := c.offset;
    var j: nat;
    if t[o] == '0' {
      assert t[o..o + 1] == "0";
      assert !ScanOct(c).Nothing?;
      j := 2;
    } else if t[o] == '\'' {
      assert t[o..o + 1] == "'";
      assert !ScanChar(c).Nothing?;
      j := 4;
    } else {
      assert !ScanDec(c).Nothing?;
      j := 3;
    }
    assert !ScanWith(IntReaders[j], c).Nothing?;
    if ScanInt(c).Nothing? {
      NoneFound(0, c, j);
      assert false;
    }
  }

  /** A run of digits after a prefix, followed by no word character, is the
      run DigitRun finds, and has the value of the digits. */
  lemma {:induction false} LiteralRun(c: Cursor, prefix: string, s: string, base: nat, from: int, end: int)
    requires Within(c) && AllDigits(s, base)
    requires from == c.offset + |prefix| && end == from + |s|
    requires Continues(c, prefix + s) && Delimited(c.text.text, end)
    ensures Continues(c, prefix) && end <= |c.text.text| && DigitRun(c.text.text, from, base) == end
    ensures RunValue(c.text.text, from, end, base) == Value(s, base)
  {
    ContinuesSplit(c, prefix, s);
    RunValueIsValue(c.text.text, from, end, base);
    DelimitedNoDigit(c.text.text, end, base);
    DigitRunOver(c.text.text, from, s, base);
  }

  /** An INTEGER token with value v whose text ends at `end`. */
  function IntegerFound(end: int, v: int): Scan {
    Found(Integer, end, Some(IntLiteral(v)))
  }

  /** Binary digits after "0b", followed by no word character, are read by
      the binary reader as the number they write. */
  lemma {:induction false} BinaryReadsBack(c: Cursor, s: string)
    requires Within(c) && |s| > 0 && AllDigits(s, 2)
    requires Continues(c, "0b" + s) && Delimited(c.text.text, c.offset + 2 + |s|)
    ensures ScanBin(c) == IntegerFound(c.offset + 2 + |s|, Value(s, 2))
  {
    LiteralRun(c, "0b", s, 2, c.offset + 2, c.offset + 2 + |s|);
    ContinuesAt(c, "0b");
  }

  /** Hexadecimal digits after "0x", followed by no word character, are read
      by the hexadecimal reader as the number they write. */
  lemma {:induction false} HexReadsBack(c: Cursor, s: string)
    requires Within(c) && |s| > 0 && AllDigits(s, 16)
    requires Continues(c, "0x" + s) && Delimited(c.text.text, c.offset + 2 + |s|)
    ensures ScanHex(c) == IntegerFound(c.offset + 2 + |s|, Value(s, 16))
  {
    LiteralRun(c, "0x", s, 16, c.offset + 2, c.offset + 2 + |s|);
    ContinuesAt(c, "0x");
  }

  /** Octal digits, none of them or more, after "0" and followed by no word
      character, are read by the octal reader as the number they write; "0"
      alone reads as 0. */
  lemma {:induction false} OctalReadsBack(c: Cursor, s: string)
    requires Within(c) && AllDigits(s, 8)
    requires Continues(c, "0" + s) && Delimited(c.text.text, c.offset + 1 + |s|)
    ensures ScanOct(c) == IntegerFound(c.offset + 1 + |s|, Value(s, 8))
  {
    LiteralRun(c, "0", s, 8, c.offset + 1, c.offset + 1 + |s|);
    ContinuesAt(c, "0");
  }

  /** Decimal digits, followed by no word character, are read by the decimal
      reader as the number they write. */
  lemma {:induction false} DecimalReadsBack(c: Cursor, s: string)
    requires Within(c) && |s| > 0 && AllDigits(s, 10)
    requires Continues(c, s) && Delimited(c.text.text, c.offset + |s|)
    ensures c.offset < |c.text.text| && c.text.text[c.offset] == s[0]
    ensures ScanDec(c) == IntegerFound(c.offset + |s|, Value(s, 10))
  {
    assert "" + s == s;
    LiteralRun(c, "", s, 10, c.offset, c.offset + |s|);
    assert c.text.text[c.offset..c.offset + |s|][0] == c.text.text[c.offset];
  }

  /** A printable character between quotation marks is read by the
      character reader as its code. */
  lemma {:induction false} CharacterReadsBack(c: Cursor, ch: char)
    requires Within(c) && 32 <= ch as int <= 126
    requires Continues(c, ['\'', ch, '\''])
    ensures c.offset < |c.text.text| && c.text.text[c.offset] == '\''
    ensures ScanChar(c) == IntegerFound(c.offset + 3, ch as int)
  {
    var t := c.text.text;
    var o := c.offset;
    ContinuesAt(c, ['\'', ch, '\'']);
    assert t[o..o + 1] == "'";
  }

  /** A binary literal is read by the integer reader as its value. */
  lemma {:induction false} BinaryInt(c: Cursor, s: string)
    requires Within(c) && |s| > 0 && AllDigits(s, 2)
    requires Continues(c, "0b" + s) && Delimited(c.text.text, c.offset + 2 + |s|)
    ensures ScanInt(c) == IntegerFound(c.offset + 2 + |s|, Value(s, 2))
  {
    BinaryReadsBack(c, s);
    Decides(0, c);
  }

  /** A hexadecimal literal is read by the integer reader as its value. */
  lemma {:induction false} HexInt(c: Cursor, s: string)
    requires Within(c) && |s| > 0 && AllDigits(s, 16)
    requires Continues(c, "0x" + s) && Delimited(c.text.text, c.offset + 2 + |s|)
    ensures ScanInt(c) == IntegerFound(c.offset + 2 + |s|, Value(s, 16))
  {
    HexReadsBack(c, s);
    ContinuesSplit(c, "0x", s);
    ContinuesAt(c, "0x");
    PassesOn(0, c);
    Decides(1, c);
  }

  /** An octal literal is read by the integer reader as its value. */
  lemma {:induction false} OctalInt(c: Cursor, s: string)
    requires Within(c) && AllDigits(s, 8)
    requires Continues(c, "0" + s) && Delimited(c.text.text, c.offset + 1 + |s|)
    ensures ScanInt(c) == IntegerFound(c.offset + 1 + |s|, Value(s, 8))
  {
    var t := c.text.text;
    var o := c.offset;
    OctalReadsBack(c, s);
    ContinuesAt(c, "0" + s);
    if |s| > 0 {
      assert t[o + 1] == s[0] && IsDigit(s[0], 8);
    }
    PassesOn(0, c);
    PassesOn(1, c);
    Decides(2, c);
  }

  /** A decimal literal that does not start with 0 is read by the integer
      reader as its value. */
  lemma {:induction false} DecimalInt(c: Cursor, s: string)
    requires Within(c) && |s| > 0 && AllDigits(s, 10) && s[0] != '0'
    requires Continues(c, s) && Delimited(c.text.text, c.offset + |s|)
    ensures ScanInt(c) == IntegerFound(c.offset + |s|, Value(s, 10))
  {
    DecimalReadsBack(c, s);
    PassesOn(0, c);
    PassesOn(1, c);
    PassesOn(2, c);
    Decides(3, c);
  }

  /** A character literal is read by the integer reader as the character's code. */
  lemma {:induction false} CharacterInt(c: Cursor, ch: char)
    requires Within(c) && 32 <= ch as int <= 126
    requires Continues(c, ['\'', ch, '\''])
    ensures ScanInt(c) == IntegerFound(c.offset + 3, ch as int)
  {
    CharacterReadsBack(c, ch);
    PassesOn(0, c);
    PassesOn(1, c);
    PassesOn(2, c);
    PassesOn(3, c);
    Decides(4, c);
  }

  /** The four ways an integer literal is written. */
  datatype Base = Binary | Octal | Decimal | Hexadecimal

  /** How a programmer writes v in each base: the prefix that marks the base,
      then the numeral. */
  function Literal(v: nat, b: Base): string {
    match b
    case Binary => "0b" + Numeral(v, 2)
    case Octal => "0" + Numeral(v, 8)
    case Decimal => Numeral(v, 10)
    case Hexadecimal => "0x" + Numeral(v, 16)
  }

  /** The binary literal of v reads back as v. */
  lemma {:induction false} BinaryNumeral(c: Cursor, v: nat)
    requires Within(c) && Continues(c, Literal(v, Binary))
    requires Delimited(c.text.text, c.offset + |Literal(v, Binary)|)
    ensures ScanInt(c) == IntegerFound(c.offset + |Literal(v, Binary)|, v)
  {
    NumeralValue(v, 2);
    BinaryInt(c, Numeral(v, 2));
  }

  /** The octal literal of v reads back as v. */
  lemma {:induction false} OctalNumeral(c: Cursor, v: nat)
    requires Within(c) && Continues(c, Literal(v, Octal))
    requires Delimited(c.text.text, c.offset + |Literal(v, Octal)|)
    ensures ScanInt(c) == IntegerFound(c.offset + |Literal(v, Octal)|, v)
  {
    NumeralValue(v, 8);
    OctalInt(c, Numeral(v, 8));
  }

  /** The hexadecimal literal of v reads back as v. */
  lemma {:induction false} HexNumeral(c: Cursor, v: nat)
    requires Within(c) && Continues(c, Literal(v, Hexadecimal))
    requires Delimited(c.text.text, c.offset + |Literal(v, Hexadecimal)|)
    ensures ScanInt(c) == IntegerFound(c.offset + |Literal(v, Hexadecimal)|, v)
  {
    NumeralValue(v, 16);
    HexInt(c, Numeral(v, 16));
  }

  /** The decimal literal of v reads back as v; 0 is read by the octal reader. */
  lemma {:induction false} DecimalNumeral(c: Cursor, v: nat)
    requires Within(c) && Continues(c, Literal(v, Decimal))
    requires Delimited(c.text.text, c.offset + |Literal(v, Decimal)|)
    ensures ScanInt(c) == IntegerFound(c.offset + |Literal(v, Decimal)|, v)
  {
    NumeralLead(v, 10);
    if v == 0 {
      ZeroReadsBack(c);
    } else {
      NumeralValue(v, 10);
      DecimalInt(c, Numeral(v, 10));
    }
  }

  /** A lone 0 is read by the octal reader as 0. */
  lemma {:induction false} ZeroReadsBack(c: Cursor)
    requires Within(c) && Continues(c, "0") && Delimited(c.text.text, c.offset + 1)
    ensures ScanInt(c) == IntegerFound(c.offset + 1, 0)
  {
    assert "0" + "" == "0";
    OctalInt(c, "");
  }

  /** The literal of v in any base, followed by no word character, is read
      by the integer reader as v. */
  lemma {:induction false} NumeralReadsBack(c: Cursor, v: nat, b: Base)
    requires Within(c) && Continues(c, Literal(v, b))
    requires Delimited(c.text.text, c.offset + |Literal(v, b)|)
    ensures ScanInt(c) == IntegerFound(c.offset + |Literal(v, b)|, v)
  {
    match b
    case Binary => BinaryNumeral(c, v);
    case Octal => OctalNumeral(c, v);
    case Decimal => DecimalNumeral(c, v);
    case Hexadecimal => HexNumeral(c, v);
  }

  /** Every number written in binary, octal, decimal or hexadecimal with its
      prefix, and followed by no word character, reads back as itself: after
      a separated list the token added last is an INTEGER token whose text is
      exactly the literal and whose value is the number. */
  lemma {:induction false} IntegerReadsBack(c: Cursor, ts: seq<Token>, v: nat, b: Base)
    requires Within(c) && Separated(ts) && Continues(c, Literal(v, b))
    requires Delimited(c.text.text, c.offset + |Literal(v, b)|)
    ensures var end := c.offset + |Literal(v, b)|;
      var r := Perform(ScanInt(c), c, ts);
      r.result == Success(true) && r.cursor == c.(offset := end)
      && |r.tokens| > 0 && Last(r.tokens) == FoundToken(c, Integer, end, Some(IntLiteral(v)))
  {
    NumeralReadsBack(c, v, b);
    FoundLast(c, ts, ScanInt(c), Integer, c.offset + |Literal(v, b)|, Some(IntLiteral(v)));
  }

  /** The characters that start a token. */
  predicate StartsToken(ch: char) {
    IsDigit(ch, 10) || ch == '\'' || IsWordStart(ch) || ch in ":+-&|!()"
  }

  /** The place of a symbol in the tokenizer's list. */
  function SymbolIndex(ch: char): (k: nat)
    requires ch in ":+-&|!()"
    ensures k < |Symbols| && Symbols[k] == [ch]
  {
    if ch == ':' then 0 else if ch == '+' then 1 else if ch == '-' then 2 else if ch == '&' then 3
    else if ch == '|' then 4 else if ch == '!' then 5 else if ch == '(' then 6 else 7
  }

  /** A one-character candidate is accepted when it is the next character. */
  lemma {:induction false} SymbolCandidates(c: Cursor)
    requires Within(c)
    ensures (forall k :: 0 <= k < |Symbols| ==> !Continues(c, Symbols[k]))
      <==> !(c.offset < |c.text.text| && c.text.text[c.offset] in ":+-&|!()")
  {
    var t := c.text.text;
    var o := c.offset;
    if o < |t| && t[o] in ":+-&|!()" {
      var k := SymbolIndex(t[o]);
      assert t[o..o + 1] == [t[o]];
      assert Continues(c, Symbols[k]);
    } else {
      forall k | 0 <= k < |Symbols|
        ensures !Continues(c, Symbols[k])
      {
        assert |Symbols[k]| == 1 && Symbols[k][0] in ":+-&|!()";
        if Continues(c, Symbols[k]) {
          ContinuesAt(c, Symbols[k]);
        }
      }
    }
  }

  /** Only a symbol character makes the symbol reader find a token, and the
      token is that one character. */
  lemma {:induction false} SymbolDeclines(c: Cursor)
    requires Within(c)
    ensures ScanSymbol(c).Nothing? <==> !(c.offset < |c.text.text| && c.text.text[c.offset] in ":+-&|!()")
    ensures !ScanSymbol(c).Nothing? ==> ScanSymbol(c) == Found(Symbol, c.offset + 1, None)
  {
    SymbolMatched(c);
    SymbolCandidates(c);
  }

  /** The main loop finds no token exactly when the next character starts
      none: not a digit, a quotation mark, a letter, an underscore or a
      symbol. */
  lemma {:induction false} ScanTokenDeclines(c: Cursor, span: int)
    requires Within(c) && c.offset < |c.text.text|
    ensures ScanToken(c, span).Nothing? <==> !StartsToken(c.text.text[c.offset])
  {
    var ch := c.text.text[c.offset];
    if IsDigit(ch, 10) || ch == '\'' {
      IntReads(c);
    } else {
      IntDeclines(c);
      SymbolDeclines(c);
    }
  }

  /** A word is read up to the first character that is neither alphanumeric
      nor an underscore, and typed a keyword, a register or an identifier;
      the loop bound `len(code)` never cuts it short. */
  lemma {:induction false} WordMeaning(c: Cursor, span: int)
    requires Within(c) && c.offset < |c.text.text| && IsWordStart(c.text.text[c.offset])
    requires span >= |c.text.text| - c.offset
    ensures var end := WordRun(c.text.text, c.offset + 1);
      ScanToken(c, span) == Found(WordKind(c.text.text[c.offset..end]), end, None)
      && (end < |c.text.text| ==> !IsWordChar(c.text.text[end]))
  {
    IntDeclines(c);
    assert WordEnd(c.text.text, c.offset, span) == WordRun(c.text.text, c.offset + 1);
  }

  /** Spelled like a mnemonic, a word is a keyword; like a register, a
      register; any other word is an identifier. */
  lemma {:induction false} WordKinds(w: string, k: Assembly.Keyword, reg: Assembly.Register)
    ensures WordKind(Assembly.KeywordText(k)) == Keyword
    ensures WordKind(Assembly.RegisterText(reg)) == Register
    ensures WordKind(w) == Identifier <==> Assembly.KeywordNamed(w).None? && Assembly.RegisterNamed(w).None?
  {
    Assembly.KeywordSpellingReadsBack(k);
    Assembly.RegisterSpellingReadsBack(reg);
  }
}
