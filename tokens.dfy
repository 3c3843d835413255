/**
 * The tokens of the assembler (assembler/tokenizer.py). A token is a
 * CodeObject (its value and the text it was read from) with a type. The
 * tokenizer adds tokens one at a time, and puts an INSTRUCTION_END token
 * between two tokens that lie on different source lines, so the list it
 * builds alternates runs of tokens of one line with single INSTRUCTION_END
 * tokens.
 */
module Tokens {
  import opened Wrappers
  import opened PositionedStrings
  import opened CodeObjects
  import Assembly

  datatype TokenType = Keyword | Identifier | Integer | Register | Symbol | InstructionEnd

  /** The value of a token: an int for an integer, the text for a word or
      a symbol. */
  datatype Literal = IntLiteral(i: int) | StrLiteral(s: string)

  /** `Token(token_type, value)`: the CodeObject `value` with a token type. */
  datatype Token = Token(kind: TokenType, code: CodeObject<Option<Literal>>)

  /** `Token(TokenType.INSTRUCTION_END)`: the value None on the empty string. */
  function EndToken(): (r: Token)
    ensures r.kind == InstructionEnd && r.code.value.None? && r.code.source.text == []
  {
    Token(InstructionEnd, NoneOf(None))
  }

  /** `token.line()`: the line of the first character, IndexError on a
      token without text. */
  function TokenLine(t: Token): Result<int> {
    Line(t.code.source, 0)
  }

  /** `addtoken(kind, text, value)`: the value defaults to the text; an
      INSTRUCTION_END goes before the new token when the last token lies on
      another line than the new token's text. */
  function AddToken(ts: seq<Token>, kind: TokenType, text: PositionedString, value: Option<Literal>): (r: Result<seq<Token>>)
    ensures r.Success? ==> |ts| < |r.value| <= |ts| + 2 && r.value[..|ts|] == ts
    ensures r.Success? ==> r.value[|r.value| - 1] == Token(kind, CodeObject(Some(LiteralOr(value, text)), text))
    ensures r.Success? && |r.value| == |ts| + 2 ==> r.value[|ts|] == EndToken()
  {
    var token := Token(kind, CodeObject(Some(LiteralOr(value, text)), text));
    if |ts| == 0 then Success([token])
    else
      var last :- TokenLine(ts[|ts| - 1]);
      var here :- Line(text, 0);
      if last != here then Success(ts + [EndToken(), token]) else Success(ts + [token])
  }

  /** `value if value is not None else text.text`. */
  function LiteralOr(value: Option<Literal>, text: PositionedString): Literal {
    if value.Some? then value.value else StrLiteral(text.text)
  }

  /** A token the tokenizer read from the code: not an INSTRUCTION_END, and
      with a non-empty aligned text. */
  predicate Placed(t: Token) {
    t.kind != InstructionEnd && Valid(t.code.source) && |t.code.source.text| > 0
  }

  /** The line of a placed token. */
  function LineOf(t: Token): int
    requires Placed(t)
  {
    t.code.source.coordinates[0].line
  }

  /** The shape `addtoken` keeps: the list starts and ends with placed
      tokens, and around every position the tokens are as
      SeparatedAt says. */
  predicate Separated(ts: seq<Token>) {
    (|ts| > 0 ==> Placed(ts[0]) && Placed(ts[|ts| - 1]))
    && forall k :: 0 <= k < |ts| ==> SeparatedAt(ts, k)
  }

  /** Position k holds a placed token, or an INSTRUCTION_END between placed
      tokens on different lines; a placed token followed by a placed token
      shares its line. */
  predicate SeparatedAt(ts: seq<Token>, k: int)
    requires 0 <= k < |ts|
  {
    (ts[k].kind != InstructionEnd ==> Placed(ts[k]))
    && (ts[k].kind == InstructionEnd ==>
          0 < k < |ts| - 1 && ts[k] == EndToken() && Placed(ts[k - 1]) && Placed(ts[k + 1])
          && LineOf(ts[k - 1]) != LineOf(ts[k + 1]))
    && (k < |ts| - 1 && Placed(ts[k]) && Placed(ts[k + 1]) ==> LineOf(ts[k]) == LineOf(ts[k + 1]))
  }

  /** Between two neighbouring tokens of a separated list there is an
      INSTRUCTION_END exactly when they lie on different lines: a placed
      token is followed either by a placed token on its line or by an
      INSTRUCTION_END and then a placed token on another line. */
  lemma {:induction false} SeparatedMeaning(ts: seq<Token>, k: int)
    requires Separated(ts) && 0 <= k < |ts|
    ensures ts[k].kind != InstructionEnd <==> Placed(ts[k])
    ensures Placed(ts[k]) && k + 1 < |ts| ==>
      (Placed(ts[k + 1]) && LineOf(ts[k + 1]) == LineOf(ts[k]))
      || (ts[k + 1] == EndToken() && k + 2 < |ts| && Placed(ts[k + 2]) && LineOf(ts[k + 2]) != LineOf(ts[k]))
  {
    assert SeparatedAt(ts, k);
    if Placed(ts[k]) && k + 1 < |ts| {
      assert SeparatedAt(ts, k + 1);
    }
  }

  /** The line `line()` reports for a placed token is its first character's. */
  lemma {:induction false} PlacedLine(t: Token)
    requires Placed(t)
    ensures TokenLine(t) == Success(LineOf(t))
  {
  }

  /** Adding a token read from the code never raises and keeps the shape:
      the new token comes last, after an INSTRUCTION_END exactly when the list
      is non-empty and its last token lies on another line. */
  lemma {:induction false} AddTokenSeparated(ts: seq<Token>, kind: TokenType, text: PositionedString, value: Option<Literal>)
    requires Separated(ts) && kind != InstructionEnd && Valid(text) && |text.text| > 0
    ensures var r := AddToken(ts, kind, text, value);
      var token := Token(kind, CodeObject(Some(LiteralOr(value, text)), text));
      r.Success? && Separated(r.value)
      && (|ts| > 0 && LineOf(ts[|ts| - 1]) != LineOf(token) ==> r.value == ts + [EndToken(), token])
      && (|ts| == 0 || LineOf(ts[|ts| - 1]) == LineOf(token) ==> r.value == ts + [token])
  {
    var token := Token(kind, CodeObject(Some(LiteralOr(value, text)), text));
    assert Placed(token);
    if |ts| > 0 {
      assert SeparatedAt(ts, |ts| - 1);
      PlacedLine(ts[|ts| - 1]);
      var us := AddToken(ts, kind, text, value).value;
      if LineOf(ts[|ts| - 1]) != LineOf(token) {
        assert us == ts + [EndToken(), token];
        EndsSeparated(ts, token);
      } else {
        assert us == ts + [token];
        SameLineSeparated(ts, token);
      }
    } else {
      assert AddToken(ts, kind, text, value).value == [token];
      assert SeparatedAt([token], 0);
    }
  }

  lemma {:induction false} EndsSeparated(ts: seq<Token>, token: Token)
    requires Separated(ts) && |ts| > 0 && Placed(token) && Placed(ts[|ts| - 1])
    requires LineOf(ts[|ts| - 1]) != LineOf(token)
    ensures Separated(ts + [EndToken(), token])
  {
    var us := ts + [EndToken(), token];
    forall k | 0 <= k < |us|
      ensures SeparatedAt(us, k)
    {
      if k < |ts| - 1 {
        assert SeparatedAt(ts, k);
        assert us[k] == ts[k] && us[k + 1] == ts[k + 1];
      } else if k == |ts| - 1 {
        assert us[k] == ts[k] && us[k + 1] == EndToken();
      } else if k == |ts| {
        assert us[k - 1] == ts[|ts| - 1] && us[k] == EndToken() && us[k + 1] == token;
      } else {
        assert us[k] == token;
      }
    }
  }

  lemma {:induction false} SameLineSeparated(ts: seq<Token>, token: Token)
    requires Separated(ts) && |ts| > 0 && Placed(token) && Placed(ts[|ts| - 1])
    requires LineOf(ts[|ts| - 1]) == LineOf(token)
    ensures Separated(ts + [token])
  {
    var us := ts + [token];
    forall k | 0 <= k < |us|
      ensures SeparatedAt(us, k)
    {
      if k < |ts| - 1 {
        assert SeparatedAt(ts, k);
        assert us[k] == ts[k] && us[k + 1] == ts[k + 1];
      } else if k == |ts| - 1 {
        assert us[k] == ts[k] && us[k + 1] == token;
      } else {
        assert us[k] == token;
      }
    }
  }
}
