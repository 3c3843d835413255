/**
 * The match and parse methods of the grammar symbols
 * (hadloc/grammar/grammar.py) as they run: they move the offset of a
 * TokenList and update the error fields of the symbols, which a Matcher
 * holds for every symbol of a grammar, by identity. Each method is proved
 * to do what the functions of module Grammar say.
 *
 * A match that would run for ever (a Repeated without a maximum whose
 * symbol matches without consuming a token) has no method here: every
 * method requires that the match it performs ends.
 */
module Matching {
  import opened Wrappers
  import opened SyntaxTree
  import opened TokenLists
  import G = Grammar

  class Matcher {
    /** `error_offset` and `error_msg` of every symbol. */
    var marks: G.Marks

    constructor(marks: G.Marks)
      ensures this.marks == marks
    {
      this.marks := marks;
    }

    /** The method gave the node of the match `a`, left the offset where
        `a` ends and the error fields as `a` leaves them. */
    ghost predicate Ended<T>(r: Option<Node<T>>, tokens: TokenList<T>, a: G.Attempt<T>)
      reads this, tokens
    {
      a.Done? && r == a.node && tokens.offset == a.offset && marks == a.marks
    }

    /** `create_error(offset, parent_nodes)`. */
    method CreateError<T>(sym: G.Symbol<T>, offset: int, parents: seq<Node<T>>)
      modifies this
      ensures marks == G.CreateError(old(marks), sym, offset, parents)
    {
      marks := marks[sym.id := G.Mark(offset, sym.error(parents))];
    }

    /** `self.process_error(other)`. */
    method ProcessError(self: nat, other: nat)
      modifies this
      ensures marks == G.ProcessError(old(marks), self, other)
    {
      if G.MarkOf(marks, self).offset < G.MarkOf(marks, other).offset {
        marks := marks[self := G.MarkOf(marks, other)];
      }
    }

    /** `symbol.match(tokens, parent_nodes)`. */
    method Match<T>(sym: G.Symbol<T>, tokens: TokenList<T>, parents: seq<Node<T>>) returns (r: Option<Node<T>>)
      requires 0 <= tokens.offset <= |tokens.tokens|
      requires G.Match(sym, tokens.tokens, tokens.offset, marks, parents).Done?
      modifies this, tokens
      ensures Ended(r, tokens, G.Match(sym, tokens.tokens, old(tokens.offset), old(marks), parents))
      decreases sym, 2
    {
      if sym.Terminal? {
        r := MatchTerminal(sym, tokens, parents);
      } else if sym.Sequential? {
        r := MatchSequential(sym, tokens, parents);
      } else if sym.Repeated? {
        r := MatchRepeated(sym, tokens, parents);
      } else {
        r := MatchOneOf(sym, tokens, parents);
      }
    }

    /** `Terminal.match`, building the node with the token as its value. */
    method MatchTerminal<T>(sym: G.Symbol<T>, tokens: TokenList<T>, parents: seq<Node<T>>) returns (r: Option<Node<T>>)
      requires sym.Terminal? && 0 <= tokens.offset <= |tokens.tokens|
      modifies this, tokens
      ensures Ended(r, tokens, G.TerminalMatch(sym, tokens.tokens, old(tokens.offset), old(marks), parents))
    {
      if !tokens.HasMore() {
        return None;
      }
      var token := tokens.At(0);
      if sym.accepts(token.value) {
        tokens.offset := tokens.offset + 1;
        return Some(NewNode(sym.name, Item(token.value)));
      }
      CreateError(sym, tokens.offset, parents);
      r := None;
    }

    /** `Sequential.match`. */
    method MatchSequential<T>(sym: G.Symbol<T>, tokens: TokenList<T>, parents: seq<Node<T>>) returns (r: Option<Node<T>>)
      requires sym.Sequential? && 0 <= tokens.offset <= |tokens.tokens|
      requires G.Match(sym, tokens.tokens, tokens.offset, marks, parents).Done?
      modifies this, tokens
      ensures Ended(r, tokens, G.Match(sym, tokens.tokens, old(tokens.offset), old(marks), parents))
      decreases sym, 1
    {
      var start := tokens.offset;
      var node := G.StartNode(sym);
      ghost var goal := G.SequentialFrom(sym, 0, tokens.tokens, start, start, node, marks, parents);
      for k := 0 to |sym.symbols|
        invariant start <= tokens.offset <= |tokens.tokens|
        invariant G.SequentialFrom(sym, k, tokens.tokens, start, tokens.offset, node, marks, parents) == goal
      {
        var symbol := sym.symbols[k];
        var m := Match(symbol, tokens, parents + [node]);
        ProcessError(sym.id, symbol.id);
        if m.Some? {
          node := AddChild(node, m.value);
        } else {
          tokens.offset := start;
          if tokens.offset == G.MarkOf(marks, sym.id).offset {
            CreateError(sym, tokens.offset, parents + [node]);
          }
          return None;
        }
      }
      r := Some(node);
    }

    /** `Repeated.match`. */
    method MatchRepeated<T>(sym: G.Symbol<T>, tokens: TokenList<T>, parents: seq<Node<T>>) returns (r: Option<Node<T>>)
      requires sym.Repeated? && 0 <= tokens.offset <= |tokens.tokens|
      requires G.Match(sym, tokens.tokens, tokens.offset, marks, parents).Done?
      modifies this, tokens
      ensures Ended(r, tokens, G.Match(sym, tokens.tokens, old(tokens.offset), old(marks), parents))
      decreases sym, 1
    {
      var start := tokens.offset;
      var node := G.StartNode(sym);
      var count: nat := 0;
      ghost var goal := G.RepeatedFrom(sym, 0, tokens.tokens, start, start, node, marks, parents);
      while sym.maxMatches.None? || count < sym.maxMatches.value
        invariant start <= tokens.offset <= |tokens.tokens|
        invariant G.RepeatedFrom(sym, count, tokens.tokens, start, tokens.offset, node, marks, parents) == goal
        decreases G.RepeatBound(sym, count, tokens.tokens, tokens.offset)
      {
        var m := Match(sym.symbol, tokens, parents + [node]);
        ProcessError(sym.id, sym.symbol.id);
        if m.Some? {
          node := AddChild(node, m.value);
          count := count + 1;
        } else if count >= sym.minMatches {
          return Some(node);
        } else {
          tokens.offset := start;
          if tokens.offset == G.MarkOf(marks, sym.id).offset {
            CreateError(sym, tokens.offset, parents + [node]);
          }
          return None;
        }
      }
      r := Some(node);
    }

    /** `OneOf.match`. */
    method MatchOneOf<T>(sym: G.Symbol<T>, tokens: TokenList<T>, parents: seq<Node<T>>) returns (r: Option<Node<T>>)
      requires sym.OneOf? && 0 <= tokens.offset <= |tokens.tokens|
      requires G.Match(sym, tokens.tokens, tokens.offset, marks, parents).Done?
      modifies this, tokens
      ensures Ended(r, tokens, G.Match(sym, tokens.tokens, old(tokens.offset), old(marks), parents))
      decreases sym, 1
    {
      ghost var goal := G.OneOfFrom(sym, 0, tokens.tokens, tokens.offset, marks, parents);
      for k := 0 to |sym.symbols|
        invariant tokens.offset == old(tokens.offset)
        invariant G.OneOfFrom(sym, k, tokens.tokens, tokens.offset, marks, parents) == goal
      {
        var symbol := sym.symbols[k];
        var m := Match(symbol, tokens, parents);
        ProcessError(sym.id, symbol.id);
        if m.Some? {
          return m;
        }
      }
      if tokens.offset == G.MarkOf(marks, sym.id).offset {
        CreateError(sym, tokens.offset, parents);
      }
      r := None;
    }

    /** `symbol.parse(tokens)`: the node of a match that uses every token,
        or the Syntax error with the symbol's message. */
    method Parse<T>(sym: G.Symbol<T>, tokens: seq<T>) returns (r: Result<Node<T>>)
      requires G.Parse(sym, tokens, marks).Parsed?
      modifies this
      ensures r == G.Parse(sym, tokens, old(marks)).result && marks == G.Parse(sym, tokens, old(marks)).marks
    {
      var list := new TokenList(tokens);
      var ast := Match(sym, list, []);
      if ast.None? || list.offset < |tokens| {
        var m := G.MarkOf(marks, sym.id);
        if -|tokens| <= m.offset < |tokens| {
          return Failure(Compiler("Syntax", m.message, []));
        }
        return Failure(Python("IndexError"));
      }
      r := Success(ast.value);
    }
  }
}
