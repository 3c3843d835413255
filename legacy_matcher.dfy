/**
 * The match methods of the older grammar symbols (grammar/grammar.py) as
 * they run: they move the offset of a TokenList and update the `error`
 * fields of the symbols and the GrammarException objects, which a
 * LegacyMatcher holds for a whole grammar. Each method is proved to do what
 * the functions of module LegacyGrammar say. As there, a match that would
 * run for ever has no method: every method requires that its match ends.
 */
module LegacyMatching {
  import opened Wrappers
  import opened SyntaxTree
  import opened TokenLists
  import LG = LegacyGrammar

  class LegacyMatcher<T> {
    /** The `error` field of every symbol and the exceptions they refer to. */
    var errors: LG.Errors<T>

    /** Symbols that hold no exception yet. */
    constructor()
      ensures errors == LG.NoErrors()
    {
      errors := LG.NoErrors();
    }

    /** The method raised what the run `a` raises, or gave its node, left
        the offset where it ends and the errors as it leaves them. */
    ghost predicate Finished(r: Result<Option<Node<T>>>, tokens: TokenList<T>, a: LG.Run<T>)
      reads this, tokens
    {
      !a.Loops?
      && (a.Raised? ==> r == Failure(a.error))
      && (a.Ran? ==> r == Success(a.node) && tokens.offset == a.offset && errors == a.errors)
    }

    /** `self.process_error(child.error)`. */
    method ProcessError(self: LG.Symbol<T>, child: nat)
      requires LG.Wf(errors)
      modifies this
      ensures errors == LG.ProcessError(old(errors), self, child)
    {
      if child !in errors.held {
        return;
      }
      var e := errors.held[child];
      if self.id !in errors.held || errors.heap[errors.held[self.id]].offset < errors.heap[e].offset {
        errors := LG.Errors(errors.held[self.id := e], errors.heap[e := errors.heap[e].(symbols := errors.heap[e].symbols + [self])]);
      }
    }

    /** `symbol.match(tokens)`. */
    method Match(sym: LG.Symbol<T>, tokens: TokenList<T>) returns (r: Result<Option<Node<T>>>)
      requires 0 <= tokens.offset <= |tokens.tokens| && LG.Wf(errors)
      requires !LG.Match(sym, tokens.tokens, tokens.offset, errors).Loops?
      modifies this, tokens
      ensures Finished(r, tokens, LG.Match(sym, tokens.tokens, old(tokens.offset), old(errors)))
      decreases sym, 2
    {
      if sym.Terminal? {
        r := MatchTerminal(sym, tokens);
      } else if sym.Sequential? {
        r := MatchSequential(sym, tokens);
      } else if sym.Repeated? {
        r := MatchRepeated(sym, tokens);
      } else {
        r := MatchAnyOf(sym, tokens);
      }
    }

    /** `Terminal.match`: `tokens[0]` raises IndexError at the end. */
    method MatchTerminal(sym: LG.Symbol<T>, tokens: TokenList<T>) returns (r: Result<Option<Node<T>>>)
      requires sym.Terminal? && 0 <= tokens.offset <= |tokens.tokens| && LG.Wf(errors)
      modifies this, tokens
      ensures Finished(r, tokens, LG.TerminalMatch(sym, tokens.tokens, old(tokens.offset), old(errors)))
    {
      var token :- tokens.At(0);
      if sym.accepts(token) {
        tokens.offset := tokens.offset + 1;
        return Success(Some(NewNode(sym.name, Item(token))));
      }
      errors := LG.Errors(errors.held[sym.id := |errors.heap|], errors.heap + [LG.Exception(tokens.offset, [sym])]);
      r := Success(None);
    }

    /** `Sequential.match`. */
    method MatchSequential(sym: LG.Symbol<T>, tokens: TokenList<T>) returns (r: Result<Option<Node<T>>>)
      requires sym.Sequential? && 0 <= tokens.offset <= |tokens.tokens| && LG.Wf(errors)
      requires !LG.Match(sym, tokens.tokens, tokens.offset, errors).Loops?
      modifies this, tokens
      ensures Finished(r, tokens, LG.Match(sym, tokens.tokens, old(tokens.offset), old(errors)))
      decreases sym, 1
    {
      var start := tokens.offset;
      var node := NewNode(sym.name, NoValue);
      ghost var goal := LG.SequentialFrom(sym, 0, tokens.tokens, start, start, node, errors);
      for k := 0 to |sym.symbols|
        invariant start <= tokens.offset <= |tokens.tokens| && LG.Wf(errors)
        invariant LG.SequentialFrom(sym, k, tokens.tokens, start, tokens.offset, node, errors) == goal
      {
        var symbol := sym.symbols[k];
        var m :- Match(symbol, tokens);
        ProcessError(sym, symbol.id);
        if m.Some? {
          node := AddChild(node, m.value);
        } else {
          tokens.offset := start;
          return Success(None);
        }
      }
      r := Success(Some(node));
    }

    /** `Repeated.match`. */
    method MatchRepeated(sym: LG.Symbol<T>, tokens: TokenList<T>) returns (r: Result<Option<Node<T>>>)
      requires sym.Repeated? && 0 <= tokens.offset <= |tokens.tokens| && LG.Wf(errors)
      requires !LG.Match(sym, tokens.tokens, tokens.offset, errors).Loops?
      modifies this, tokens
      ensures Finished(r, tokens, LG.Match(sym, tokens.tokens, old(tokens.offset), old(errors)))
      decreases sym, 1
    {
      var start := tokens.offset;
      var node := NewNode(sym.name, NoValue);
      var count: nat := 0;
      ghost var goal := LG.RepeatedFrom(sym, 0, tokens.tokens, start, start, node, errors);
      while sym.maxMatches.None? || count < sym.maxMatches.value
        invariant start <= tokens.offset <= |tokens.tokens| && LG.Wf(errors)
        invariant LG.RepeatedFrom(sym, count, tokens.tokens, start, tokens.offset, node, errors) == goal
        decreases LG.RepeatBound(sym, count, tokens.tokens, tokens.offset)
      {
        var m :- Match(sym.symbol, tokens);
        ProcessError(sym, sym.symbol.id);
        if m.Some? {
          node := AddChild(node, m.value);
          count := count + 1;
        } else if count >= sym.minMatches {
          return Success(Some(node));
        } else {
          tokens.offset := start;
          return Success(None);
        }
      }
      r := Success(Some(node));
    }

    /** `AnyOf.match`. */
    method MatchAnyOf(sym: LG.Symbol<T>, tokens: TokenList<T>) returns (r: Result<Option<Node<T>>>)
      requires sym.AnyOf? && 0 <= tokens.offset <= |tokens.tokens| && LG.Wf(errors)
      requires !LG.Match(sym, tokens.tokens, tokens.offset, errors).Loops?
      modifies this, tokens
      ensures Finished(r, tokens, LG.Match(sym, tokens.tokens, old(tokens.offset), old(errors)))
      decreases sym, 1
    {
      ghost var goal := LG.AnyOfFrom(sym, 0, tokens.tokens, tokens.offset, errors);
      for k := 0 to |sym.symbols|
        invariant tokens.offset == old(tokens.offset) && LG.Wf(errors)
        invariant LG.AnyOfFrom(sym, k, tokens.tokens, tokens.offset, errors) == goal
      {
        var symbol := sym.symbols[k];
        var m :- Match(symbol, tokens);
        ProcessError(sym, symbol.id);
        if m.Some? {
          return Success(m);
        }
      }
      r := Success(None);
    }
  }

  /** `GrammarException.compile_error()`, with the search for the parent
      as the loop it is. */
  method CompileError<T>(ex: LG.Exception<T>) returns (r: Result<string>)
    ensures r == LG.CompileMessage(ex)
  {
    if |ex.symbols| == 0 {
      return Failure(Python("IndexError"));
    }
    var name := ex.symbols[0].errorName;
    if name.None? {
      return Success(LG.UnexpectedToken);
    }
    var parent: Option<nat> := None;
    var i := 1;
    while i < |ex.symbols| && parent.None?
      invariant 1 <= i <= |ex.symbols|
      invariant parent.None? ==> LG.FirstNamed(ex.symbols, 1) == LG.FirstNamed(ex.symbols, i)
      invariant parent.Some? ==> parent == LG.FirstNamed(ex.symbols, 1)
    {
      if ex.symbols[i].name.Some? {
        parent := Some(i);
      }
      i := i + 1;
    }
    if parent.None? {
      return Failure(Python("AttributeError"));
    }
    var p := ex.symbols[parent.value];
    var before := "";
    if p.Sequential? {
      var index := LG.IndexOf(p.symbols, ex.symbols[parent.value - 1].id);
      if index.None? {
        return Failure(Python("ValueError"));
      }
      if index.value > 0 {
        before := " after " + LG.Show(p.symbols[index.value - 1].errorName);
      }
    }
    r := Success("Invalid " + p.name.value + ". Expected " + name.value + before);
  }
}
