/**
 * The older grammar symbols (grammar/grammar.py) as functions. They match
 * like the symbols of module Grammar, with three differences: a Terminal
 * reads the current token without asking whether one is left, so it raises
 * IndexError at the end of the list; a Sequential's node has no value; and
 * errors are GrammarException objects instead of fields of the symbols.
 *
 * A Terminal that fails makes a new GrammarException holding the offset and
 * the list of symbols `[self]`. Every other symbol, after trying a child,
 * takes the child's exception when it holds none or the child's lies
 * further on, and then appends itself to that exception's list. The
 * exceptions are shared objects, so they live in a heap (a sequence) and a
 * symbol holds the index of its exception; symbols are known by identity.
 */
module LegacyGrammar {
  import opened Wrappers
  import opened SyntaxTree

  /** A grammar symbol: its identity, its name and its error name, then
      what it matches. */
  datatype Symbol<!T> =
    | Terminal(id: nat, name: Option<string>, errorName: Option<string>, accepts: T -> bool)
    | Sequential(id: nat, name: Option<string>, errorName: Option<string>, symbols: seq<Symbol<T>>)
    | Repeated(id: nat, name: Option<string>, errorName: Option<string>, symbol: Symbol<T>, minMatches: int, maxMatches: Option<int>)
    | AnyOf(id: nat, name: Option<string>, errorName: Option<string>, symbols: seq<Symbol<T>>)

  /** `error_name if error_name is not None else name`. */
  function ErrorName(name: Option<string>, errorName: Option<string>): Option<string> {
    if errorName.Some? then errorName else name
  }

  /** `Repeated(symbol, min_matches=0, max_matches=None, name=..., error_name=...)`. */
  function Repetition<T>(id: nat, symbol: Symbol<T>, name: Option<string>, errorName: Option<string>,
                         minMatches: int := 0, maxMatches: Option<int> := None): Symbol<T> {
    Repeated(id, name, ErrorName(name, errorName), symbol, minMatches, maxMatches)
  }

  /** `optional(symbol)` of grammar/__init__.py. */
  function Optional<T>(id: nat, symbol: Symbol<T>, name: Option<string>, errorName: Option<string>): Symbol<T> {
    Repetition(id, symbol, name, errorName, 0, Some(1))
  }

  /** A GrammarException: `token_offset` and `symbols`. */
  datatype Exception<!T> = Exception(offset: int, symbols: seq<Symbol<T>>)

  /** The exceptions made so far, and the one each symbol holds as its
      `error` (no entry for None). */
  datatype Errors<!T> = Errors(held: map<nat, nat>, heap: seq<Exception<T>>)

  /** The error fields of new symbols. */
  function NoErrors<T>(): (r: Errors<T>)
    ensures Wf(r)
  {
    Errors(map[], [])
  }

  /** Every exception a symbol holds exists. */
  predicate Wf<T>(st: Errors<T>) {
    forall id :: id in st.held ==> st.held[id] < |st.heap|
  }

  /** The offset of the exception a symbol holds. */
  function HeldOffset<T>(st: Errors<T>, id: nat): int
    requires Wf(st) && id in st.held
  {
    st.heap[st.held[id]].offset
  }

  /** `self.process_error(child.error)`. */
  function ProcessError<T>(st: Errors<T>, self: Symbol<T>, child: nat): (r: Errors<T>)
    requires Wf(st)
    ensures Wf(r) && |r.heap| == |st.heap|
    ensures child !in st.held ==> r == st
    ensures child in st.held ==>
      (r != st <==> self.id !in st.held || HeldOffset(st, self.id) < HeldOffset(st, child))
    ensures r != st ==> child in st.held && r.held == st.held[self.id := st.held[child]]
    ensures r != st ==> var e := st.held[child];
      r.heap[e] == st.heap[e].(symbols := st.heap[e].symbols + [self])
      && forall i :: 0 <= i < |st.heap| && i != e ==> r.heap[i] == st.heap[i]
    ensures self.id in st.held ==> self.id in r.held && HeldOffset(r, self.id) >= HeldOffset(st, self.id)
  {
    if child !in st.held then st
    else
      var e := st.held[child];
      if self.id !in st.held || st.heap[st.held[self.id]].offset < st.heap[e].offset then
        Errors(st.held[self.id := e], st.heap[e := st.heap[e].(symbols := st.heap[e].symbols + [self])])
      else st
  }

  /** What a match gives: its node (None when it failed), the offset and
      the error fields after it; or Loops; or the exception it raised. */
  datatype Run<!T> = Ran(node: Option<Node<T>>, offset: int, errors: Errors<T>) | Loops | Raised(error: Error)

  /** `symbol.match(tokens)` from an offset. */
  function Match<T>(sym: Symbol<T>, ts: seq<T>, offset: int, st: Errors<T>): (r: Run<T>)
    requires 0 <= offset <= |ts| && Wf(st)
    ensures r.Ran? ==> offset <= r.offset <= |ts| && Wf(r.errors)
    ensures r.Ran? && r.node.None? ==> r.offset == offset
    decreases sym, 2, 0
  {
    if sym.Terminal? then TerminalMatch(sym, ts, offset, st)
    else if sym.Sequential? then SequentialFrom(sym, 0, ts, offset, offset, NewNode(sym.name, NoValue), st)
    else if sym.Repeated? then RepeatedFrom(sym, 0, ts, offset, offset, NewNode(sym.name, NoValue), st)
    else AnyOfFrom(sym, 0, ts, offset, st)
  }

  /** `Terminal.match`. */
  function TerminalMatch<T>(sym: Symbol<T>, ts: seq<T>, offset: int, st: Errors<T>): (r: Run<T>)
    requires sym.Terminal? && 0 <= offset <= |ts| && Wf(st)
    ensures r.Raised? <==> offset == |ts|
    ensures r.Raised? ==> r.error == Python("IndexError")
    ensures r.Ran? ==> (r.node.Some? <==> sym.accepts(ts[offset]))
    ensures r.Ran? && r.node.Some? ==> r.offset == offset + 1 && r.node.value == NewNode(sym.name, Item(ts[offset])) && r.errors == st
    ensures r.Ran? && r.node.None? ==>
      r.offset == offset && |r.errors.heap| == |st.heap| + 1
      && r.errors.heap[|st.heap|] == Exception(offset, [sym]) && r.errors.heap[..|st.heap|] == st.heap
      && r.errors.held == st.held[sym.id := |st.heap|]
    ensures !r.Loops?
  {
    if offset == |ts| then Raised(Python("IndexError"))
    else if sym.accepts(ts[offset]) then Ran(Some(NewNode(sym.name, Item(ts[offset]))), offset + 1, st)
    else Ran(None, offset, Errors(st.held[sym.id := |st.heap|], st.heap + [Exception(offset, [sym])]))
  }

  /** The loop of `Sequential.match` from its k-th symbol. */
  function SequentialFrom<T>(sym: Symbol<T>, k: nat, ts: seq<T>, start: int, offset: int, node: Node<T>, st: Errors<T>): (r: Run<T>)
    requires sym.Sequential? && k <= |sym.symbols| && 0 <= start <= offset <= |ts| && Wf(st)
    ensures r.Ran? ==> start <= r.offset <= |ts| && Wf(r.errors)
    ensures r.Ran? && r.node.None? ==> r.offset == start
    decreases sym, 1, |sym.symbols| - k
  {
    if k == |sym.symbols| then Ran(Some(node), offset, st)
    else
      var child := sym.symbols[k];
      var a := Match(child, ts, offset, st);
      if !a.Ran? then a
      else
        var errors := ProcessError(a.errors, sym, child.id);
        if a.node.Some? then SequentialFrom(sym, k + 1, ts, start, a.offset, AddChild(node, a.node.value), errors)
        else Ran(None, start, errors)
  }

  /** What bounds the loop of a Repeated. */
  function RepeatBound<T>(sym: Symbol<T>, count: int, ts: seq<T>, offset: int): nat
    requires sym.Repeated? && offset <= |ts|
  {
    if sym.maxMatches.Some? then (if count < sym.maxMatches.value then sym.maxMatches.value - count else 0)
    else |ts| - offset
  }

  /** The loop of `Repeated.match` after `count` matches. */
  function RepeatedFrom<T>(sym: Symbol<T>, count: nat, ts: seq<T>, start: int, offset: int, node: Node<T>, st: Errors<T>): (r: Run<T>)
    requires sym.Repeated? && 0 <= start <= offset <= |ts| && Wf(st)
    ensures r.Ran? ==> start <= r.offset <= |ts| && Wf(r.errors)
    ensures r.Ran? && r.node.None? ==> r.offset == start
    decreases sym, 1, RepeatBound(sym, count, ts, offset)
  {
    if sym.maxMatches.Some? && count >= sym.maxMatches.value then Ran(Some(node), offset, st)
    else
      var a := Match(sym.symbol, ts, offset, st);
      if !a.Ran? then a
      else
        var errors := ProcessError(a.errors, sym, sym.symbol.id);
        if a.node.Some? then
          if sym.maxMatches.None? && a.offset == offset then Loops
          else RepeatedFrom(sym, count + 1, ts, start, a.offset, AddChild(node, a.node.value), errors)
        else if count >= sym.minMatches then Ran(Some(node), offset, errors)
        else Ran(None, start, errors)
  }

  /** The loop of `AnyOf.match` from its k-th alternative. */
  function AnyOfFrom<T>(sym: Symbol<T>, k: nat, ts: seq<T>, offset: int, st: Errors<T>): (r: Run<T>)
    requires sym.AnyOf? && k <= |sym.symbols| && 0 <= offset <= |ts| && Wf(st)
    ensures r.Ran? ==> offset <= r.offset <= |ts| && Wf(r.errors)
    ensures r.Ran? && r.node.None? ==> r.offset == offset
    decreases sym, 1, |sym.symbols| - k
  {
    if k == |sym.symbols| then Ran(None, offset, st)
    else
      var a := Match(sym.symbols[k], ts, offset, st);
      if !a.Ran? then a
      else
        var errors := ProcessError(a.errors, sym, sym.symbols[k].id);
        if a.node.Some? then Ran(a.node, a.offset, errors)
        else AnyOfFrom(sym, k + 1, ts, offset, errors)
  }

  /** The message when the failing symbol has no error name. */
  const UnexpectedToken := "Unexpected token"

  /** The first symbol from the k-th on that has a name. */
  function FirstNamed<T>(ss: seq<Symbol<T>>, k: nat): (r: Option<nat>)
    requires k <= |ss|
    ensures r.Some? ==> k <= r.value < |ss| && ss[r.value].name.Some?
    ensures r.Some? ==> forall i :: k <= i < r.value ==> ss[i].name.None?
    ensures r.None? ==> forall i :: k <= i < |ss| ==> ss[i].name.None?
    decreases |ss| - k
  {
    if k == |ss| then None else if ss[k].name.Some? then Some(k) else FirstNamed(ss, k + 1)
  }

  /** `symbols.index(s)`: the first position of the symbol, by identity. */
  function IndexOf<T>(ss: seq<Symbol<T>>, id: nat): (r: Option<nat>)
    ensures r.Some? ==> r.value < |ss| && ss[r.value].id == id && forall i :: 0 <= i < r.value ==> ss[i].id != id
    ensures r.None? ==> forall i :: 0 <= i < |ss| ==> ss[i].id != id
  {
    if |ss| == 0 then None
    else if ss[0].id == id then Some(0)
    else
      var r := IndexOf(ss[1..], id);
      if r.Some? then (assert forall i :: 1 <= i < |ss| ==> ss[i] == ss[1..][i - 1]; Some(r.value + 1))
      else (assert forall i :: 1 <= i < |ss| ==> ss[i] == ss[1..][i - 1]; None)
  }

  /** `f'{x}'` of a name that may be None. */
  function Show(name: Option<string>): string {
    if name.Some? then name.value else "None"
  }

  /** What `compile_error` returns: 'Unexpected token' when the failing
      symbol has no error name; otherwise 'Invalid <parent>. Expected
      <name>', where the parent is the first named symbol of the chain after
      the failing one, followed by ' after <error name of the previous
      symbol>' when the parent is a Sequential and the symbol just before
      it in the chain is not its first. AttributeError when no symbol of the
      chain after the first has a name; ValueError when that previous symbol
      is not one of the Sequential's symbols. */
  function CompileMessage<T>(ex: Exception<T>): (r: Result<string>)
    ensures |ex.symbols| == 0 ==> r == Failure(Python("IndexError"))
    ensures |ex.symbols| > 0 && ex.symbols[0].errorName.None? ==> r == Success(UnexpectedToken)
    ensures |ex.symbols| > 0 && ex.symbols[0].errorName.Some? ==>
      (r == Failure(Python("AttributeError")) <==> FirstNamed(ex.symbols, 1).None?)
    ensures r.Success? && ex.symbols[0].errorName.Some? ==> var p := FirstNamed(ex.symbols, 1).value;
      exists suffix: string :: r.value == "Invalid " + ex.symbols[p].name.value + ". Expected " + ex.symbols[0].errorName.value + suffix
    ensures r.Success? && ex.symbols[0].errorName.Some? ==> var p := FirstNamed(ex.symbols, 1).value;
      var before := NameBefore(ex.symbols[p], ex.symbols[p - 1]);
      before.Success? && r.value == "Invalid " + ex.symbols[p].name.value + ". Expected " + ex.symbols[0].errorName.value + before.value
    ensures |ex.symbols| > 0 && ex.symbols[0].errorName.Some? && FirstNamed(ex.symbols, 1).Some? ==>
      var p := FirstNamed(ex.symbols, 1).value;
      (r == Failure(Python("ValueError")) <==> NameBefore(ex.symbols[p], ex.symbols[p - 1]).Failure?)
  {
    if |ex.symbols| == 0 then Failure(Python("IndexError"))
    else
      var name := ex.symbols[0].errorName;
      if name.None? then Success(UnexpectedToken)
      else
        var p := FirstNamed(ex.symbols, 1);
        if p.None? then Failure(Python("AttributeError"))
        else
          var parent := ex.symbols[p.value];
          var before :- NameBefore(parent, ex.symbols[p.value - 1]);
          Success("Invalid " + parent.name.value + ". Expected " + name.value + before)
  }

  /** `name_before`: ' after <error name>' of the symbol before `child` in
      a Sequential parent, or '' when the parent is no Sequential or
      `child` is its first symbol. */
  function NameBefore<T>(parent: Symbol<T>, child: Symbol<T>): (r: Result<string>)
    ensures r.Failure? ==> r.error == Python("ValueError")
    ensures r.Failure? <==> parent.Sequential? && IndexOf(parent.symbols, child.id).None?
    ensures r.Success? && r.value != "" ==> parent.Sequential? && IndexOf(parent.symbols, child.id).value > 0
    ensures r.Success? && parent.Sequential? && IndexOf(parent.symbols, child.id).value > 0 ==>
      var i := IndexOf(parent.symbols, child.id).value;
      r.value == " after " + Show(parent.symbols[i - 1].errorName)
    ensures r.Success? && (!parent.Sequential? || IndexOf(parent.symbols, child.id).value == 0) ==> r.value == ""
  {
    if !parent.Sequential? then Success("")
    else
      var i := IndexOf(parent.symbols, child.id);
      if i.None? then Failure(Python("ValueError"))
      else if i.value > 0 then Success(" after " + Show(parent.symbols[i.value - 1].errorName))
      else Success("")
  }

  /** A match that ended and found its symbol's tokens. */
  predicate Succeeds<T>(a: Run<T>) {
    a.Ran? && a.node.Some?
  }

  /** A match that ended without finding them. */
  predicate Fails<T>(a: Run<T>) {
    a.Ran? && a.node.None?
  }

  /** Two matches with the same outcome: both loop, both raise the same
      exception, or both end with the same node at the same offset. */
  ghost predicate Same<T>(a: Run<T>, b: Run<T>) {
    a.Loops? == b.Loops? && a.Raised? == b.Raised? && (a.Raised? ==> a.error == b.error)
    && (a.Ran? ==> a.node == b.node && a.offset == b.offset)
  }

  /** The outcome of a match on symbols that hold no exception. */
  function Plain<T>(sym: Symbol<T>, ts: seq<T>, offset: int): Run<T>
    requires 0 <= offset <= |ts|
  {
    Match(sym, ts, offset, NoErrors())
  }

  /** The exceptions only ever decide messages: whether a symbol matches,
      the node it builds, where it stops and whether it raises are the same
      whatever exceptions the symbols hold. */
  lemma {:induction false} MatchIgnoresErrors<T>(sym: Symbol<T>, ts: seq<T>, offset: int, st: Errors<T>, st': Errors<T>)
    requires 0 <= offset <= |ts| && Wf(st) && Wf(st')
    ensures Same(Match(sym, ts, offset, st), Match(sym, ts, offset, st'))
    decreases sym, 2, 0
  {
    if sym.Sequential? {
      SequentialIgnoresErrors(sym, 0, ts, offset, offset, NewNode(sym.name, NoValue), st, st');
    } else if sym.Repeated? {
      RepeatedIgnoresErrors(sym, 0, ts, offset, offset, NewNode(sym.name, NoValue), st, st');
    } else if sym.AnyOf? {
      AnyOfIgnoresErrors(sym, 0, ts, offset, st, st');
    }
  }

  lemma {:induction false} SequentialIgnoresErrors<T>(sym: Symbol<T>, k: nat, ts: seq<T>, start: int, offset: int, node: Node<T>, st: Errors<T>, st': Errors<T>)
    requires sym.Sequential? && k <= |sym.symbols| && 0 <= start <= offset <= |ts| && Wf(st) && Wf(st')
    ensures Same(SequentialFrom(sym, k, ts, start, offset, node, st), SequentialFrom(sym, k, ts, start, offset, node, st'))
    decreases sym, 1, |sym.symbols| - k
  {
    if k < |sym.symbols| {
      var child := sym.symbols[k];
      MatchIgnoresErrors(child, ts, offset, st, st');
      var a := Match(child, ts, offset, st);
      var a' := Match(child, ts, offset, st');
      if Succeeds(a) {
        SequentialIgnoresErrors(sym, k + 1, ts, start, a.offset, AddChild(node, a.node.value),
                                ProcessError(a.errors, sym, child.id), ProcessError(a'.errors, sym, child.id));
      }
    }
  }

  lemma {:induction false} RepeatedIgnoresErrors<T>(sym: Symbol<T>, count: nat, ts: seq<T>, start: int, offset: int, node: Node<T>, st: Errors<T>, st': Errors<T>)
    requires sym.Repeated? && 0 <= start <= offset <= |ts| && Wf(st) && Wf(st')
    ensures Same(RepeatedFrom(sym, count, ts, start, offset, node, st), RepeatedFrom(sym, count, ts, start, offset, node, st'))
    decreases sym, 1, RepeatBound(sym, count, ts, offset)
  {
    if !(sym.maxMatches.Some? && count >= sym.maxMatches.value) {
      MatchIgnoresErrors(sym.symbol, ts, offset, st, st');
      var a := Match(sym.symbol, ts, offset, st);
      var a' := Match(sym.symbol, ts, offset, st');
      if Succeeds(a) && !(sym.maxMatches.None? && a.offset == offset) {
        RepeatedIgnoresErrors(sym, count + 1, ts, start, a.offset, AddChild(node, a.node.value),
                              ProcessError(a.errors, sym, sym.symbol.id), ProcessError(a'.errors, sym, sym.symbol.id));
      }
    }
  }

  lemma {:induction false} AnyOfIgnoresErrors<T>(sym: Symbol<T>, k: nat, ts: seq<T>, offset: int, st: Errors<T>, st': Errors<T>)
    requires sym.AnyOf? && k <= |sym.symbols| && 0 <= offset <= |ts| && Wf(st) && Wf(st')
    ensures Same(AnyOfFrom(sym, k, ts, offset, st), AnyOfFrom(sym, k, ts, offset, st'))
    decreases sym, 1, |sym.symbols| - k
  {
    if k < |sym.symbols| {
      MatchIgnoresErrors(sym.symbols[k], ts, offset, st, st');
      var a := Match(sym.symbols[k], ts, offset, st);
      var a' := Match(sym.symbols[k], ts, offset, st');
      if Fails(a) {
        AnyOfIgnoresErrors(sym, k + 1, ts, offset, ProcessError(a.errors, sym, sym.symbols[k].id), ProcessError(a'.errors, sym, sym.symbols[k].id));
      }
    }
  }

  /** A Repeated whose count of matches has reached its minimum can no
      longer fail (it may still raise or loop). */
  lemma {:induction false} RepeatedNeverFails<T>(sym: Symbol<T>, count: nat, ts: seq<T>, start: int, offset: int, node: Node<T>, st: Errors<T>)
    requires sym.Repeated? && 0 <= start <= offset <= |ts| && Wf(st) && count >= sym.minMatches
    ensures !Fails(RepeatedFrom(sym, count, ts, start, offset, node, st))
    decreases RepeatBound(sym, count, ts, offset)
  {
    if !(sym.maxMatches.Some? && count >= sym.maxMatches.value) {
      var a := Match(sym.symbol, ts, offset, st);
      if Succeeds(a) && !(sym.maxMatches.None? && a.offset == offset) {
        RepeatedNeverFails(sym, count + 1, ts, start, a.offset, AddChild(node, a.node.value), ProcessError(a.errors, sym, sym.symbol.id));
      }
    }
  }

  /** A Repeated with the default minimum, and so `optional(symbol)`,
      never fails. */
  lemma {:induction false} DefaultRepetitionNeverFails<T>(id: nat, symbol: Symbol<T>, name: Option<string>, errorName: Option<string>,
                                                          maxMatches: Option<int>, ts: seq<T>, offset: int, st: Errors<T>)
    requires 0 <= offset <= |ts| && Wf(st)
    ensures !Fails(Match(Repetition(id, symbol, name, errorName, maxMatches := maxMatches), ts, offset, st))
    ensures !Fails(Match(Optional(id, symbol, name, errorName), ts, offset, st))
  {
    var sym := Repetition(id, symbol, name, errorName, maxMatches := maxMatches);
    RepeatedNeverFails(sym, 0, ts, offset, offset, NewNode(sym.name, NoValue), st);
    var opt := Optional(id, symbol, name, errorName);
    RepeatedNeverFails(opt, 0, ts, offset, offset, NewNode(opt.name, NoValue), st);
  }

  /** Every alternative before the j-th fails at the offset. */
  ghost predicate FailBefore<T>(sym: Symbol<T>, j: int, ts: seq<T>, offset: int)
    requires sym.AnyOf? && j <= |sym.symbols| && 0 <= offset <= |ts|
  {
    forall i :: 0 <= i < j ==> Fails(Plain(sym.symbols[i], ts, offset))
  }

  /** An AnyOf gives the outcome of its first alternative that does not
      fail, none of the later ones being tried, and fails exactly when every
      alternative fails. */
  lemma {:induction false} AnyOfFirstMatch<T>(sym: Symbol<T>, ts: seq<T>, offset: int, st: Errors<T>)
    requires sym.AnyOf? && 0 <= offset <= |ts| && Wf(st)
    ensures var r := Match(sym, ts, offset, st);
      (!Fails(r) ==> exists j :: 0 <= j < |sym.symbols| && FailBefore(sym, j, ts, offset)
                                 && Same(r, Plain(sym.symbols[j], ts, offset)))
      && (Fails(r) <==> FailBefore(sym, |sym.symbols|, ts, offset))
  {
    AnyOfFromFirst(sym, 0, ts, offset, st);
  }

  lemma {:induction false} AnyOfFromFirst<T>(sym: Symbol<T>, k: nat, ts: seq<T>, offset: int, st: Errors<T>)
    requires sym.AnyOf? && k <= |sym.symbols| && 0 <= offset <= |ts| && Wf(st) && FailBefore(sym, k, ts, offset)
    ensures var r := AnyOfFrom(sym, k, ts, offset, st);
      (!Fails(r) ==> exists j :: k <= j < |sym.symbols| && FailBefore(sym, j, ts, offset)
                                 && Same(r, Plain(sym.symbols[j], ts, offset)))
      && (Fails(r) <==> FailBefore(sym, |sym.symbols|, ts, offset))
    decreases |sym.symbols| - k
  {
    if k < |sym.symbols| {
      var a := Match(sym.symbols[k], ts, offset, st);
      MatchIgnoresErrors(sym.symbols[k], ts, offset, st, NoErrors());
      if Fails(a) {
        assert FailBefore(sym, k + 1, ts, offset);
        AnyOfFromFirst(sym, k + 1, ts, offset, ProcessError(a.errors, sym, sym.symbols[k].id));
      } else {
        assert !Fails(Plain(sym.symbols[k], ts, offset));
      }
    }
  }

  /** A Repeated without a maximum over a Terminal raises IndexError once
      it has consumed the last token: its next attempt reads past the end.
      Here a Terminal that accepts every int, repeated over the one token 0. */
  lemma RepetitionRaisesAtEnd()
    ensures var t := Terminal(0, None, None, (n: int) => true);
      Match(Repetition(1, t, None, None), [0], 0, NoErrors()) == Raised(Python("IndexError"))
  {
    var t := Terminal(0, None, None, (n: int) => true);
    var sym := Repetition(1, t, None, None);
    var node := NewNode(sym.name, NoValue);
    var first := Match(t, [0], 0, NoErrors());
    assert first == Ran(Some(NewNode(None, Item(0))), 1, NoErrors());
    var errors := ProcessError(first.errors, sym, t.id);
    assert RepeatedFrom(sym, 1, [0], 0, 1, AddChild(node, first.node.value), errors) == Raised(Python("IndexError"));
  }
}
