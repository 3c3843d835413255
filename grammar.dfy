/**
 * The grammar symbols of the HADLoC compiler (hadloc/grammar/grammar.py)
 * as functions. A symbol matches tokens from an offset: a Terminal one
 * token that satisfies its predicate, a Sequential all its symbols in
 * order, a Repeated its symbol between a minimum and a maximum number of
 * times, a OneOf the first of its symbols that matches. A match that fails
 * leaves the offset where it was.
 *
 * Each symbol object also keeps an error offset and an error message,
 * which every match updates: a symbol adopts the error of a symbol it tried
 * when that error lies further on, and records its own error when it failed
 * without getting past its start. These fields are kept in a map from the
 * symbol's identity, so a symbol object used in several places of a grammar
 * shares one entry, and the fields left by one parse are those the next
 * parse starts from.
 *
 * A Repeated without a maximum whose symbol matches without consuming a
 * token repeats that match for ever; the functions report such a match as
 * Loops.
 */
module Grammar {
  import opened Wrappers
  import opened SyntaxTree

  /** `error_offset` and `error_msg` of one symbol. */
  datatype Mark = Mark(offset: int, message: string)

  /** The error fields of the symbols, by identity. */
  type Marks = map<nat, Mark>

  /** The fields of a symbol, as `__init__` sets them when the map has no
      entry yet. */
  function MarkOf(e: Marks, id: nat): Mark {
    if id in e then e[id] else Mark(0, "")
  }

  /** The message used when a symbol is given no error. */
  const DefaultError := "Unexpected token"

  /** A grammar symbol: its identity, its name (the type of the node it
      builds), its error generator (a function of the ancestor nodes) and
      its auto_name flag, then what it matches. */
  datatype Symbol<!T> =
    | Terminal(id: nat, name: Option<string>, error: seq<Node<T>> -> string, autoName: bool, accepts: T -> bool)
    | Sequential(id: nat, name: Option<string>, error: seq<Node<T>> -> string, autoName: bool, symbols: seq<Symbol<T>>)
    | Repeated(id: nat, name: Option<string>, error: seq<Node<T>> -> string, autoName: bool,
               symbol: Symbol<T>, minMatches: int, maxMatches: Option<int>)
    | OneOf(id: nat, name: Option<string>, error: seq<Node<T>> -> string, autoName: bool, symbols: seq<Symbol<T>>)

  /** The error generator `__init__` makes from its `error` argument: a
      fixed message for a str, the default message for None. */
  function ErrorGenerator<T>(error: Option<string>): seq<Node<T>> -> string {
    if error.Some? then (nodes: seq<Node<T>>) => error.value else (nodes: seq<Node<T>>) => DefaultError
  }

  /** `Optional(symbol)`. */
  function Optional<T>(id: nat, name: Option<string>, error: seq<Node<T>> -> string, autoName: bool, symbol: Symbol<T>): Symbol<T> {
    Repeated(id, name, error, autoName, symbol, 0, Some(1))
  }

  /** `ZeroOrMore(symbol)`. */
  function ZeroOrMore<T>(id: nat, name: Option<string>, error: seq<Node<T>> -> string, autoName: bool, symbol: Symbol<T>): Symbol<T> {
    Repeated(id, name, error, autoName, symbol, 0, None)
  }

  /** `OneOrMore(symbol)`. */
  function OneOrMore<T>(id: nat, name: Option<string>, error: seq<Node<T>> -> string, autoName: bool, symbol: Symbol<T>): Symbol<T> {
    Repeated(id, name, error, autoName, symbol, 1, None)
  }

  /** `create_error(offset, parent_nodes)`. */
  function CreateError<T>(e: Marks, sym: Symbol<T>, offset: int, parents: seq<Node<T>>): Marks {
    e[sym.id := Mark(offset, sym.error(parents))]
  }

  /** `self.process_error(other)`: take the other symbol's error when it
      lies further on. */
  function ProcessError(e: Marks, self: nat, other: nat): (r: Marks)
    ensures MarkOf(r, self).offset >= MarkOf(e, self).offset && MarkOf(r, self).offset >= MarkOf(e, other).offset
    ensures MarkOf(r, self) == MarkOf(e, self) || MarkOf(r, self) == MarkOf(e, other)
    ensures MarkOf(e, self).offset < MarkOf(e, other).offset <==> r != e
    ensures forall id :: id != self ==> MarkOf(r, id) == MarkOf(e, id)
  {
    if MarkOf(e, self).offset < MarkOf(e, other).offset then e[self := MarkOf(e, other)] else e
  }

  /** The node a Sequential or Repeated starts from: `ASTNode(self.name,
      self.auto_name)`, which makes the flag the node's value. */
  function StartNode<T>(sym: Symbol<T>): Node<T> {
    NewNode(sym.name, Flag(sym.autoName))
  }

  /** What a match gives: its node (None when it failed), the offset and
      the error fields after it; or Loops. */
  datatype Attempt<T> = Done(node: Option<Node<T>>, offset: int, marks: Marks) | Loops

  /** `symbol.match(tokens, parent_nodes)` from an offset. */
  function Match<T>(sym: Symbol<T>, ts: seq<T>, offset: int, e: Marks, parents: seq<Node<T>>): (r: Attempt<T>)
    requires 0 <= offset <= |ts|
    ensures r.Done? ==> offset <= r.offset <= |ts|
    ensures r.Done? && r.node.None? ==> r.offset == offset
    decreases sym, 2, 0
  {
    if sym.Terminal? then TerminalMatch(sym, ts, offset, e, parents)
    else if sym.Sequential? then SequentialFrom(sym, 0, ts, offset, offset, StartNode(sym), e, parents)
    else if sym.Repeated? then RepeatedFrom(sym, 0, ts, offset, offset, StartNode(sym), e, parents)
    else OneOfFrom(sym, 0, ts, offset, e, parents)
  }

  /** `Terminal.match`, with the node the source evidently means to build:
      the symbol's name and the token as its value. */
  function TerminalMatch<T>(sym: Symbol<T>, ts: seq<T>, offset: int, e: Marks, parents: seq<Node<T>>): (r: Attempt<T>)
    requires sym.Terminal? && 0 <= offset <= |ts|
    ensures r.Done? && (r.node.Some? <==> offset < |ts| && sym.accepts(ts[offset]))
    ensures r.node.Some? ==> r.offset == offset + 1 && r.node.value == NewNode(sym.name, Item(ts[offset])) && r.marks == e
    ensures r.node.None? ==> r.offset == offset
    ensures r.node.None? && offset < |ts| ==> r.marks == CreateError(e, sym, offset, parents)
    ensures offset == |ts| ==> r.marks == e
  {
    if offset >= |ts| then Done(None, offset, e)
    else if sym.accepts(ts[offset]) then Done(Some(NewNode(sym.name, Item(ts[offset]))), offset + 1, e)
    else Done(None, offset, CreateError(e, sym, offset, parents))
  }

  /** `Terminal.match` as written: the node is built with three arguments,
      `ASTNode(self.name, self.auto_name, token)`, one more than the
      constructor takes, so every accepted token raises TypeError. */
  function TerminalMatchAsWritten<T>(sym: Symbol<T>, ts: seq<T>, offset: int, e: Marks, parents: seq<Node<T>>): (r: Result<Attempt<T>>)
    requires sym.Terminal? && 0 <= offset <= |ts|
    ensures r.Failure? <==> offset < |ts| && sym.accepts(ts[offset])
    ensures r.Failure? ==> r.error == Python("TypeError")
    ensures r.Success? ==> r.value == TerminalMatch(sym, ts, offset, e, parents) && r.value.node.None?
  {
    if offset >= |ts| then Success(Done(None, offset, e))
    else if sym.accepts(ts[offset]) then Failure(Python("TypeError"))
    else Success(Done(None, offset, CreateError(e, sym, offset, parents)))
  }

  /** The failure of a Sequential or Repeated: back to the start, and its
      own error when no symbol it tried got past the start. */
  function Failed<T>(sym: Symbol<T>, start: int, e: Marks, parents: seq<Node<T>>): Attempt<T> {
    Done(None, start, if start == MarkOf(e, sym.id).offset then CreateError(e, sym, start, parents) else e)
  }

  /** The loop of `Sequential.match` from its k-th symbol. */
  function SequentialFrom<T>(sym: Symbol<T>, k: nat, ts: seq<T>, start: int, offset: int, node: Node<T>, e: Marks, parents: seq<Node<T>>): (r: Attempt<T>)
    requires sym.Sequential? && k <= |sym.symbols| && 0 <= start <= offset <= |ts|
    ensures r.Done? ==> start <= r.offset <= |ts|
    ensures r.Done? && r.node.None? ==> r.offset == start
    decreases sym, 1, |sym.symbols| - k
  {
    if k == |sym.symbols| then Done(Some(node), offset, e)
    else
      var child := sym.symbols[k];
      var a := Match(child, ts, offset, e, parents + [node]);
      if a.Loops? then Loops
      else
        var marks := ProcessError(a.marks, sym.id, child.id);
        if a.node.Some? then SequentialFrom(sym, k + 1, ts, start, a.offset, AddChild(node, a.node.value), marks, parents)
        else Failed(sym, start, marks, parents + [node])
  }

  /** What bounds the loop of a Repeated: the matches left up to the
      maximum, or the tokens left when there is none. */
  function RepeatBound<T>(sym: Symbol<T>, count: int, ts: seq<T>, offset: int): nat
    requires sym.Repeated? && offset <= |ts|
  {
    if sym.maxMatches.Some? then (if count < sym.maxMatches.value then sym.maxMatches.value - count else 0)
    else |ts| - offset
  }

  /** The loop of `Repeated.match` after `count` matches. */
  function RepeatedFrom<T>(sym: Symbol<T>, count: nat, ts: seq<T>, start: int, offset: int, node: Node<T>, e: Marks, parents: seq<Node<T>>): (r: Attempt<T>)
    requires sym.Repeated? && 0 <= start <= offset <= |ts|
    ensures r.Done? ==> start <= r.offset <= |ts|
    ensures r.Done? && r.node.None? ==> r.offset == start
    decreases sym, 1, RepeatBound(sym, count, ts, offset)
  {
    if sym.maxMatches.Some? && count >= sym.maxMatches.value then Done(Some(node), offset, e)
    else
      var a := Match(sym.symbol, ts, offset, e, parents + [node]);
      if a.Loops? then Loops
      else
        var marks := ProcessError(a.marks, sym.id, sym.symbol.id);
        if a.node.Some? then
          if sym.maxMatches.None? && a.offset == offset then Loops
          else RepeatedFrom(sym, count + 1, ts, start, a.offset, AddChild(node, a.node.value), marks, parents)
        else if count >= sym.minMatches then Done(Some(node), offset, marks)
        else Failed(sym, start, marks, parents + [node])
  }

  /** The loop of `OneOf.match` from its k-th alternative. */
  function OneOfFrom<T>(sym: Symbol<T>, k: nat, ts: seq<T>, offset: int, e: Marks, parents: seq<Node<T>>): (r: Attempt<T>)
    requires sym.OneOf? && k <= |sym.symbols| && 0 <= offset <= |ts|
    ensures r.Done? ==> offset <= r.offset <= |ts|
    ensures r.Done? && r.node.None? ==> r.offset == offset
    decreases sym, 1, |sym.symbols| - k
  {
    if k == |sym.symbols| then
      Done(None, offset, if offset == MarkOf(e, sym.id).offset then CreateError(e, sym, offset, parents) else e)
    else
      var a := Match(sym.symbols[k], ts, offset, e, parents);
      if a.Loops? then Loops
      else
        var marks := ProcessError(a.marks, sym.id, sym.symbols[k].id);
        if a.node.Some? then Done(a.node, a.offset, marks)
        else OneOfFrom(sym, k + 1, ts, offset, marks, parents)
  }

  /** What `parse` gives: its node or the exception it raises, with the
      error fields after it; or Loops. */
  datatype Parsing<T> = Parsed(result: Result<Node<T>>, marks: Marks) | ParseLoops

  /** `symbol.parse(tokens)`: match from offset 0 and require every token
      to be used; otherwise raise a Syntax error with the symbol's message,
      or IndexError when its error offset is no position of the list. */
  function Parse<T>(sym: Symbol<T>, ts: seq<T>, e: Marks): (r: Parsing<T>)
    ensures r.Parsed? && r.result.Failure? ==>
      r.result.error == Compiler("Syntax", MarkOf(r.marks, sym.id).message, []) || r.result.error == Python("IndexError")
    ensures r.Parsed? && r.result.Failure? && |ts| == 0 ==> r.result.error == Python("IndexError")
  {
    var a := Match(sym, ts, 0, e, []);
    if a.Loops? then ParseLoops
    else if a.node.None? || a.offset < |ts| then
      var m := MarkOf(a.marks, sym.id);
      Parsed(if -|ts| <= m.offset < |ts| then Failure(Compiler("Syntax", m.message, [])) else Failure(Python("IndexError")), a.marks)
    else Parsed(Success(a.node.value), a.marks)
  }

  /** A match that ended and found its symbol's tokens. */
  predicate Succeeds<T>(a: Attempt<T>) {
    a.Done? && a.node.Some?
  }

  /** A match that ended without finding them. */
  predicate Fails<T>(a: Attempt<T>) {
    a.Done? && a.node.None?
  }

  /** Two matches with the same outcome: both loop, or both end with the
      same node at the same offset (whatever error fields they leave). */
  ghost predicate Same<T>(a: Attempt<T>, b: Attempt<T>) {
    a.Loops? == b.Loops? && (a.Done? ==> a.node == b.node && a.offset == b.offset)
  }

  /** The outcome of a match at the top level on symbols whose error fields
      are those of new objects. */
  function Plain<T>(sym: Symbol<T>, ts: seq<T>, offset: int): Attempt<T>
    requires 0 <= offset <= |ts|
  {
    Match(sym, ts, offset, map[], [])
  }

  /** The error fields and the ancestor nodes only ever decide messages:
      whether a symbol matches, the node it builds and where it stops are
      the same whatever errors earlier matches or parses left behind. */
  lemma {:induction false} MatchIgnoresErrors<T>(sym: Symbol<T>, ts: seq<T>, offset: int, e: Marks, parents: seq<Node<T>>, e': Marks, parents': seq<Node<T>>)
    requires 0 <= offset <= |ts|
    ensures Same(Match(sym, ts, offset, e, parents), Match(sym, ts, offset, e', parents'))
    decreases sym, 2, 0
  {
    if sym.Sequential? {
      SequentialIgnoresErrors(sym, 0, ts, offset, offset, StartNode(sym), e, parents, e', parents');
    } else if sym.Repeated? {
      RepeatedIgnoresErrors(sym, 0, ts, offset, offset, StartNode(sym), e, parents, e', parents');
    } else if sym.OneOf? {
      OneOfIgnoresErrors(sym, 0, ts, offset, e, parents, e', parents');
    }
  }

  lemma {:induction false} SequentialIgnoresErrors<T>(sym: Symbol<T>, k: nat, ts: seq<T>, start: int, offset: int, node: Node<T>,
                                                      e: Marks, parents: seq<Node<T>>, e': Marks, parents': seq<Node<T>>)
    requires sym.Sequential? && k <= |sym.symbols| && 0 <= start <= offset <= |ts|
    ensures Same(SequentialFrom(sym, k, ts, start, offset, node, e, parents), SequentialFrom(sym, k, ts, start, offset, node, e', parents'))
    decreases sym, 1, |sym.symbols| - k
  {
    if k < |sym.symbols| {
      var child := sym.symbols[k];
      MatchIgnoresErrors(child, ts, offset, e, parents + [node], e', parents' + [node]);
      var a := Match(child, ts, offset, e, parents + [node]);
      var a' := Match(child, ts, offset, e', parents' + [node]);
      if Succeeds(a) {
        SequentialIgnoresErrors(sym, k + 1, ts, start, a.offset, AddChild(node, a.node.value),
                                ProcessError(a.marks, sym.id, child.id), parents, ProcessError(a'.marks, sym.id, child.id), parents');
      }
    }
  }

  lemma {:induction false} RepeatedIgnoresErrors<T>(sym: Symbol<T>, count: nat, ts: seq<T>, start: int, offset: int, node: Node<T>,
                                                    e: Marks, parents: seq<Node<T>>, e': Marks, parents': seq<Node<T>>)
    requires sym.Repeated? && 0 <= start <= offset <= |ts|
    ensures Same(RepeatedFrom(sym, count, ts, start, offset, node, e, parents), RepeatedFrom(sym, count, ts, start, offset, node, e', parents'))
    decreases sym, 1, RepeatBound(sym, count, ts, offset)
  {
    if !(sym.maxMatches.Some? && count >= sym.maxMatches.value) {
      MatchIgnoresErrors(sym.symbol, ts, offset, e, parents + [node], e', parents' + [node]);
      var a := Match(sym.symbol, ts, offset, e, parents + [node]);
      var a' := Match(sym.symbol, ts, offset, e', parents' + [node]);
      if Succeeds(a) && !(sym.maxMatches.None? && a.offset == offset) {
        RepeatedIgnoresErrors(sym, count + 1, ts, start, a.offset, AddChild(node, a.node.value),
                              ProcessError(a.marks, sym.id, sym.symbol.id), parents, ProcessError(a'.marks, sym.id, sym.symbol.id), parents');
      }
    }
  }

  lemma {:induction false} OneOfIgnoresErrors<T>(sym: Symbol<T>, k: nat, ts: seq<T>, offset: int,
                                                 e: Marks, parents: seq<Node<T>>, e': Marks, parents': seq<Node<T>>)
    requires sym.OneOf? && k <= |sym.symbols| && 0 <= offset <= |ts|
    ensures Same(OneOfFrom(sym, k, ts, offset, e, parents), OneOfFrom(sym, k, ts, offset, e', parents'))
    decreases sym, 1, |sym.symbols| - k
  {
    if k < |sym.symbols| {
      MatchIgnoresErrors(sym.symbols[k], ts, offset, e, parents, e', parents');
      var a := Match(sym.symbols[k], ts, offset, e, parents);
      var a' := Match(sym.symbols[k], ts, offset, e', parents');
      if Fails(a) {
        OneOfIgnoresErrors(sym, k + 1, ts, offset, ProcessError(a.marks, sym.id, sym.symbols[k].id), parents,
                           ProcessError(a'.marks, sym.id, sym.symbols[k].id), parents');
      }
    }
  }

  /** Where matching the symbols one after another from an offset ends;
      None when one of them fails or loops. */
  function Chain<T>(syms: seq<Symbol<T>>, ts: seq<T>, offset: int): (r: Option<int>)
    requires 0 <= offset <= |ts|
    ensures r.Some? ==> offset <= r.value <= |ts|
    decreases |syms|
  {
    if |syms| == 0 then Some(offset)
    else
      var a := Plain(syms[0], ts, offset);
      if Succeeds(a) then Chain(syms[1..], ts, a.offset) else None
  }

  /** A Sequential succeeds exactly when all its symbols match one after
      another, and then it ends where the last of them ends; when one of
      them fails, it fails and is back at its start. */
  lemma {:induction false} SequentialMatchesAll<T>(sym: Symbol<T>, ts: seq<T>, offset: int, e: Marks, parents: seq<Node<T>>)
    requires sym.Sequential? && 0 <= offset <= |ts|
    ensures var r := Match(sym, ts, offset, e, parents);
      r.Done? ==> (r.node.Some? <==> Chain(sym.symbols, ts, offset).Some?)
                  && (r.node.Some? ==> r.offset == Chain(sym.symbols, ts, offset).value)
                  && (r.node.None? ==> r.offset == offset)
  {
    SequentialChain(sym, 0, ts, offset, offset, StartNode(sym), e, parents);
    assert sym.symbols[0..] == sym.symbols;
  }

  lemma {:induction false} SequentialChain<T>(sym: Symbol<T>, k: nat, ts: seq<T>, start: int, offset: int, node: Node<T>, e: Marks, parents: seq<Node<T>>)
    requires sym.Sequential? && k <= |sym.symbols| && 0 <= start <= offset <= |ts|
    ensures var r := SequentialFrom(sym, k, ts, start, offset, node, e, parents);
      r.Done? ==> (r.node.Some? <==> Chain(sym.symbols[k..], ts, offset).Some?)
                  && (r.node.Some? ==> r.offset == Chain(sym.symbols[k..], ts, offset).value)
    decreases |sym.symbols| - k
  {
    if k < |sym.symbols| {
      var child := sym.symbols[k];
      var a := Match(child, ts, offset, e, parents + [node]);
      MatchIgnoresErrors(child, ts, offset, e, parents + [node], map[], []);
      assert sym.symbols[k..][0] == child && sym.symbols[k..][1..] == sym.symbols[k + 1..];
      if Succeeds(a) {
        SequentialChain(sym, k + 1, ts, start, a.offset, AddChild(node, a.node.value), ProcessError(a.marks, sym.id, child.id), parents);
      }
    }
  }

  /** A Repeated whose count of matches has reached its minimum can no
      longer fail: it ends when its symbol fails or when the maximum is
      reached, either way with its node. */
  lemma {:induction false} RepeatedNeverFails<T>(sym: Symbol<T>, count: nat, ts: seq<T>, start: int, offset: int, node: Node<T>, e: Marks, parents: seq<Node<T>>)
    requires sym.Repeated? && 0 <= start <= offset <= |ts| && count >= sym.minMatches
    ensures !Fails(RepeatedFrom(sym, count, ts, start, offset, node, e, parents))
    decreases RepeatBound(sym, count, ts, offset)
  {
    if !(sym.maxMatches.Some? && count >= sym.maxMatches.value) {
      var a := Match(sym.symbol, ts, offset, e, parents + [node]);
      if Succeeds(a) && !(sym.maxMatches.None? && a.offset == offset) {
        RepeatedNeverFails(sym, count + 1, ts, start, a.offset, AddChild(node, a.node.value), ProcessError(a.marks, sym.id, sym.symbol.id), parents);
      }
    }
  }

  /** `Optional` never fails. */
  lemma {:induction false} OptionalNeverFails<T>(id: nat, name: Option<string>, error: seq<Node<T>> -> string, autoName: bool, symbol: Symbol<T>,
                                                 ts: seq<T>, offset: int, e: Marks, parents: seq<Node<T>>)
    requires 0 <= offset <= |ts|
    ensures !Fails(Match(Optional(id, name, error, autoName, symbol), ts, offset, e, parents))
  {
    var sym := Optional(id, name, error, autoName, symbol);
    RepeatedNeverFails(sym, 0, ts, offset, offset, StartNode(sym), e, parents);
  }

  /** `ZeroOrMore` never fails (it may loop, when its symbol matches
      without consuming a token). */
  lemma {:induction false} ZeroOrMoreNeverFails<T>(id: nat, name: Option<string>, error: seq<Node<T>> -> string, autoName: bool, symbol: Symbol<T>,
                                                   ts: seq<T>, offset: int, e: Marks, parents: seq<Node<T>>)
    requires 0 <= offset <= |ts|
    ensures !Fails(Match(ZeroOrMore(id, name, error, autoName, symbol), ts, offset, e, parents))
  {
    var sym := ZeroOrMore(id, name, error, autoName, symbol);
    RepeatedNeverFails(sym, 0, ts, offset, offset, StartNode(sym), e, parents);
  }

  /** `OneOrMore` fails exactly when the first match of its symbol fails. */
  lemma {:induction false} OneOrMoreFails<T>(id: nat, name: Option<string>, error: seq<Node<T>> -> string, autoName: bool, symbol: Symbol<T>,
                                             ts: seq<T>, offset: int, e: Marks, parents: seq<Node<T>>)
    requires 0 <= offset <= |ts|
    ensures Fails(Match(OneOrMore(id, name, error, autoName, symbol), ts, offset, e, parents)) <==> Fails(Plain(symbol, ts, offset))
  {
    var sym := OneOrMore(id, name, error, autoName, symbol);
    var node := StartNode(sym);
    var a := Match(symbol, ts, offset, e, parents + [node]);
    MatchIgnoresErrors(symbol, ts, offset, e, parents + [node], map[], []);
    if Succeeds(a) && a.offset != offset {
      RepeatedNeverFails(sym, 1, ts, offset, a.offset, AddChild(node, a.node.value), ProcessError(a.marks, sym.id, symbol.id), parents);
    }
  }

  /** The larger of two counts. */
  function Larger(a: int, b: int): int {
    if a > b then a else b
  }

  /** A Sequential started from a node keeps that node's type and value. */
  lemma {:induction false} SequentialKeepsType<T>(sym: Symbol<T>, k: nat, ts: seq<T>, start: int, offset: int, node: Node<T>, e: Marks, parents: seq<Node<T>>)
    requires sym.Sequential? && k <= |sym.symbols| && 0 <= start <= offset <= |ts|
    ensures var r := SequentialFrom(sym, k, ts, start, offset, node, e, parents);
      Succeeds(r) ==> r.node.value.nodeType == node.nodeType && r.node.value.value == node.value
    decreases |sym.symbols| - k
  {
    if k < |sym.symbols| {
      var child := sym.symbols[k];
      var a := Match(child, ts, offset, e, parents + [node]);
      if Succeeds(a) {
        AddChildSplices(node, a.node.value);
        SequentialKeepsType(sym, k + 1, ts, start, a.offset, AddChild(node, a.node.value), ProcessError(a.marks, sym.id, child.id), parents);
      }
    }
  }

  /** A Repeated started from a node keeps that node's type and value. */
  lemma {:induction false} RepeatedKeepsType<T>(sym: Symbol<T>, count: nat, ts: seq<T>, start: int, offset: int, node: Node<T>, e: Marks, parents: seq<Node<T>>)
    requires sym.Repeated? && 0 <= start <= offset <= |ts|
    ensures var r := RepeatedFrom(sym, count, ts, start, offset, node, e, parents);
      Succeeds(r) ==> r.node.value.nodeType == node.nodeType && r.node.value.value == node.value
    decreases RepeatBound(sym, count, ts, offset)
  {
    if !(sym.maxMatches.Some? && count >= sym.maxMatches.value) {
      var a := Match(sym.symbol, ts, offset, e, parents + [node]);
      if Succeeds(a) && !(sym.maxMatches.None? && a.offset == offset) {
        AddChildSplices(node, a.node.value);
        RepeatedKeepsType(sym, count + 1, ts, start, a.offset, AddChild(node, a.node.value), ProcessError(a.marks, sym.id, sym.symbol.id), parents);
      }
    }
  }

  /** The node a Terminal, Sequential or Repeated builds is named after
      the symbol; a Terminal's holds the token, the others' the auto_name
      flag. */
  lemma {:induction false} MatchNamesNode<T>(sym: Symbol<T>, ts: seq<T>, offset: int, e: Marks, parents: seq<Node<T>>)
    requires !sym.OneOf? && 0 <= offset <= |ts|
    ensures var r := Match(sym, ts, offset, e, parents);
      Succeeds(r) ==> r.node.value.nodeType == sym.name
                      && r.node.value.value == (if sym.Terminal? then Item(ts[offset]) else Flag(sym.autoName))
  {
    if sym.Sequential? {
      SequentialKeepsType(sym, 0, ts, offset, offset, StartNode(sym), e, parents);
    } else if sym.Repeated? {
      RepeatedKeepsType(sym, 0, ts, offset, offset, StartNode(sym), e, parents);
    }
  }

  /** The count of a Repeated whose symbol builds named nodes: every match
      adds one child, so when it succeeds it holds at least the minimum of
      matches or has reached the maximum, and never more than the maximum. */
  lemma {:induction false} RepeatedCounts<T>(sym: Symbol<T>, count: nat, ts: seq<T>, start: int, offset: int, node: Node<T>, e: Marks, parents: seq<Node<T>>)
    requires sym.Repeated? && 0 <= start <= offset <= |ts| && |node.children| == count
    requires sym.symbol.name.Some? && !sym.symbol.OneOf?
    ensures var r := RepeatedFrom(sym, count, ts, start, offset, node, e, parents);
      Succeeds(r) ==> var n := |r.node.value.children|;
        (n >= sym.minMatches || (sym.maxMatches.Some? && n >= sym.maxMatches.value))
        && (sym.maxMatches.Some? ==> n <= Larger(sym.maxMatches.value, count))
    decreases RepeatBound(sym, count, ts, offset)
  {
    if !(sym.maxMatches.Some? && count >= sym.maxMatches.value) {
      var a := Match(sym.symbol, ts, offset, e, parents + [node]);
      if Succeeds(a) && !(sym.maxMatches.None? && a.offset == offset) {
        MatchNamesNode(sym.symbol, ts, offset, e, parents + [node]);
        RepeatedCounts(sym, count + 1, ts, start, a.offset, AddChild(node, a.node.value), ProcessError(a.marks, sym.id, sym.symbol.id), parents);
      }
    }
  }

  /** The same, for a Repeated matched from its start. */
  lemma {:induction false} RepeatedMatchCounts<T>(sym: Symbol<T>, ts: seq<T>, offset: int, e: Marks, parents: seq<Node<T>>)
    requires sym.Repeated? && 0 <= offset <= |ts| && sym.symbol.name.Some? && !sym.symbol.OneOf?
    ensures var r := Match(sym, ts, offset, e, parents);
      Succeeds(r) ==> var n := |r.node.value.children|;
        (n >= sym.minMatches || (sym.maxMatches.Some? && n >= sym.maxMatches.value))
        && (sym.maxMatches.Some? ==> n <= Larger(sym.maxMatches.value, 0))
  {
    RepeatedCounts(sym, 0, ts, offset, offset, StartNode(sym), e, parents);
  }

  /** Every alternative before the j-th fails at the offset. */
  ghost predicate FailBefore<T>(sym: Symbol<T>, j: int, ts: seq<T>, offset: int)
    requires sym.OneOf? && j <= |sym.symbols| && 0 <= offset <= |ts|
  {
    forall i :: 0 <= i < j ==> Fails(Plain(sym.symbols[i], ts, offset))
  }

  /** A OneOf gives the outcome of its first alternative that matches, none
      of the later ones being tried, and fails exactly when every
      alternative fails. */
  lemma {:induction false} OneOfFirstMatch<T>(sym: Symbol<T>, ts: seq<T>, offset: int, e: Marks, parents: seq<Node<T>>)
    requires sym.OneOf? && 0 <= offset <= |ts|
    ensures var r := Match(sym, ts, offset, e, parents);
      (Succeeds(r) ==> exists j :: 0 <= j < |sym.symbols| && FailBefore(sym, j, ts, offset)
                                   && Same(r, Plain(sym.symbols[j], ts, offset)))
      && (Fails(r) <==> FailBefore(sym, |sym.symbols|, ts, offset))
  {
    OneOfFromFirst(sym, 0, ts, offset, e, parents);
  }

  lemma {:induction false} OneOfFromFirst<T>(sym: Symbol<T>, k: nat, ts: seq<T>, offset: int, e: Marks, parents: seq<Node<T>>)
    requires sym.OneOf? && k <= |sym.symbols| && 0 <= offset <= |ts| && FailBefore(sym, k, ts, offset)
    ensures var r := OneOfFrom(sym, k, ts, offset, e, parents);
      (Succeeds(r) ==> exists j :: k <= j < |sym.symbols| && FailBefore(sym, j, ts, offset)
                                   && Same(r, Plain(sym.symbols[j], ts, offset)))
      && (Fails(r) <==> FailBefore(sym, |sym.symbols|, ts, offset))
    decreases |sym.symbols| - k
  {
    if k < |sym.symbols| {
      var a := Match(sym.symbols[k], ts, offset, e, parents);
      MatchIgnoresErrors(sym.symbols[k], ts, offset, e, parents, map[], []);
      if Fails(a) {
        assert FailBefore(sym, k + 1, ts, offset);
        OneOfFromFirst(sym, k + 1, ts, offset, ProcessError(a.marks, sym.id, sym.symbols[k].id), parents);
      } else {
        assert !Fails(Plain(sym.symbols[k], ts, offset));
      }
    }
  }

  /** The symbol or one inside it has the identity `id`. */
  ghost predicate Occurs<T>(sym: Symbol<T>, id: nat)
    decreases sym
  {
    sym.id == id
    || (sym.Repeated? && Occurs(sym.symbol, id))
    || ((sym.Sequential? || sym.OneOf?) && exists i :: 0 <= i < |sym.symbols| && Occurs(sym.symbols[i], id))
  }

  /** No symbol inside `sym` is `sym` itself, as no Python object built
      by these constructors holds itself. */
  ghost predicate OwnId<T>(sym: Symbol<T>) {
    match sym
    case Terminal(_, _, _, _, _) => true
    case Repeated(_, _, _, _, symbol, _, _) => !Occurs(symbol, sym.id)
    case Sequential(_, _, _, _, symbols) => forall i :: 0 <= i < |symbols| ==> !Occurs(symbols[i], sym.id)
    case OneOf(_, _, _, _, symbols) => forall i :: 0 <= i < |symbols| ==> !Occurs(symbols[i], sym.id)
  }

  /** A match writes the error fields of the symbols inside it and of no
      other symbol. */
  lemma {:induction false} MatchKeepsOthers<T>(sym: Symbol<T>, ts: seq<T>, offset: int, e: Marks, parents: seq<Node<T>>, id: nat)
    requires 0 <= offset <= |ts| && !Occurs(sym, id)
    ensures var r := Match(sym, ts, offset, e, parents); r.Done? ==> MarkOf(r.marks, id) == MarkOf(e, id)
    decreases sym, 2, 0
  {
    if sym.Sequential? {
      SequentialKeepsOthers(sym, 0, ts, offset, offset, StartNode(sym), e, parents, id);
    } else if sym.Repeated? {
      RepeatedKeepsOthers(sym, 0, ts, offset, offset, StartNode(sym), e, parents, id);
    } else if sym.OneOf? {
      OneOfKeepsOthers(sym, 0, ts, offset, e, parents, id);
    }
  }

  lemma {:induction false} SequentialKeepsOthers<T>(sym: Symbol<T>, k: nat, ts: seq<T>, start: int, offset: int, node: Node<T>,
                                                    e: Marks, parents: seq<Node<T>>, id: nat)
    requires sym.Sequential? && k <= |sym.symbols| && 0 <= start <= offset <= |ts| && !Occurs(sym, id)
    ensures var r := SequentialFrom(sym, k, ts, start, offset, node, e, parents); r.Done? ==> MarkOf(r.marks, id) == MarkOf(e, id)
    decreases sym, 1, |sym.symbols| - k
  {
    if k < |sym.symbols| {
      var child := sym.symbols[k];
      assert !Occurs(child, id);
      MatchKeepsOthers(child, ts, offset, e, parents + [node], id);
      var a := Match(child, ts, offset, e, parents + [node]);
      if Succeeds(a) {
        SequentialKeepsOthers(sym, k + 1, ts, start, a.offset, AddChild(node, a.node.value),
                              ProcessError(a.marks, sym.id, child.id), parents, id);
      }
    }
  }

  lemma {:induction false} RepeatedKeepsOthers<T>(sym: Symbol<T>, count: nat, ts: seq<T>, start: int, offset: int, node: Node<T>,
                                                  e: Marks, parents: seq<Node<T>>, id: nat)
    requires sym.Repeated? && 0 <= start <= offset <= |ts| && !Occurs(sym, id)
    ensures var r := RepeatedFrom(sym, count, ts, start, offset, node, e, parents); r.Done? ==> MarkOf(r.marks, id) == MarkOf(e, id)
    decreases sym, 1, RepeatBound(sym, count, ts, offset)
  {
    if !(sym.maxMatches.Some? && count >= sym.maxMatches.value) {
      MatchKeepsOthers(sym.symbol, ts, offset, e, parents + [node], id);
      var a := Match(sym.symbol, ts, offset, e, parents + [node]);
      if Succeeds(a) && !(sym.maxMatches.None? && a.offset == offset) {
        RepeatedKeepsOthers(sym, count + 1, ts, start, a.offset, AddChild(node, a.node.value),
                            ProcessError(a.marks, sym.id, sym.symbol.id), parents, id);
      }
    }
  }

  lemma {:induction false} OneOfKeepsOthers<T>(sym: Symbol<T>, k: nat, ts: seq<T>, offset: int, e: Marks, parents: seq<Node<T>>, id: nat)
    requires sym.OneOf? && k <= |sym.symbols| && 0 <= offset <= |ts| && !Occurs(sym, id)
    ensures var r := OneOfFrom(sym, k, ts, offset, e, parents); r.Done? ==> MarkOf(r.marks, id) == MarkOf(e, id)
    decreases sym, 1, |sym.symbols| - k
  {
    if k < |sym.symbols| {
      assert !Occurs(sym.symbols[k], id);
      MatchKeepsOthers(sym.symbols[k], ts, offset, e, parents, id);
      var a := Match(sym.symbols[k], ts, offset, e, parents);
      if Fails(a) {
        OneOfKeepsOthers(sym, k + 1, ts, offset, ProcessError(a.marks, sym.id, sym.symbols[k].id), parents, id);
      }
    }
  }

  /** How a symbol picks its error. A Terminal that rejects a token
      reports its own error at that token. A Sequential, Repeated or OneOf
      that fails with its error offset at its start (no symbol it tried got
      further) reports its own error there; otherwise it keeps the error it
      took over from the symbols it tried, and since it takes one over only
      when it lies further on, its error offset never moves back. */
  lemma {:induction false} ErrorChoice<T>(sym: Symbol<T>, ts: seq<T>, offset: int, e: Marks, parents: seq<Node<T>>)
    requires 0 <= offset <= |ts|
    ensures var r := Match(sym, ts, offset, e, parents);
      sym.Terminal? && r.Done? && r.node.None? && offset < |ts| ==> MarkOf(r.marks, sym.id) == Mark(offset, sym.error(parents))
    ensures var r := Match(sym, ts, offset, e, parents);
      (sym.Sequential? || sym.Repeated?) && Fails(r) && MarkOf(r.marks, sym.id).offset == offset ==>
        exists n: Node<T> :: MarkOf(r.marks, sym.id) == Mark(offset, sym.error(parents + [n]))
    ensures var r := Match(sym, ts, offset, e, parents);
      sym.OneOf? && Fails(r) && MarkOf(r.marks, sym.id).offset == offset ==> MarkOf(r.marks, sym.id) == Mark(offset, sym.error(parents))
    ensures var r := Match(sym, ts, offset, e, parents);
      !sym.Terminal? && OwnId(sym) && r.Done? ==> MarkOf(r.marks, sym.id).offset >= MarkOf(e, sym.id).offset
  {
    if sym.Sequential? {
      SequentialErrorChoice(sym, 0, ts, offset, offset, StartNode(sym), e, parents);
    } else if sym.Repeated? {
      RepeatedErrorChoice(sym, 0, ts, offset, offset, StartNode(sym), e, parents);
    } else if sym.OneOf? {
      OneOfErrorChoice(sym, 0, ts, offset, e, parents);
    }
  }

  lemma {:induction false} SequentialErrorChoice<T>(sym: Symbol<T>, k: nat, ts: seq<T>, start: int, offset: int, node: Node<T>, e: Marks, parents: seq<Node<T>>)
    requires sym.Sequential? && k <= |sym.symbols| && 0 <= start <= offset <= |ts|
    ensures var r := SequentialFrom(sym, k, ts, start, offset, node, e, parents);
      Fails(r) && MarkOf(r.marks, sym.id).offset == start ==>
        exists n: Node<T> :: MarkOf(r.marks, sym.id) == Mark(start, sym.error(parents + [n]))
    ensures var r := SequentialFrom(sym, k, ts, start, offset, node, e, parents);
      OwnId(sym) && r.Done? ==> MarkOf(r.marks, sym.id).offset >= MarkOf(e, sym.id).offset
    decreases |sym.symbols| - k
  {
    if k < |sym.symbols| {
      var child := sym.symbols[k];
      var a := Match(child, ts, offset, e, parents + [node]);
      if OwnId(sym) {
        MatchKeepsOthers(child, ts, offset, e, parents + [node], sym.id);
      }
      if Succeeds(a) {
        SequentialErrorChoice(sym, k + 1, ts, start, a.offset, AddChild(node, a.node.value),
                              ProcessError(a.marks, sym.id, child.id), parents);
      } else if Fails(a) {
        var m := ProcessError(a.marks, sym.id, child.id);
        if start == MarkOf(m, sym.id).offset {
          assert MarkOf(CreateError(m, sym, start, parents + [node]), sym.id) == Mark(start, sym.error(parents + [node]));
        }
      }
    }
  }

  lemma {:induction false} RepeatedErrorChoice<T>(sym: Symbol<T>, count: nat, ts: seq<T>, start: int, offset: int, node: Node<T>, e: Marks, parents: seq<Node<T>>)
    requires sym.Repeated? && 0 <= start <= offset <= |ts|
    ensures var r := RepeatedFrom(sym, count, ts, start, offset, node, e, parents);
      Fails(r) && MarkOf(r.marks, sym.id).offset == start ==>
        exists n: Node<T> :: MarkOf(r.marks, sym.id) == Mark(start, sym.error(parents + [n]))
    ensures var r := RepeatedFrom(sym, count, ts, start, offset, node, e, parents);
      OwnId(sym) && r.Done? ==> MarkOf(r.marks, sym.id).offset >= MarkOf(e, sym.id).offset
    decreases RepeatBound(sym, count, ts, offset)
  {
    if !(sym.maxMatches.Some? && count >= sym.maxMatches.value) {
      var a := Match(sym.symbol, ts, offset, e, parents + [node]);
      if OwnId(sym) {
        MatchKeepsOthers(sym.symbol, ts, offset, e, parents + [node], sym.id);
      }
      if Succeeds(a) && !(sym.maxMatches.None? && a.offset == offset) {
        RepeatedErrorChoice(sym, count + 1, ts, start, a.offset, AddChild(node, a.node.value),
                            ProcessError(a.marks, sym.id, sym.symbol.id), parents);
      } else if Fails(a) && count < sym.minMatches {
        var m := ProcessError(a.marks, sym.id, sym.symbol.id);
        if start == MarkOf(m, sym.id).offset {
          assert MarkOf(CreateError(m, sym, start, parents + [node]), sym.id) == Mark(start, sym.error(parents + [node]));
        }
      }
    }
  }

  lemma {:induction false} OneOfErrorChoice<T>(sym: Symbol<T>, k: nat, ts: seq<T>, offset: int, e: Marks, parents: seq<Node<T>>)
    requires sym.OneOf? && k <= |sym.symbols| && 0 <= offset <= |ts|
    ensures var r := OneOfFrom(sym, k, ts, offset, e, parents);
      Fails(r) && MarkOf(r.marks, sym.id).offset == offset ==> MarkOf(r.marks, sym.id) == Mark(offset, sym.error(parents))
    ensures var r := OneOfFrom(sym, k, ts, offset, e, parents);
      OwnId(sym) && r.Done? ==> MarkOf(r.marks, sym.id).offset >= MarkOf(e, sym.id).offset
    decreases |sym.symbols| - k
  {
    if k < |sym.symbols| {
      var a := Match(sym.symbols[k], ts, offset, e, parents);
      if OwnId(sym) {
        MatchKeepsOthers(sym.symbols[k], ts, offset, e, parents, sym.id);
      }
      if Fails(a) {
        OneOfErrorChoice(sym, k + 1, ts, offset, ProcessError(a.marks, sym.id, sym.symbols[k].id), parents);
      }
    }
  }

  /** A Sequential whose k-th symbol fails: that symbol's error becomes
      the Sequential's when it lies further on than both the start and the
      error the Sequential held; when neither it nor the error held gets
      past the start, the Sequential reports its own error at the start. */
  lemma FailingChildError<T>(sym: Symbol<T>, k: nat, ts: seq<T>, start: int, offset: int, node: Node<T>, e: Marks, parents: seq<Node<T>>)
    requires sym.Sequential? && k < |sym.symbols| && 0 <= start <= offset <= |ts|
    ensures var child := sym.symbols[k]; var a := Match(child, ts, offset, e, parents + [node]);
      var r := SequentialFrom(sym, k, ts, start, offset, node, e, parents);
      Fails(a) ==>
        Fails(r)
        && (MarkOf(a.marks, child.id).offset > start && MarkOf(a.marks, child.id).offset > MarkOf(a.marks, sym.id).offset ==>
              MarkOf(r.marks, sym.id) == MarkOf(a.marks, child.id))
        && (MarkOf(a.marks, child.id).offset <= start && MarkOf(a.marks, sym.id).offset == start ==>
              MarkOf(r.marks, sym.id) == Mark(start, sym.error(parents + [node])))
  {
  }

  /** `parse` succeeds exactly when the symbol matches and uses every token,
      with the node of that match, and loops exactly when the match loops;
      the error fields left by earlier parses change only the message. */
  lemma {:induction false} ParseOutcome<T>(sym: Symbol<T>, ts: seq<T>, e: Marks)
    ensures var p := Parse(sym, ts, e); var a := Plain(sym, ts, 0);
      (p.ParseLoops? <==> a.Loops?)
      && (p.Parsed? ==> (p.result.Success? <==> Succeeds(a) && a.offset == |ts|))
      && (p.Parsed? && p.result.Success? ==> p.result.value == a.node.value)
  {
    MatchIgnoresErrors(sym, ts, 0, e, [], map[], []);
  }
}
