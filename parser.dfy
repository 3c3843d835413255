/**
 * The assembler's Parser (assembler/parser.py) as a class: its fields are
 * the parser's own, and each method walks the token rows, changes the
 * fields and returns what its Python counterpart returns, or the exception
 * it raises. Every method is proved to do what the function of the same
 * step in AsmParsing computes from the fields it started with.
 */
module AsmParser {
  import opened Wrappers
  import O = CStringObjects
  import P = AsmParsing
  import Bits

  class Parser {
    const tokens: seq<P.Row>
    var line: nat
    var index: nat
    var labels: map<O.Value, int>
    var constants: map<O.Value, O.Value>
    var instructions: seq<P.Instr>
    var usedLabels: seq<O.Value>
    var usedConstants: seq<O.Value>

    /** The fields as a value. */
    function State(): P.State
      reads this
    {
      P.State(line, index, labels, constants, instructions, usedLabels, usedConstants)
    }

    /** The parser stands on a line of its tokens. */
    predicate Valid()
      reads this
    {
      P.Fits(tokens, State())
    }

    /** The method returned what the step returns, or raised what it raises,
        and on return the fields are the step's new state. */
    predicate Reached<T(==)>(r: Result<T>, step: Result<P.Parsed<T>>)
      reads this
    {
      && (r.Success? <==> step.Success?)
      && (r.Success? ==> r.value == step.value.result && State() == step.value.state)
      && (r.Failure? ==> r.error == step.error)
    }

    /** The same for a step that has no result but its new state. */
    predicate Arrived(r: Outcome, step: Result<P.State>)
      reads this
    {
      && (r.Pass? <==> step.Success?)
      && (r.Pass? ==> State() == step.value)
      && (r.Fail? ==> r.error == step.error)
    }

    /** The field set-up of `__init__`: line and index 0, empty tables and
        two nops. */
    constructor(tokens: seq<P.Row>)
      ensures this.tokens == tokens && State() == P.Initial()
    {
      this.tokens := tokens;
      line, index := 0, 0;
      labels, constants := map[], map[];
      instructions := [P.Nop, P.Nop];
      usedLabels, usedConstants := [], [];
    }

    /** `addinstr`: append one instruction and return True. */
    method AddInstruction(instr: P.Instr) returns (added: bool)
      modifies this
      ensures added && State() == old(State()).(instructions := old(instructions) + [instr])
    {
      instructions := instructions + [instr];
      added := true;
    }

    /** `parse_primary`. */
    method ParsePrimary() returns (r: Result<O.Value>)
      requires Valid()
      modifies this
      ensures Reached(r, P.Primary(tokens, old(State())))
      decreases |tokens[line]| - index, 0
    {
      var v := P.ValueAt(tokens, State(), 0);
      if P.TypeAt(tokens, State(), 0) == Some(P.IdentifierToken) {
        if v.value in constants {
          var c := constants[v.value];
          index := index + 1;
          usedConstants := usedConstants + [v.value];
          return Success(c);
        }
        return Failure(Compiler("Name", P.InvalidName, []));
      }
      if P.TypeAt(tokens, State(), 0) == Some(P.IntegerToken) {
        if v.value.StrValue? {
          return Failure(Python("TypeError"));
        }
        if !(-32768 <= v.value.i < 65536) {
          return Failure(Compiler("Value", P.LiteralRange, []));
        }
        index := index + 1;
        return Success(v.value);
      }
      if v == Some(O.StrValue("(")) {
        index := index + 1;
        var e := ParseOr();
        if e.Failure? {
          return e;
        }
        if P.Is(tokens, State(), 0, ")") {
          index := index + 1;
          return e;
        }
        if P.ValueAt(tokens, State(), 0).None? {
          return Failure(Compiler("Syntax", P.UnmatchedBracket, []));
        }
        return Failure(Compiler("Syntax", P.ExpectedClosing, []));
      }
      if v.None? {
        return Failure(Compiler("Syntax", P.MissingValue, []));
      }
      return Failure(Compiler("Syntax", P.UnexpectedValue, []));
    }

    /** `parse_unary_expression`: count the signs, then negate and invert
        the primary. */
    method ParseUnary() returns (r: Result<O.Value>)
      requires Valid()
      modifies this
      ensures Reached(r, P.Unary(tokens, old(State()), false, false))
      decreases |tokens[line]| - index, 1
    {
      ghost var s := State();
      var minus, invert := false, false;
      while P.Is(tokens, State(), 0, "-") || P.Is(tokens, State(), 0, "!")
        invariant Valid() && State() == s.(index := index) && s.index <= index
        invariant P.Unary(tokens, State(), minus, invert) == P.Unary(tokens, s, false, false)
        decreases |tokens[line]| - index
      {
        if P.Is(tokens, State(), 0, "-") {
          minus := !minus;
        } else {
          invert := !invert;
        }
        index := index + 1;
      }
      var p := ParsePrimary();
      if p.Failure? {
        return p;
      }
      var value := p.value;
      if minus {
        var m := O.NegateValue(value);
        if m.Failure? {
          return m;
        }
        value := m.value;
      }
      if invert {
        var n := O.InvertValue(value);
        if n.Failure? {
          return n;
        }
        value := n.value;
      }
      return Success(value);
    }

    /** `parse_arithmetic_expression`. */
    method ParseArithmetic() returns (r: Result<O.Value>)
      requires Valid()
      modifies this
      ensures Reached(r, P.Arithmetic(tokens, old(State())))
      decreases |tokens[line]| - index, 3
    {
      ghost var s := State();
      ghost var goal := P.Arithmetic(tokens, s);
      var u := ParseUnary();
      if u.Failure? {
        return u;
      }
      var value := u.value;
      var op := P.AddingOp(tokens, State());
      while op.Some?
        invariant Valid() && line == s.line && s.index <= index
        invariant op == P.AddingOp(tokens, State())
        invariant P.ArithmeticLoop(tokens, value, State()) == goal
        decreases |tokens[line]| - index
      {
        index := index + 1;
        var w := ParseUnary();
        if w.Failure? {
          return w;
        }
        var x := O.Apply(op.value, value, w.value);
        if x.Failure? {
          return x;
        }
        value := x.value;
        op := P.AddingOp(tokens, State());
      }
      return Success(value);
    }

    /** `parse_and_expression`. */
    method ParseAnd() returns (r: Result<O.Value>)
      requires Valid()
      modifies this
      ensures Reached(r, P.And(tokens, old(State())))
      decreases |tokens[line]| - index, 5
    {
      ghost var s := State();
      ghost var goal := P.And(tokens, s);
      var a := ParseArithmetic();
      if a.Failure? {
        return a;
      }
      var value := a.value;
      while P.Is(tokens, State(), 0, "&")
        invariant Valid() && line == s.line && s.index <= index
        invariant P.AndLoop(tokens, value, State()) == goal
        decreases |tokens[line]| - index
      {
        index := index + 1;
        var b := ParseArithmetic();
        if b.Failure? {
          return b;
        }
        var x := O.Apply(O.And, value, b.value);
        if x.Failure? {
          return x;
        }
        value := x.value;
      }
      return Success(value);
    }

    /** `parse_or_expression`. */
    method ParseOr() returns (r: Result<O.Value>)
      requires Valid()
      modifies this
      ensures Reached(r, P.Or(tokens, old(State())))
      decreases |tokens[line]| - index, 7
    {
      ghost var s := State();
      ghost var goal := P.Or(tokens, s);
      var a := ParseAnd();
      if a.Failure? {
        return a;
      }
      var value := a.value;
      while P.Is(tokens, State(), 0, "|")
        invariant Valid() && line == s.line && s.index <= index
        invariant P.OrLoop(tokens, value, State()) == goal
        decreases |tokens[line]| - index
      {
        index := index + 1;
        var b := ParseAnd();
        if b.Failure? {
          return b;
        }
        var x := O.Apply(O.Or, value, b.value);
        if x.Failure? {
          return x;
        }
        value := x.value;
      }
      return Success(value);
    }

    /** `parse_constant_expression`: a label argument, or an or-expression. */
    method ParseConstantExpression() returns (r: Result<P.Token>)
      requires Valid()
      modifies this
      ensures Reached(r, P.ConstantExpression(tokens, old(State())))
    {
      if P.TypeAt(tokens, State(), 0) == Some(P.IdentifierToken) && P.ValueAt(tokens, State(), 0).value !in constants {
        var name := P.ValueAt(tokens, State(), 0).value;
        usedLabels := usedLabels + [name];
        index := index + 1;
        return Success(P.Token(P.IdentifierToken, name));
      }
      var e := ParseOr();
      if e.Failure? {
        return Failure(e.error);
      }
      return Success(P.Token(P.IntegerToken, e.value));
    }

    /** `parse_label`. */
    method ParseLabel() returns (r: Result<bool>)
      requires Valid()
      modifies this
      ensures Reached(r, P.Label(tokens, old(State())))
    {
      if P.TypeAt(tokens, State(), 0) == Some(P.IdentifierToken) && P.Is(tokens, State(), 1, ":") {
        var name := P.ValueAt(tokens, State(), 0).value;
        if name in labels || name in constants {
          return Failure(Compiler("Name", P.MultipleDefinitions, []));
        }
        labels := labels[name := |instructions|];
        index := index + 2;
        return Success(true);
      }
      return Success(false);
    }

    /** `parse_definition`. */
    method ParseDefinition() returns (r: Result<bool>)
      requires Valid()
      modifies this
      ensures Reached(r, P.Definition(tokens, old(State())))
    {
      if !(P.TypeAt(tokens, State(), 0) == Some(P.KeywordToken) && P.Is(tokens, State(), 0, "define")) {
        return Success(false);
      }
      if P.TypeAt(tokens, State(), 1) != Some(P.IdentifierToken) {
        return Failure(Compiler("Argument", P.ExpectedIdentifier, []));
      }
      var name := P.ValueAt(tokens, State(), 1).value;
      if name in labels || name in constants {
        return Failure(Compiler("Name", P.MultipleDefinitions, []));
      }
      index := index + 2;
      var e := ParseConstantExpression();
      e := P.Reformat(e, "define");
      if e.Failure? {
        return Failure(e.error);
      }
      constants := constants[name := e.value.value];
      return Success(true);
    }

    /** `write_load(instr, tokentype, value, index)`, as intended: the
        complemented load is an 'ldb'. */
    method WriteLoad(instr: O.Value, arg: P.Token, at: Option<int>) returns (r: Result<nat>)
      modifies this
      ensures Reached(r, P.Load(old(State()), instr, arg, at))
    {
      var i := if at.None? then |instructions| else at.value;
      if arg.kind == P.IdentifierToken {
        instructions := P.Insert(instructions, i, [instr, arg.value]);
        return Success(1);
      }
      if arg.kind == P.IntegerToken {
        var b := P.SelectedByte(instr, arg.value);
        if b.Failure? {
          return Failure(b.error);
        }
        if 0 <= b.value <= 127 {
          instructions := P.Insert(instructions, i, [O.StrValue("ldb"), O.IntValue(b.value)]);
          return Success(1);
        }
        instructions := P.Insert(instructions, i, P.NotLL);
        instructions := P.Insert(instructions, i, [O.StrValue("ldb"), O.IntValue(Bits.BitAnd(Bits.BitNot(b.value), 255))]);
        return Success(2);
      }
      return Failure(Python("BaseException"));
    }

    /** `write_lda`. */
    method WriteLda() returns (r: Outcome)
      requires Valid()
      modifies this
      ensures Arrived(r, P.Lda(tokens, old(State())))
    {
      ghost var s := State();
      var e := ParseConstantExpression();
      e := P.Reformat(e, "lda");
      if e.Failure? {
        return Fail(e.error);
      }
      var u := WriteLoad(O.StrValue("ldu"), e.value, None);
      if u.Failure? {
        return Fail(u.error);
      }
      var _ := AddInstruction(P.MovLH);
      var b := WriteLoad(O.StrValue("ldb"), e.value, None);
      if b.Failure? {
        return Fail(b.error);
      }
      return Pass;
    }

    /** The loop of `parse_instruction` over the operand types: each token
        after the mnemonic must have the type the format gives it; it changes
        nothing. */
    method ReadOperands(arguments: seq<P.TokenType>) returns (r: Result<seq<O.Value>>)
      requires Valid() && index < |tokens[line]|
      ensures r.Success? <==> P.OperandsFit(tokens, State(), arguments)
      ensures r.Success? ==> index + |arguments| < |tokens[line]| && r.value == P.Operands(tokens, State(), |arguments|)
      ensures r.Failure? ==> r.error == Compiler("Argument", P.ExpectedArgument, [])
    {
      var operands := [];
      for i := 0 to |arguments|
        invariant index + i < |tokens[line]|
        invariant forall j :: 0 <= j < i ==> P.TypeAt(tokens, State(), j + 1) == Some(arguments[j])
        invariant operands == P.Operands(tokens, State(), i)
      {
        if P.TypeAt(tokens, State(), i + 1) != Some(arguments[i]) {
          return Failure(Compiler("Argument", P.ExpectedArgument, []));
        }
        operands := operands + [P.ValueAt(tokens, State(), i + 1).value];
      }
      return Success(operands);
    }

    /** `parse_instruction`. */
    method ParseInstruction() returns (r: Result<bool>)
      requires Valid()
      modifies this
      ensures Reached(r, P.Instruction(tokens, old(State())))
    {
      if P.TypeAt(tokens, State(), 0) != Some(P.KeywordToken) {
        return Success(false);
      }
      var v := P.ValueAt(tokens, State(), 0).value;
      var format := P.FormatOf(v);
      if format.Some? {
        var arguments := format.value;
        var operands := ReadOperands(arguments);
        if operands.Failure? {
          return Failure(operands.error);
        }
        index := index + |arguments| + 1;
        var added := AddInstruction([v] + operands.value);
        return Success(added);
      }
      r := ParsePseudo(v);
    }

    /** The part of `parse_instruction` after the table: 'ldb' and 'ldu'
        read a constant expression and write the load, 'lda' writes the
        three instructions; any other keyword gives False. */
    method ParsePseudo(v: O.Value) returns (r: Result<bool>)
      requires Valid() && index < |tokens[line]|
      modifies this
      ensures Reached(r, P.Pseudo(tokens, old(State()), v))
    {
      if v == O.StrValue("ldb") || v == O.StrValue("ldu") {
        index := index + 1;
        var e := ParseConstantExpression();
        e := P.Reformat(e, v.s);
        if e.Failure? {
          return Failure(e.error);
        }
        var w := WriteLoad(v, e.value, None);
        if w.Failure? {
          return Failure(w.error);
        }
        return Success(true);
      }
      if v == O.StrValue("lda") {
        index := index + 1;
        var t := WriteLda();
        if t.Fail? {
          return Failure(t.error);
        }
        return Success(true);
      }
      return Success(false);
    }

    /** The body of `parse_program`'s loop: a definition, or else an
        optional label and an optional instruction. */
    method ParseStatement() returns (r: Outcome)
      requires Valid()
      modifies this
      ensures Arrived(r, P.Statement(tokens, old(State())))
    {
      var d := ParseDefinition();
      if d.Failure? {
        return Fail(d.error);
      }
      if !d.value {
        var l := ParseLabel();
        if l.Failure? {
          return Fail(l.error);
        }
        var i := ParseInstruction();
        if i.Failure? {
          return Fail(i.error);
        }
      }
      return Pass;
    }

    /** `parse_program`: statement by statement, each filling its line. */
    method ParseProgram() returns (r: Outcome)
      requires Valid()
      modifies this
      ensures Arrived(r, P.Program(tokens, old(State())))
    {
      ghost var goal := P.Program(tokens, State());
      while true
        invariant Valid() && P.Program(tokens, State()) == goal
        decreases |tokens| - line
      {
        var t := ParseStatement();
        if t.Fail? {
          return t;
        }
        if index >= |tokens[line]| {
          line := line + 1;
          index := 0;
          if line == |tokens| {
            return Pass;
          }
        } else {
          return Fail(Compiler("Syntax", P.UnexpectedToken, []));
        }
      }
    }

    /** The check of `__init__` that every label used as an argument is
        defined; it changes nothing. */
    method CheckLabels() returns (r: Outcome)
      ensures r.Pass? <==> P.AllDefined(State())
      ensures r.Fail? ==> r.error == Compiler("Name", P.Undefined, [])
    {
      for k := 0 to |usedLabels|
        invariant forall j :: 0 <= j < k ==> usedLabels[j] in labels
      {
        if usedLabels[k] !in labels {
          return Fail(Compiler("Name", P.Undefined, []));
        }
      }
      return Pass;
    }
  }

  /** `Parser(tokens, warnings)`: set up the fields, parse the program,
      check the used labels and append a hlt; what the parser then holds.
      With no rows the first look at a token raises IndexError. */
  method Parse(tokens: seq<P.Row>) returns (r: Result<P.Output>)
    ensures r == P.Parse(tokens)
  {
    if |tokens| == 0 {
      return Failure(Python("IndexError"));
    }
    var p := new Parser(tokens);
    var o := p.ParseProgram();
    if o.Fail? {
      return Failure(o.error);
    }
    var c := p.CheckLabels();
    if c.Fail? {
      return Failure(c.error);
    }
    var _ := p.AddInstruction(P.Hlt);
    return Success(P.Output(p.instructions, p.labels, p.constants));
  }
}
