/** What the calculator's first evaluator computes on whole trees. Its reduction pops two
    operands and then an operator, so it computes a left-nested chain `((a op b) op c) …`
    from left to right, as a tree-walking reference evaluator (`Denote`) does, and an
    assignment of such a chain binds the name to the chain's value. A right operand that is
    itself an operation, as in `1 + 2 * 3`, puts an operand where the reduction expects the
    operator, and the evaluation ends with an empty-stack exception. `PostfixValue` is the
    evaluation of the same postfix tokens with an operand stack, which agrees with the
    reference evaluator on every tree. */
module SimpleAstEvaluationFacts {
  import opened Wrappers
  import opened Tokens
  import opened Int32
  import opened XssAst
  import opened Stacks
  import DotNetConvert
  import opened XssValues
  import opened SimpleAstInterpreter

  // ---- Single steps ----

  /** `Push(value)` and then `EvaluateOperand` of the pushed token gives the value back and
      leaves the variables alone (the decimal text parses back to the int). */
  lemma PushThenRead(vars: Variables, v: int32)
    ensures OperandValue(vars, IntToken(v)) == Success((v, vars))
  {
    DotNetConvert.ParseInt32ToString(v);
  }

  /** A name or literal read once reads the same again after its value has been assigned to
      any name: a literal parses alike, and a name now holds what was read. */
  lemma ReadAgain(vars: Variables, t: Token, v: int32, vs: Variables, name: string)
    requires OperandValue(vars, t) == Success((v, vs))
    ensures OperandValue(vs[name := v], t) == Success((v, vs[name := v]))
  {
    if t.kind == IDENT {
      assert t.lexeme.value in vs && vs[t.lexeme.value] == v;
    }
  }

  /** The operators whose pass begins by evaluating `operand1`. */
  predicate Evaluating(k: TokenKind)
  {
    IsArithmetic(k) || k == EXPONENT || k == ASSIGN
  }

  /** For those operators, `operand1` may be replaced by the token of its value: the pass does
      the same. An `operand1` whose evaluation raises makes the pass raise that, changing
      nothing. */
  lemma ApplyFromValue(vars: Variables, t: Token, o2: Token, op: Token)
    requires Evaluating(op.kind)
    ensures OperandValue(vars, t).Success? ==>
              var p := OperandValue(vars, t).value;
              Apply(vars, t, o2, op) == Apply(p.1, IntToken(p.0), o2, op)
    ensures OperandValue(vars, t).Failure? ==> Apply(vars, t, o2, op) == Step(vars, Failure(OperandValue(vars, t).error))
  {
    if OperandValue(vars, t).Success? {
      var p := OperandValue(vars, t).value;
      PushThenRead(p.1, p.0);
      if op.kind == ASSIGN && o2.lexeme.Some? {
        ReadAgain(vars, t, p.0, p.1, o2.lexeme.value);
        PushThenRead(p.1[o2.lexeme.value := p.0], p.0);
      }
    }
  }

  /** An ASSIGN pass binds `operand2`'s name to the value of `operand1` and pushes that same
      value; no other name changes, except that reading `operand1` may bind it to 0. */
  lemma AssignPushesAssignedValue(vars: Variables, o1: Token, o2: Token, op: Token)
    requires op.kind == ASSIGN && o2.lexeme.Some? && OperandValue(vars, o1).Success?
    ensures var p := OperandValue(vars, o1).value;
            Apply(vars, o1, o2, op) == Step(p.1[o2.lexeme.value := p.0], Success(Some(p.0)))
  {
    var p := OperandValue(vars, o1).value;
    ReadAgain(vars, o1, p.0, p.1, o2.lexeme.value);
  }

  // ---- The reference evaluator ----

  /** A value or an exception, and the variables left. */
  datatype Valued = Valued(result: Result<int32, RuntimeError>, vars: Variables)

  /** A leaf the reduction reads as an operand. */
  predicate Leaf(n: Node)
  {
    n.Operand? && n.token.kind in {INTERGER, IDENT}
  }

  /** Trees of integers and names under the four arithmetic operators. */
  predicate Arithmetic(n: Node)
  {
    Leaf(n) || (n.BinaryOperation? && IsArithmetic(n.op.kind) && Arithmetic(n.left) && Arithmetic(n.right))
  }

  /** Left-nested chains `((a op b) op c) …`: every right operand is a leaf. */
  predicate LeftChain(n: Node)
    ensures LeftChain(n) ==> Arithmetic(n)
  {
    Leaf(n) || (n.BinaryOperation? && IsArithmetic(n.op.kind) && LeftChain(n.left) && Leaf(n.right))
  }

  /** The value of an arithmetic tree, walking it: the left operand, then the right one, then
      the operator, with the calculator's operand reading and int arithmetic. */
  function Denote(vars: Variables, n: Node): (d: Valued)
    requires Arithmetic(n)
    ensures d.result.Success? ==> vars.Keys <= d.vars.Keys
    decreases n
  {
    if !n.BinaryOperation? then
      match OperandValue(vars, n.token)
      case Success((v, vs)) => Valued(Success(v), vs)
      case Failure(e) => Valued(Failure(e), vars)
    else
      var l := Denote(vars, n.left);
      if l.result.Failure? then l
      else
        var r := Denote(l.vars, n.right);
        if r.result.Failure? then r
        else
          match Arith(n.op.kind, l.result.value, r.result.value)
          case Success(c) => Valued(Success(c), r.vars)
          case Failure(e) => Valued(Failure(e), r.vars)
  }

  // ---- The reduction of left chains ----

  /** What lying on top of `below` gives: the run is the reduction with the value pushed
      instead, or it raises the value's exception with the variables the value leaves. */
  predicate Settles(run: Run, d: Valued, below: seq<Token>)
  {
    (d.result.Success? ==> run == Reduce(d.vars, below + [IntToken(d.result.value)]))
    && (d.result.Failure? ==> run.result == d.result && run.vars == d.vars)
  }

  /** The stacks a chain can lie on: empty, or with an operator that evaluates its first
      operand under one more token. */
  predicate Below(below: seq<Token>)
  {
    below == [] || (|below| >= 2 && Evaluating(below[|below| - 2].kind))
  }

  /** A leaf on top of `below`. */
  lemma LeafSettles(vars: Variables, below: seq<Token>, n: Node)
    requires Leaf(n) && Below(below)
    ensures Settles(Reduce(vars, below + [n.token]), Denote(vars, n), below)
  {
    if below == [] {
      var t := n.token;
      if OperandValue(vars, t).Success? {
        var p := OperandValue(vars, t).value;
        PushThenRead(p.1, p.0);
      }
    } else {
      var rest, op, o2 := below[..|below| - 2], below[|below| - 2], below[|below| - 1];
      assert below == rest + [op, o2];
      LeafSettlesUnder(vars, rest, op, o2, n);
    }
  }

  /** A leaf on top of an operator that evaluates its first operand and one more token. */
  lemma LeafSettlesUnder(vars: Variables, rest: seq<Token>, op: Token, o2: Token, n: Node)
    requires Leaf(n) && Evaluating(op.kind)
    ensures Settles(Reduce(vars, rest + [op, o2] + [n.token]), Denote(vars, n), rest + [op, o2])
  {
    var t := n.token;
    assert rest + [op, o2] + [t] == rest + [op, o2, t];
    ReduceOnTop(vars, rest, op, o2, t);
    ApplyFromValue(vars, t, o2, op);
    if OperandValue(vars, t).Success? {
      var p := OperandValue(vars, t).value;
      assert rest + [op, o2] + [IntToken(p.0)] == rest + [op, o2, IntToken(p.0)];
      ReduceOnTop(p.1, rest, op, o2, IntToken(p.0));
    }
  }

  /** The last operation of a chain, once its left part has been reduced to its value. */
  lemma LastOperationSettles(vars: Variables, below: seq<Token>, n: Node)
    requires LeftChain(n) && n.BinaryOperation? && Denote(vars, n.left).result.Success?
    ensures var dl := Denote(vars, n.left);
            Settles(Reduce(dl.vars, below + [n.op, n.right.token, IntToken(dl.result.value)]), Denote(vars, n), below)
  {
    var dl := Denote(vars, n.left);
    ReduceOnTop(dl.vars, below, n.op, n.right.token, IntToken(dl.result.value));
    PassDenotes(vars, n);
  }

  /** The pass of the last operation of a chain, on its left part's value, computes the
      chain's value. */
  lemma PassDenotes(vars: Variables, n: Node)
    requires LeftChain(n) && n.BinaryOperation? && Denote(vars, n.left).result.Success?
    ensures var dl, d := Denote(vars, n.left), Denote(vars, n);
            var st := Apply(dl.vars, IntToken(dl.result.value), n.right.token, n.op);
            st.vars == d.vars
            && st.outcome == (if d.result.Success? then Success(Some(d.result.value)) else Failure(d.result.error))
  {
    var dl := Denote(vars, n.left);
    var k, t := n.op.kind, n.right.token;
    PushThenRead(dl.vars, dl.result.value);
    assert Apply(dl.vars, IntToken(dl.result.value), t, n.op) == OperatorPass(dl.vars, IntToken(dl.result.value), t, k);
    if OperandValue(dl.vars, t).Success? {
      var b := OperandValue(dl.vars, t).value;
      assert Denote(dl.vars, n.right) == Valued(Success(b.0), b.1);
    } else {
      assert Denote(dl.vars, n.right) == Valued(Failure(OperandValue(dl.vars, t).error), dl.vars);
    }
  }

  /** The reduction of a left chain lying on top of `below` comes to the chain's value pushed
      on `below`, or raises what the chain's value raises, with the same variables. */
  lemma {:induction false} ChainReduces(vars: Variables, below: seq<Token>, n: Node)
    requires LeftChain(n) && Below(below)
    ensures Settles(Reduce(vars, below + Reverse(Postfix(n))), Denote(vars, n), below)
    decreases n
  {
    if n.Operand? {
      assert Reverse(Postfix(n)) == [n.token];
      LeafSettles(vars, below, n);
    } else {
      ChainReduces(vars, below + [n.op, n.right.token], n.left);
      OperationSettles(vars, below, n);
    }
  }

  /** The step of `ChainReduces`: once the left part of `l op t` settles on `op` and `t`, the
      whole chain settles. */
  lemma OperationSettles(vars: Variables, below: seq<Token>, n: Node)
    requires LeftChain(n) && n.BinaryOperation? && Below(below)
    requires Settles(Reduce(vars, (below + [n.op, n.right.token]) + Reverse(Postfix(n.left))), Denote(vars, n.left), below + [n.op, n.right.token])
    ensures Settles(Reduce(vars, below + Reverse(Postfix(n))), Denote(vars, n), below)
  {
    var below' := below + [n.op, n.right.token];
    ChainTokens(below, n);
    var dl := Denote(vars, n.left);
    if dl.result.Success? {
      assert below' + [IntToken(dl.result.value)] == below + [n.op, n.right.token, IntToken(dl.result.value)];
      LastOperationSettles(vars, below, n);
    }
  }

  /** The postfix tokens of `l op t`, reversed on top of `below`, are those of `l` on top of
      `op` and `t`. */
  lemma ChainTokens(below: seq<Token>, n: Node)
    requires n.BinaryOperation? && n.right.Operand?
    ensures below + Reverse(Postfix(n)) == (below + [n.op, n.right.token]) + Reverse(Postfix(n.left))
  {
    var l, op, t := n.left, n.op, n.right.token;
    assert Postfix(n) == Postfix(l) + [t, op];
    ReverseAppend(Postfix(l), [t, op]);
    assert Reverse([t, op]) == [op, t];
  }

  /** A left chain evaluates to its value: the reduction reads it left to right. */
  lemma ChainEvaluates(vars: Variables, n: Node)
    requires LeftChain(n)
    ensures Evaluation(vars, Postfix(n)).result == Denote(vars, n).result
    ensures Evaluation(vars, Postfix(n)).vars == Denote(vars, n).vars
  {
    ChainReduces(vars, [], n);
    assert [] + Reverse(Postfix(n)) == Reverse(Postfix(n));
    var d := Denote(vars, n);
    if d.result.Success? {
      assert [] + [IntToken(d.result.value)] == [IntToken(d.result.value)];
      PushThenRead(d.vars, d.result.value);
    }
  }

  /** `x = chain` evaluates to the chain's value and binds `x` to it. */
  lemma AssignmentEvaluates(vars: Variables, x: Token, e: Node)
    requires LeftChain(e) && x.lexeme.Some?
    ensures var d := Denote(vars, e);
            var run := Evaluation(vars, Postfix(Assignment(x, e)));
            run.result == d.result
            && (d.result.Success? ==> run.vars == d.vars[x.lexeme.value := d.result.value])
            && (d.result.Failure? ==> run.vars == d.vars)
  {
    AssignmentTokens(x, e);
    ChainReduces(vars, [AssignToken, x], e);
    var d := Denote(vars, e);
    if d.result.Success? {
      AssignsPushedValue(d.vars, x, d.result.value);
    }
  }

  /** A value pushed over a name and ASSIGN is assigned to the name and is the result. */
  lemma AssignsPushedValue(vs: Variables, x: Token, v: int32)
    requires x.lexeme.Some?
    ensures Reduce(vs, [AssignToken, x] + [IntToken(v)]) == Run(Success(v), vs[x.lexeme.value := v], [])
  {
    assert [AssignToken, x] + [IntToken(v)] == [] + [AssignToken, x, IntToken(v)];
    ReduceOnTop(vs, [], AssignToken, x, IntToken(v));
    PushThenRead(vs, v);
    AssignPushesAssignedValue(vs, IntToken(v), x, AssignToken);
    assert [] + [IntToken(v)] == [IntToken(v)];
    PushThenRead(vs[x.lexeme.value := v], v);
  }

  /** The reversed postfix tokens of `x = e`: those of `e` on top of ASSIGN and `x`. */
  lemma AssignmentTokens(x: Token, e: Node)
    ensures Reverse(Postfix(Assignment(x, e))) == [AssignToken, x] + Reverse(Postfix(e))
  {
    assert Postfix(Assignment(x, e)) == Postfix(e) + [x, AssignToken];
    ReverseAppend(Postfix(e), [x, AssignToken]);
    assert Reverse([x, AssignToken]) == [AssignToken, x];
  }

  // ---- Right-nested operands ----

  /** `a op1 (b op2 c)`, as the parser builds `1 + 2 * 3`, raises an empty-stack exception:
      the first pass pops `a`, `b` and takes `c` for the operator, which pushes nothing, and
      the second pass finds only the two operators. */
  lemma RightNestingFails(vars: Variables, a: Token, op1: Token, b: Token, op2: Token, c: Token)
    requires IsArithmetic(op1.kind) && IsArithmetic(op2.kind) && c.kind in {INTERGER, IDENT}
    ensures Evaluation(vars, Postfix(BinaryOperation(Operand(a), op1, BinaryOperation(Operand(b), op2, Operand(c)))))
            == Run(Failure(EmptyStack), vars, [])
  {
    RightNestedTokens(a, op1, b, op2, c);
    OperandAsOperator(vars, [op1, op2], a, b, c);
    assert Reduce(vars, [op1, op2]) == Run(Failure(EmptyStack), vars, []);
  }

  /** A pass whose operator is an integer or a name pushes nothing and changes nothing. */
  lemma OperandAsOperator(vars: Variables, rest: seq<Token>, a: Token, b: Token, c: Token)
    requires c.kind in {INTERGER, IDENT}
    ensures Reduce(vars, rest + [c, b, a]) == Reduce(vars, rest)
  {
    ReduceOnTop(vars, rest, c, b, a);
    assert Apply(vars, a, b, c) == Step(vars, Success(None));
  }

  lemma RightNestedTokens(a: Token, op1: Token, b: Token, op2: Token, c: Token)
    ensures Reverse(Postfix(BinaryOperation(Operand(a), op1, BinaryOperation(Operand(b), op2, Operand(c)))))
            == [op1, op2] + [c, b, a]
  {
    assert Postfix(BinaryOperation(Operand(b), op2, Operand(c))) == [b, c, op2];
    assert Postfix(BinaryOperation(Operand(a), op1, BinaryOperation(Operand(b), op2, Operand(c)))) == [a, b, c, op2, op1];
    assert [op1, op2] + [c, b, a] == [op1, op2, c, b, a];
  }

  /** The value `1 + 2 * 3` is meant to have. */
  lemma OnePlusTwoTimesThree(vars: Variables, plus: Token, star: Token)
    requires plus.kind == PLUS && star.kind == MULTIPLY
    ensures var n := BinaryOperation(Operand(IntToken(1)), plus, BinaryOperation(Operand(IntToken(2)), star, Operand(IntToken(3))));
            Arithmetic(n) && Denote(vars, n).result == Success(7)
    ensures Evaluation(vars, Postfix(BinaryOperation(Operand(IntToken(1)), plus, BinaryOperation(Operand(IntToken(2)), star, Operand(IntToken(3))))))
            .result == Failure(EmptyStack)
  {
    PushThenRead(vars, 1);
    PushThenRead(vars, 2);
    PushThenRead(vars, 3);
    var one, two, three := Operand(IntToken(1)), Operand(IntToken(2)), Operand(IntToken(3));
    assert Leaf(one) && Leaf(two) && Leaf(three);
    assert Denote(vars, one) == Valued(Success(1), vars);
    assert Denote(vars, two) == Valued(Success(2), vars);
    assert Denote(vars, three) == Valued(Success(3), vars);
    assert Denote(vars, BinaryOperation(two, star, three)) == Valued(Success(6), vars);
    RightNestingFails(vars, IntToken(1), plus, IntToken(2), star, IntToken(3));
  }

  // ---- Evaluating postfix with an operand stack ----

  /** The postfix tokens read from the first one on: an operand's value goes on a stack of
      ints, and an operator replaces the top two with its result (the lower one is its left
      operand). What is left at the end must be one value. */
  function PostfixValue(vars: Variables, toks: seq<Token>, operands: seq<int32>): Valued
    decreases |toks|
  {
    if toks == [] then
      if |operands| == 1 then Valued(Success(operands[0]), vars) else Valued(Failure(EmptyStack), vars)
    else if IsArithmetic(toks[0].kind) then
      if |operands| < 2 then Valued(Failure(EmptyStack), vars)
      else
        match Arith(toks[0].kind, operands[|operands| - 2], operands[|operands| - 1])
        case Failure(e) => Valued(Failure(e), vars)
        case Success(c) => PostfixValue(vars, toks[1..], operands[..|operands| - 2] + [c])
    else
      match OperandValue(vars, toks[0])
      case Failure(e) => Valued(Failure(e), vars)
      case Success((v, vs)) => PostfixValue(vs, toks[1..], operands + [v])
  }

  /** Reading a tree's postfix tokens pushes its value on the operand stack, or raises what
      its value raises. */
  lemma {:induction false} PostfixOfTree(vars: Variables, n: Node, rest: seq<Token>, operands: seq<int32>)
    requires Arithmetic(n)
    ensures var d := Denote(vars, n);
            (d.result.Success? ==> PostfixValue(vars, Postfix(n) + rest, operands) == PostfixValue(d.vars, rest, operands + [d.result.value]))
            && (d.result.Failure? ==> PostfixValue(vars, Postfix(n) + rest, operands) == d)
    decreases n
  {
    if n.Operand? {
      assert (Postfix(n) + rest)[1..] == rest;
    } else {
      var l, op, r := n.left, n.op, n.right;
      var afterLeft := Postfix(r) + ([op] + rest);
      assert Postfix(n) + rest == Postfix(l) + afterLeft;
      PostfixOfTree(vars, l, afterLeft, operands);
      var dl := Denote(vars, l);
      if dl.result.Success? {
        PostfixOfTree(dl.vars, r, [op] + rest, operands + [dl.result.value]);
        var dr := Denote(dl.vars, r);
        if dr.result.Success? {
          OperatorStep(dr.vars, op, rest, operands, dl.result.value, dr.result.value);
        }
      }
    }
  }

  /** An operator token replaces the top two operands with its result. */
  lemma OperatorStep(vars: Variables, op: Token, rest: seq<Token>, operands: seq<int32>, a: int32, b: int32)
    requires IsArithmetic(op.kind)
    ensures var c := Arith(op.kind, a, b);
            PostfixValue(vars, [op] + rest, operands + [a] + [b])
            == if c.Failure? then Valued(Failure(c.error), vars) else PostfixValue(vars, rest, operands + [c.value])
  {
    var st := operands + [a] + [b];
    assert st[..|st| - 2] == operands && st[|st| - 2] == a && st[|st| - 1] == b;
    assert ([op] + rest)[0] == op && ([op] + rest)[1..] == rest;
  }

  /** The operand-stack evaluation of the postfix tokens is the tree's value, for every
      arithmetic tree, right-nested ones included. */
  lemma PostfixEvaluationIsDenotation(vars: Variables, n: Node)
    requires Arithmetic(n)
    ensures PostfixValue(vars, Postfix(n), []) == Denote(vars, n)
  {
    PostfixOfTree(vars, n, [], []);
    assert Postfix(n) + [] == Postfix(n);
  }

  /** On left chains the operand-stack evaluation and the calculator's reduction agree. */
  lemma CorrectedAgreesOnChains(vars: Variables, n: Node)
    requires LeftChain(n)
    ensures PostfixValue(vars, Postfix(n), []).result == Evaluation(vars, Postfix(n)).result
  {
    PostfixEvaluationIsDenotation(vars, n);
    ChainEvaluates(vars, n);
  }
}
