/** What the calculator's second evaluator does, operation by operation and on whole trees.
    Two ints compute with C# `int` arithmetic, as the first evaluator does; text
    concatenates under `+`; the kind rules push nothing, push null or raise; and the visit
    creates the values of the tree's tokens in postfix order. On a left-nested chain of
    ints and int variables the reduction computes the chain's value, and an assignment of
    such a chain binds the name to it. A right operand that is itself an operation, as in
    `1 + 2 * 7`, makes the reduction unbox the literal 7 as the operator numbered 7. In the
    numbering of `Tokens`, which follows XSS.Compiler/Token.cs rather than the calculator's
    own Token.cs, that is `+`, so the evaluation gives 0; under the calculator's numbering 7
    would be ASSIGN. `Corrected` evaluates the same stack values with an operand stack and
    gives the tree's value on every arithmetic tree. */
module SimpleVisitorEvaluationFacts {
  import opened Wrappers
  import opened Tokens
  import opened Int32
  import opened XssOperand
  import opened XssAst
  import opened Stacks
  import opened XssValues
  import DotNetConvert
  import SimpleAstInterpreter
  import opened SimpleVisitorInterpreter

  /** `new StackValue(ValType.Integer, v)`. */
  function IntValue(v: int32): StackValue
  {
    StackValue(Integer, BInt(v))
  }

  /** The stack value of an operator token. */
  function OperatorValue(k: TokenKind): StackValue
  {
    StackValue(Operator, BTokenType(k))
  }

  /** What pushing an int result does: the int, or the exception computing it raised. */
  function IntEffect(c: Result<int32, RuntimeError>): Effect
  {
    match c
    case Success(v) => Success(Some(IntValue(v)))
    case Failure(e) => Failure(e)
  }

  // ---- Single operations ----

  /** The two evaluators agree on int arithmetic. */
  lemma IntegerOperationIsArith(a: int32, b: int32, k: TokenKind)
    requires IsArithmetic(k)
    ensures IntegerOperation(IntValue(a), IntValue(b), k) == SimpleAstInterpreter.Arith(k, a, b)
  {
  }

  /** Two ints: `+ - * /` push the C# `int` result or raise its exception, `^` goes through
      floats, and every other operator pushes nothing and raises nothing. */
  lemma IntegersCombine(vars: Variables, a: int32, b: int32, k: TokenKind)
    ensures IsArithmetic(k) ==> Binary(vars, IntValue(a), IntValue(b), k) == Step(vars, IntEffect(SimpleAstInterpreter.Arith(k, a, b)))
    ensures k == EXPONENT ==> Binary(vars, IntValue(a), IntValue(b), k) == Step(vars, Failure(FloatNotModelled))
    ensures !IsArithmetic(k) && k != EXPONENT ==> Binary(vars, IntValue(a), IntValue(b), k) == Step(vars, Success(None))
  {
    if IsArithmetic(k) {
      IntegerOperationIsArith(a, b, k);
    }
  }

  /** Reading an unbound name binds it to null, and the name resolves to a Null value. */
  lemma UnboundNameIsNull(vars: Variables, name: string)
    requires name !in vars
    ensures Get(vars, Some(name)) == Success((BNull, vars[name := BNull]))
    ensures Resolve(vars, StackValue(Identifier, BString(name))) == Success((NullValue, vars[name := BNull]))
  {
  }

  /** A name bound to an int resolves to that int and changes nothing. */
  lemma BoundIntResolves(vars: Variables, name: string, v: int32)
    requires name in vars && vars[name] == BInt(v)
    ensures Resolve(vars, StackValue(Identifier, BString(name))) == Success((IntValue(v), vars))
  {
    assert vars[name := BInt(v)] == vars;
  }

  /** A null, float, bool, char or string kept in a variable reads back with its kind. */
  lemma StoredValueReadsBack(vars: Variables, name: string, v: StackValue)
    requires v.kind in {Null, Float, Bool, Char, String} && Classify(v.value) == Success(v)
    ensures Resolve(vars[name := v.value], StackValue(Identifier, BString(name))) == Success((v, vars[name := v.value]))
  {
    assert vars[name := v.value][name := v.value] == vars[name := v.value];
  }

  /** `+` on two chars or two strings pushes their concatenation as a string, and on a
      string and anything else the string followed by the other's text; any other operator
      on them is undefined behaviour. */
  lemma TextConcatenates(vars: Variables, c1: char, c2: char, s1: string, s2: string, i: int32, k: TokenKind)
    ensures Binary(vars, StackValue(Char, BChar(c1)), StackValue(Char, BChar(c2)), PLUS) == Step(vars, Success(Some(StackValue(String, BString([c1, c2])))))
    ensures Binary(vars, StackValue(String, BString(s1)), StackValue(String, BString(s2)), PLUS) == Step(vars, Success(Some(StackValue(String, BString(s1 + s2)))))
    ensures Binary(vars, StackValue(String, BString(s1)), IntValue(i), PLUS) == Step(vars, Success(Some(StackValue(String, BString(s1 + DotNetConvert.Int32ToString(i))))))
    ensures Binary(vars, StackValue(String, BString(s1)), StackValue(Char, BChar(c2)), PLUS) == Step(vars, Success(Some(StackValue(String, BString(s1 + [c2])))))
    ensures k != PLUS ==> Binary(vars, StackValue(Char, BChar(c1)), StackValue(Char, BChar(c2)), k) == Step(vars, Failure(Undefined))
    ensures k != PLUS ==> Binary(vars, StackValue(String, BString(s1)), StackValue(String, BString(s2)), k) == Step(vars, Failure(Undefined))
    ensures k != PLUS ==> Binary(vars, StackValue(String, BString(s1)), IntValue(i), k) == Step(vars, Failure(Undefined))
  {
    assert [c1] + [c2] == [c1, c2];
  }

  /** The kind rules on operands that need no resolving: two bools push nothing; a Null
      left operand of another kind pushes null; a char or bool left operand of another kind,
      and an int left operand beside anything but a float or a char, raise undefined
      behaviour; and int arithmetic with a char unboxes the char as an int, which is an
      invalid cast. */
  lemma KindRules(vars: Variables, a: StackValue, b: StackValue, k: TokenKind)
    requires a.kind != Identifier && b.kind != Identifier
    ensures a.kind == Bool && b.kind == Bool ==> Binary(vars, a, b, k) == Step(vars, Success(None))
    ensures a.kind == Null && b.kind != Null ==> Binary(vars, a, b, k) == Step(vars, Success(Some(NullValue)))
    ensures a.kind in {Char, Bool} && b.kind != a.kind ==> Binary(vars, a, b, k) == Step(vars, Failure(Undefined))
    ensures a.kind == Integer && b.kind !in {Integer, Float, Char} ==> Binary(vars, a, b, k) == Step(vars, Failure(Undefined))
    ensures a.kind == Integer && a.value.BInt? && b.kind == Char && b.value.BChar? && IsArithmetic(k) ==> Binary(vars, a, b, k) == Step(vars, Failure(InvalidCast))
  {
  }

  /** `-` negates an int, wrapping `int.MinValue` to itself; any other operator on an int
      pushes nothing. */
  lemma IntegerNegation(vars: Variables, i: int32, k: TokenKind)
    ensures Unary(vars, IntValue(i), MINUS) == Step(vars, Success(Some(IntValue(Wrap(-(i as int))))))
    ensures Unary(vars, IntValue(MIN as int32), MINUS) == Step(vars, Success(Some(IntValue(MIN as int32))))
    ensures k != MINUS ==> Unary(vars, IntValue(i), k) == Step(vars, Success(None))
  {
    NegMin();
  }

  /** `not` negates a bool, and any other operator on it pushes nothing; so does any
      operator on a char, a string or null. */
  lemma OtherUnaryRules(vars: Variables, b: bool, a: StackValue, k: TokenKind)
    requires a.kind in {Char, String, Null}
    ensures Unary(vars, StackValue(Bool, BBool(b)), NOT) == Step(vars, Success(Some(StackValue(Bool, BBool(!b)))))
    ensures k != NOT ==> Unary(vars, StackValue(Bool, BBool(b)), k) == Step(vars, Success(None))
    ensures Unary(vars, a, k) == Step(vars, Success(None))
  {
  }

  /** ASSIGN with a value that needs no resolving binds the name to its object, whether the
      name was bound or not, and pushes the name resolved: the object with the kind its
      type gives. */
  lemma AssignmentBindsAndPushes(vars: Variables, o1: StackValue, name: string)
    requires o1.kind != Identifier
    ensures Assign(vars, o1, StackValue(Identifier, BString(name)))
            == Step(vars[name := o1.value], Success(Some(StackValue(RuntimeKind(o1.value), o1.value))))
  {
    assert vars[name := o1.value][name := o1.value] == vars[name := o1.value];
  }

  /** An empty stack evaluates to null; a single value is returned as its raw object. */
  lemma EndsOfEvaluation(vars: Variables, v: StackValue)
    ensures Evaluation(vars, []) == Run(Success(BNull), vars, [])
    ensures Evaluated(vars, v).Success? ==> Evaluation(vars, [v]) == Run(Success(Evaluated(vars, v).value.0), Evaluated(vars, v).value.1, [])
    ensures Evaluation(vars, [IntValue(7)]) == Run(Success(BInt(7)), vars, [])
    ensures Evaluation(vars, [OperatorValue(PLUS)]) == Run(Success(BInt(0)), vars, [])
  {
    assert Reverse([v]) == [v];
    assert Reverse([IntValue(7)]) == [IntValue(7)];
    assert Reverse([OperatorValue(PLUS)]) == [OperatorValue(PLUS)];
  }

  // ---- The visit ----

  /** Visiting one part after another appends what they push. */
  lemma ThenAssociates(a: Pushed, b: Pushed, c: Pushed)
    ensures Then(Then(a, b), c) == Then(a, Then(b, c))
  {
  }

  /** Creating the values of two token sequences one after the other. */
  lemma {:induction false} CreateAllAppends(s: seq<Token>, t: seq<Token>)
    ensures CreateAll(s + t) == Then(CreateAll(s), CreateAll(t))
    decreases |s|
  {
    if s == [] {
      assert s + t == t;
    } else {
      assert (s + t)[0] == s[0] && (s + t)[1..] == s[1..] + t;
      CreateAllAppends(s[1..], t);
      ThenAssociates(PushedToken(s[0]), CreateAll(s[1..]), CreateAll(t));
    }
  }

  /** The visit creates the values of the tree's tokens in postfix order and stops at the
      first token whose value cannot be created. */
  lemma {:induction false} VisitedIsCreation(n: Node)
    ensures Visited(n) == CreateAll(PostfixTokens(n))
    decreases n
  {
    if n.Operand? {
      assert [n.token][1..] == [];
    } else if n.BinaryOperation? {
      VisitedIsCreation(n.left);
      VisitedIsCreation(n.right);
      CreateAllAppends(PostfixTokens(n.left) + PostfixTokens(n.right), [n.op]);
      CreateAllAppends(PostfixTokens(n.left), PostfixTokens(n.right));
      assert CreateAll([n.op]) == PushedToken(n.op) by { assert [n.op][1..] == []; }
      ThenAssociates(Visited(n.left), Visited(n.right), PushedToken(n.op));
    } else if n.UnaryOperation? {
      VisitedIsCreation(n.operand);
      CreateAllAppends(PostfixTokens(n.operand), [n.op]);
      assert CreateAll([n.op]) == PushedToken(n.op) by { assert [n.op][1..] == []; }
    } else if n.Assignment? {
      VisitedIsCreation(n.expression);
      CreateAllAppends(PostfixTokens(n.expression), [n.ident, AssignToken]);
      CreateAllAppends([n.ident], [AssignToken]);
      assert [n.ident] + [AssignToken] == [n.ident, AssignToken];
      assert CreateAll([n.ident]) == PushedToken(n.ident) by { assert [n.ident][1..] == []; }
      assert CreateAll([AssignToken]) == PushedToken(AssignToken) by { assert [AssignToken][1..] == []; }
    }
  }

  // ---- Arithmetic trees ----

  /** A leaf the reduction reads as an int: an int literal, or a name bound to an int. */
  predicate Leaf(vars: Variables, n: Node)
  {
    n.Operand?
    && ((n.token.kind == INTERGER && DotNetConvert.ParseInt32(n.token.lexeme).Success?)
        || (n.token.kind == IDENT && n.token.lexeme.Some? && n.token.lexeme.value in vars && vars[n.token.lexeme.value].BInt?))
  }

  /** The int a leaf stands for. */
  function LeafValue(vars: Variables, n: Node): int32
    requires Leaf(vars, n)
  {
    if n.token.kind == INTERGER then DotNetConvert.ParseInt32(n.token.lexeme).value else vars[n.token.lexeme.value].i
  }

  /** The value a leaf's visit pushes: the int, or the name. */
  function LeafItem(vars: Variables, n: Node): StackValue
    requires Leaf(vars, n)
  {
    if n.token.kind == INTERGER then IntValue(LeafValue(vars, n)) else StackValue(Identifier, BString(n.token.lexeme.value))
  }

  /** Trees of ints and int variables under the four arithmetic operators. */
  predicate Arithmetic(vars: Variables, n: Node)
  {
    Leaf(vars, n) || (n.BinaryOperation? && IsArithmetic(n.op.kind) && Arithmetic(vars, n.left) && Arithmetic(vars, n.right))
  }

  /** Left-nested chains `((a op b) op c) …`: every right operand is a leaf. */
  predicate LeftChain(vars: Variables, n: Node)
    ensures LeftChain(vars, n) ==> Arithmetic(vars, n)
  {
    Leaf(vars, n) || (n.BinaryOperation? && IsArithmetic(n.op.kind) && LeftChain(vars, n.left) && Leaf(vars, n.right))
  }

  /** The value of an arithmetic tree, walking it, with C# `int` arithmetic. */
  function Denote(vars: Variables, n: Node): Result<int32, RuntimeError>
    requires Arithmetic(vars, n)
    decreases n
  {
    if !n.BinaryOperation? then Success(LeafValue(vars, n))
    else
      var a :- Denote(vars, n.left);
      var b :- Denote(vars, n.right);
      SimpleAstInterpreter.Arith(n.op.kind, a, b)
  }

  /** An int result as the object `Evaluate` returns. */
  function Boxed(r: Result<int32, RuntimeError>): Result<Boxed, RuntimeError>
  {
    match r
    case Success(v) => Success(BInt(v))
    case Failure(e) => Failure(e)
  }

  /** What the visit of an operator, a name and an int literal pushes. */
  lemma TokenPushes(t: Token)
    ensures t.kind in CalculatorOperators ==> PushedToken(t) == Pushed([OperatorValue(t.kind)], None)
    ensures t.kind == IDENT && t.lexeme.Some? ==> PushedToken(t) == Pushed([StackValue(Identifier, BString(t.lexeme.value))], None)
    ensures t.kind == INTERGER && DotNetConvert.ParseInt32(t.lexeme).Success? ==>
              PushedToken(t) == Pushed([IntValue(DotNetConvert.ParseInt32(t.lexeme).value)], None)
  {
  }

  /** A leaf pushes its one value, which resolves and reads as its int. */
  lemma LeafPushes(vars: Variables, n: Node)
    requires Leaf(vars, n)
    ensures Visited(n) == Pushed([LeafItem(vars, n)], None)
    ensures Resolve(vars, LeafItem(vars, n)) == Success((IntValue(LeafValue(vars, n)), vars))
    ensures Evaluated(vars, LeafItem(vars, n)) == Success((BInt(LeafValue(vars, n)), vars))
  {
    TokenPushes(n.token);
    if n.token.kind == IDENT {
      BoundIntResolves(vars, n.token.lexeme.value, LeafValue(vars, n));
      assert vars[n.token.lexeme.value := BInt(LeafValue(vars, n))] == vars;
    }
  }

  /** The visit of an arithmetic tree raises nothing: an operation pushes its operands'
      values and then its operator. */
  lemma {:induction false} ArithmeticVisits(vars: Variables, n: Node)
    requires Arithmetic(vars, n)
    ensures Visited(n).error == None
    ensures n.BinaryOperation? ==> Visited(n).values == Visited(n.left).values + Visited(n.right).values + [OperatorValue(n.op.kind)]
    decreases n
  {
    if n.BinaryOperation? {
      ArithmeticVisits(vars, n.left);
      ArithmeticVisits(vars, n.right);
      TokenPushes(n.op);
    } else {
      LeafPushes(vars, n);
    }
  }

  // ---- The reduction of left chains ----

  /** What lying on top of `below` gives: the run is the reduction with the int pushed
      instead, or it raises the int's exception and leaves the variables alone. */
  predicate Settles(run: Run, d: Result<int32, RuntimeError>, vars: Variables, below: seq<StackValue>)
  {
    (d.Success? ==> run == Reduce(vars, below + [IntValue(d.value)]))
    && (d.Failure? ==> run.result == Failure(d.error) && run.vars == vars)
  }

  /** A value that resolves and reads as an int without changing the variables reduces as
      that int does, under any stack: every pass resolves its first operand before using
      it. */
  lemma ReducesAsItsInt(vars: Variables, below: seq<StackValue>, o: StackValue, v: int32)
    requires Resolve(vars, o) == Success((IntValue(v), vars)) && Evaluated(vars, o) == Success((BInt(v), vars))
    ensures Reduce(vars, below + [o]) == Reduce(vars, below + [IntValue(v)])
  {
    if |below| == 0 {
      assert below + [o] == [o] && below + [IntValue(v)] == [IntValue(v)];
    } else if below[|below| - 1].kind == Operator {
      assert below == below[..|below| - 1] + [below[|below| - 1]];
      ReducesAsItsIntUnderUnary(vars, below[..|below| - 1], below[|below| - 1], o, v);
    } else if |below| >= 2 {
      assert below == below[..|below| - 2] + [below[|below| - 2], below[|below| - 1]];
      ReducesAsItsIntUnderBinary(vars, below[..|below| - 2], below[|below| - 2], below[|below| - 1], o, v);
    }
  }

  /** The case of `ReducesAsItsInt` with an operator just below: a unary pass. */
  lemma ReducesAsItsIntUnderUnary(vars: Variables, rest: seq<StackValue>, o2: StackValue, o: StackValue, v: int32)
    requires o2.kind == Operator
    requires Resolve(vars, o) == Success((IntValue(v), vars)) && Evaluated(vars, o) == Success((BInt(v), vars))
    ensures Reduce(vars, rest + [o2] + [o]) == Reduce(vars, rest + [o2] + [IntValue(v)])
  {
    assert rest + [o2] + [o] == rest + [o2, o] && rest + [o2] + [IntValue(v)] == rest + [o2, IntValue(v)];
    ReduceUnaryOnTop(vars, rest, o2, o);
    ReduceUnaryOnTop(vars, rest, o2, IntValue(v));
  }

  /** The case of `ReducesAsItsInt` with an operand and an operator below: a binary pass. */
  lemma ReducesAsItsIntUnderBinary(vars: Variables, rest: seq<StackValue>, op: StackValue, o2: StackValue, o: StackValue, v: int32)
    requires o2.kind != Operator
    requires Resolve(vars, o) == Success((IntValue(v), vars)) && Evaluated(vars, o) == Success((BInt(v), vars))
    ensures Reduce(vars, rest + [op, o2] + [o]) == Reduce(vars, rest + [op, o2] + [IntValue(v)])
  {
    assert rest + [op, o2] + [o] == rest + [op, o2, o] && rest + [op, o2] + [IntValue(v)] == rest + [op, o2, IntValue(v)];
    ReduceBinaryOnTop(vars, rest, op, o2, o);
    ReduceBinaryOnTop(vars, rest, op, o2, IntValue(v));
  }

  /** A leaf on top of any stack. */
  lemma LeafSettles(vars: Variables, below: seq<StackValue>, n: Node)
    requires Leaf(vars, n)
    ensures Settles(Reduce(vars, below + [LeafItem(vars, n)]), Denote(vars, n), vars, below)
  {
    LeafPushes(vars, n);
    ReducesAsItsInt(vars, below, LeafItem(vars, n), LeafValue(vars, n));
  }

  /** The last operation of a chain, once its left part has been reduced to its int. */
  lemma LastOperationSettles(vars: Variables, below: seq<StackValue>, n: Node)
    requires LeftChain(vars, n) && n.BinaryOperation? && Denote(vars, n.left).Success?
    ensures Settles(Reduce(vars, below + [OperatorValue(n.op.kind), LeafItem(vars, n.right), IntValue(Denote(vars, n.left).value)]), Denote(vars, n), vars, below)
  {
    var a, r := Denote(vars, n.left).value, n.right;
    ReduceBinaryOnTop(vars, below, OperatorValue(n.op.kind), LeafItem(vars, r), IntValue(a));
    LeafPushes(vars, r);
    IntegersCombine(vars, a, LeafValue(vars, r), n.op.kind);
  }

  /** The reversed values of `l op t`, on top of `below`, are those of `l` on top of the
      operator and `t`. */
  lemma ChainValues(vars: Variables, below: seq<StackValue>, n: Node)
    requires LeftChain(vars, n) && n.BinaryOperation?
    ensures below + Reverse(Visited(n).values) == (below + [OperatorValue(n.op.kind), LeafItem(vars, n.right)]) + Reverse(Visited(n.left).values)
  {
    var l, op, t := Visited(n.left).values, OperatorValue(n.op.kind), LeafItem(vars, n.right);
    ArithmeticVisits(vars, n);
    LeafPushes(vars, n.right);
    assert Visited(n).values == l + [t, op];
    ReversePair(l, t, op);
  }

  /** Two values pushed on `l`, reversed. */
  lemma ReversePair(l: seq<StackValue>, a: StackValue, b: StackValue)
    ensures Reverse(l + [a, b]) == [b, a] + Reverse(l)
  {
    ReverseAppend(l, [a, b]);
    assert Reverse([a, b]) == [b, a];
  }

  /** The reduction of a left chain lying on top of `below` comes to the chain's int pushed
      on `below`, or raises what the chain's value raises. */
  lemma {:induction false} ChainReduces(vars: Variables, below: seq<StackValue>, n: Node)
    requires LeftChain(vars, n)
    ensures Settles(Reduce(vars, below + Reverse(Visited(n).values)), Denote(vars, n), vars, below)
    decreases n
  {
    if n.Operand? {
      LeafChainSettles(vars, below, n);
    } else {
      ChainReduces(vars, below + [OperatorValue(n.op.kind), LeafItem(vars, n.right)], n.left);
      ChainStepSettles(vars, below, n);
    }
  }

  /** The base case of `ChainReduces`: a leaf. */
  lemma LeafChainSettles(vars: Variables, below: seq<StackValue>, n: Node)
    requires LeftChain(vars, n) && n.Operand?
    ensures Settles(Reduce(vars, below + Reverse(Visited(n).values)), Denote(vars, n), vars, below)
  {
    LeafPushes(vars, n);
    assert Reverse(Visited(n).values) == [LeafItem(vars, n)];
    LeafSettles(vars, below, n);
  }

  /** The step of `ChainReduces`: once the left part settles on top of the operator and the
      right leaf, the whole chain settles. */
  lemma ChainStepSettles(vars: Variables, below: seq<StackValue>, n: Node)
    requires LeftChain(vars, n) && n.BinaryOperation?
    requires Settles(Reduce(vars, (below + [OperatorValue(n.op.kind), LeafItem(vars, n.right)]) + Reverse(Visited(n.left).values)),
                     Denote(vars, n.left), vars, below + [OperatorValue(n.op.kind), LeafItem(vars, n.right)])
    ensures Settles(Reduce(vars, below + Reverse(Visited(n).values)), Denote(vars, n), vars, below)
  {
    var below' := below + [OperatorValue(n.op.kind), LeafItem(vars, n.right)];
    ChainValues(vars, below, n);
    var dl := Denote(vars, n.left);
    if dl.Success? {
      assert below' + [IntValue(dl.value)] == below + [OperatorValue(n.op.kind), LeafItem(vars, n.right), IntValue(dl.value)];
      LastOperationSettles(vars, below, n);
    } else {
      assert Denote(vars, n) == Failure(dl.error);
    }
  }

  /** Visiting a left chain and evaluating gives the chain's value, and changes no
      variable. */
  lemma ChainEvaluates(vars: Variables, n: Node)
    requires LeftChain(vars, n)
    ensures Evaluation(vars, Visited(n).values).result == Boxed(Denote(vars, n))
    ensures Evaluation(vars, Visited(n).values).vars == vars
  {
    ChainReduces(vars, [], n);
    assert [] + Reverse(Visited(n).values) == Reverse(Visited(n).values);
    if n.Operand? {
      LeafPushes(vars, n);
    } else {
      ArithmeticVisits(vars, n);
    }
    SettledEvaluation(vars, Visited(n).values, Denote(vars, n));
  }

  /** Values whose reduction settles on an empty stack evaluate to the settled int. */
  lemma SettledEvaluation(vars: Variables, values: seq<StackValue>, d: Result<int32, RuntimeError>)
    requires values != [] && Settles(Reduce(vars, Reverse(values)), d, vars, [])
    ensures Evaluation(vars, values).result == Boxed(d) && Evaluation(vars, values).vars == vars
  {
    if d.Success? {
      assert [] + [IntValue(d.value)] == [IntValue(d.value)];
    }
  }

  /** `x = chain` evaluates to the chain's value and binds `x` to it. */
  lemma AssignmentEvaluates(vars: Variables, x: Token, e: Node)
    requires LeftChain(vars, e) && x.kind == IDENT && x.lexeme.Some?
    ensures var d := Denote(vars, e);
            var run := Evaluation(vars, Visited(Assignment(x, e)).values);
            run.result == Boxed(d)
            && (d.Success? ==> run.vars == vars[x.lexeme.value := BInt(d.value)])
            && (d.Failure? ==> run.vars == vars)
  {
    var name, eq := StackValue(Identifier, BString(x.lexeme.value)), OperatorValue(ASSIGN);
    AssignmentValues(vars, x, e);
    ChainReduces(vars, [eq, name], e);
    var d := Denote(vars, e);
    if d.Success? {
      assert [eq, name] + [IntValue(d.value)] == [eq, name, IntValue(d.value)];
      AssignmentOfInt(vars, x.lexeme.value, d.value);
    }
  }

  /** `x = v` with the int on top binds `x` and evaluates to the int. */
  lemma AssignmentOfInt(vars: Variables, name: string, v: int32)
    ensures Reduce(vars, [OperatorValue(ASSIGN), StackValue(Identifier, BString(name)), IntValue(v)]) == Run(Success(BInt(v)), vars[name := BInt(v)], [])
  {
    var nameItem, eq := StackValue(Identifier, BString(name)), OperatorValue(ASSIGN);
    assert [] + [eq, nameItem, IntValue(v)] == [eq, nameItem, IntValue(v)];
    ReduceBinaryOnTop(vars, [], eq, nameItem, IntValue(v));
    AssignmentBindsAndPushes(vars, IntValue(v), name);
    assert [] + [IntValue(v)] == [IntValue(v)];
  }

  /** The reversed values of `x = e`: those of `e` on top of ASSIGN and the name. */
  lemma AssignmentValues(vars: Variables, x: Token, e: Node)
    requires LeftChain(vars, e) && x.kind == IDENT && x.lexeme.Some?
    ensures Visited(Assignment(x, e)).values != []
    ensures Reverse(Visited(Assignment(x, e)).values) == [OperatorValue(ASSIGN), StackValue(Identifier, BString(x.lexeme.value))] + Reverse(Visited(e).values)
  {
    var name, eq := StackValue(Identifier, BString(x.lexeme.value)), OperatorValue(ASSIGN);
    AssignmentPushes(vars, x, e);
    ReversePair(Visited(e).values, name, eq);
  }

  /** The visit of `x = e` pushes the values of `e`, then the name, then ASSIGN. */
  lemma AssignmentPushes(vars: Variables, x: Token, e: Node)
    requires LeftChain(vars, e) && x.kind == IDENT && x.lexeme.Some?
    ensures Visited(Assignment(x, e)).values == Visited(e).values + [StackValue(Identifier, BString(x.lexeme.value)), OperatorValue(ASSIGN)]
  {
    ArithmeticVisits(vars, e);
    TargetPushes(x);
    assert Visited(Assignment(x, e)) == Then(Visited(e), Then(PushedToken(x), PushedToken(AssignToken)));
  }

  /** The name and the ASSIGN an assignment's visit pushes after its expression. */
  lemma TargetPushes(x: Token)
    requires x.kind == IDENT && x.lexeme.Some?
    ensures Then(PushedToken(x), PushedToken(AssignToken)) == Pushed([StackValue(Identifier, BString(x.lexeme.value)), OperatorValue(ASSIGN)], None)
  {
    TokenPushes(x);
    TokenPushes(AssignToken);
  }

  // ---- Right-nested operands ----

  /** An int literal token. */
  function Literal(v: int32): Token
  {
    Token(INTERGER, Some(DotNetConvert.Int32ToString(v)))
  }

  /** `a op1 (b op2 c)` on three int literals, as the parser builds `1 + 2 * 7`. */
  function RightNestedTree(a: int32, op1: Token, b: int32, op2: Token, c: int32): Node
  {
    BinaryOperation(Operand(Literal(a)), op1, BinaryOperation(Operand(Literal(b)), op2, Operand(Literal(c))))
  }

  /** The first pass over `a op1 (b op2 c)` pops `a` and `b` and unboxes `c` as the
      operator, so it applies the operator numbered `c` to `a` and `b`, and both real
      operators are left on the stack. */
  lemma RightNestingTakesOperandForOperator(vars: Variables, a: int32, op1: Token, b: int32, op2: Token, c: int32)
    requires IsArithmetic(op1.kind) && IsArithmetic(op2.kind)
    ensures var run := Evaluation(vars, Visited(RightNestedTree(a, op1, b, op2, c)).values);
            var rest := [OperatorValue(op1.kind), OperatorValue(op2.kind)];
            (FromOrdinal(c as int).None? ==> run == Run(Failure(InvalidCast), vars, rest))
            && (FromOrdinal(c as int).Some? && FromOrdinal(c as int).value != ASSIGN ==>
                  run == Continue(Binary(vars, IntValue(a), IntValue(b), FromOrdinal(c as int).value), rest))
  {
    var A, B, C, O1, O2 := IntValue(a), IntValue(b), IntValue(c), OperatorValue(op1.kind), OperatorValue(op2.kind);
    RightNestedValues(a, op1, b, op2, c);
    ReversedFive(A, B, C, O2, O1);
    ReduceBinaryOnTop(vars, [O1, O2], C, B, A);
  }

  /** The visit of `a op1 (b op2 c)` pushes `a`, `b`, `c`, `op2`, `op1`. */
  lemma RightNestedValues(a: int32, op1: Token, b: int32, op2: Token, c: int32)
    requires IsArithmetic(op1.kind) && IsArithmetic(op2.kind)
    ensures Visited(RightNestedTree(a, op1, b, op2, c)).values
         == [IntValue(a), IntValue(b), IntValue(c), OperatorValue(op2.kind), OperatorValue(op1.kind)]
  {
    var A, B, C, O1, O2 := IntValue(a), IntValue(b), IntValue(c), OperatorValue(op1.kind), OperatorValue(op2.kind);
    var n2 := BinaryOperation(Operand(Literal(b)), op2, Operand(Literal(c)));
    LiteralOperationPushes(b, op2, c);
    LiteralPushes(a);
    OperationPushes(Operand(Literal(a)), op1, n2);
    assert [A] + [B, C, O2] + [O1] == [A, B, C, O2, O1];
  }

  /** The visit of `b op c` on two int literals pushes `b`, `c`, `op`. */
  lemma LiteralOperationPushes(b: int32, op: Token, c: int32)
    requires IsArithmetic(op.kind)
    ensures Visited(BinaryOperation(Operand(Literal(b)), op, Operand(Literal(c)))) == Pushed([IntValue(b), IntValue(c), OperatorValue(op.kind)], None)
  {
    LiteralPushes(b);
    LiteralPushes(c);
    OperationPushes(Operand(Literal(b)), op, Operand(Literal(c)));
    assert [IntValue(b)] + [IntValue(c)] + [OperatorValue(op.kind)] == [IntValue(b), IntValue(c), OperatorValue(op.kind)];
  }

  /** The visit of an int literal pushes its int. */
  lemma LiteralPushes(v: int32)
    ensures Visited(Operand(Literal(v))) == Pushed([IntValue(v)], None)
  {
    DotNetConvert.ParseInt32ToString(v);
    TokenPushes(Literal(v));
  }

  /** The visit of an operation whose operands raise nothing. */
  lemma OperationPushes(l: Node, op: Token, r: Node)
    requires Visited(l).error == None && Visited(r).error == None && op.kind in CalculatorOperators
    ensures Visited(BinaryOperation(l, op, r)) == Pushed(Visited(l).values + Visited(r).values + [OperatorValue(op.kind)], None)
  {
    TokenPushes(op);
  }

  /** Five values reversed. */
  lemma ReversedFive(a: StackValue, b: StackValue, c: StackValue, d: StackValue, e: StackValue)
    ensures Reverse([a, b, c, d, e]) == [e, d] + [c, b, a]
  {
    ReverseAppend([a, b, c], [d, e]);
    ReverseAppend([a], [b, c]);
    ReverseAppend([b], [c]);
    ReverseAppend([d], [e]);
    assert [a, b, c] + [d, e] == [a, b, c, d, e];
    assert [a] + [b, c] == [a, b, c] && [b] + [c] == [b, c] && [d] + [e] == [d, e];
  }

  /** `1 + 2 * 7` is meant to be 15, and it evaluates to 0: `1 + 2` is computed because 7
      is the number of `+` in the numbering of `Tokens`, `3 * ` becomes a unary `*`, which
      pushes nothing, and the `+` left alone evaluates to 0. */
  lemma OnePlusTwoTimesSeven(vars: Variables)
    ensures var n := OnePlusTwoTimesSevenTree();
            Arithmetic(vars, n) && Denote(vars, n) == Success(15)
            && Evaluation(vars, Visited(n).values) == Run(Success(BInt(0)), vars, [])
  {
    OnePlusTwoTimesSevenDenotes(vars);
    OnePlusTwoTimesSevenEvaluates(vars);
  }

  /** The visit of `1 + 2 * 7` evaluates to 0 under the numbering of `Tokens`. */
  lemma OnePlusTwoTimesSevenEvaluates(vars: Variables)
    ensures Evaluation(vars, Visited(OnePlusTwoTimesSevenTree()).values) == Run(Success(BInt(0)), vars, [])
  {
    assert FromOrdinal(7) == Some(PLUS);
    assert SimpleAstInterpreter.Arith(PLUS, 1, 2) == Success(3);
    SumBeforeProduct(vars, 1, 2, 7);
  }

  /** `a + b * c` with `c` the number of `+` evaluates to 0 whenever `a + b` raises
      nothing. */
  lemma SumBeforeProduct(vars: Variables, a: int32, b: int32, c: int32)
    requires FromOrdinal(c as int) == Some(PLUS) && SimpleAstInterpreter.Arith(PLUS, a, b).Success?
    ensures Evaluation(vars, Visited(RightNestedTree(a, Token(PLUS, Some("+")), b, Token(MULTIPLY, Some("*")), c)).values)
         == Run(Success(BInt(0)), vars, [])
  {
    RightNestingTakesOperandForOperator(vars, a, Token(PLUS, Some("+")), b, Token(MULTIPLY, Some("*")), c);
    IntegersCombine(vars, a, b, PLUS);
    TimesLeavesPlus(vars, SimpleAstInterpreter.Arith(PLUS, a, b).value);
  }

  /** The tree the parser builds for `1 + 2 * 7`. */
  function OnePlusTwoTimesSevenTree(): Node
  {
    RightNestedTree(1, Token(PLUS, Some("+")), 2, Token(MULTIPLY, Some("*")), 7)
  }

  /** `1 + 2 * 7` is 15. */
  lemma OnePlusTwoTimesSevenDenotes(vars: Variables)
    ensures Arithmetic(vars, OnePlusTwoTimesSevenTree()) && Denote(vars, OnePlusTwoTimesSevenTree()) == Success(15)
  {
    RightNestedDenotes(vars, 1, Token(PLUS, Some("+")), 2, Token(MULTIPLY, Some("*")), 7);
    assert SimpleAstInterpreter.Arith(MULTIPLY, 2, 7) == Success(14);
    assert SimpleAstInterpreter.Arith(PLUS, 1, 14) == Success(15);
  }

  /** `a op1 (b op2 c)` is `b op2 c`, then `a op1` that. */
  lemma RightNestedDenotes(vars: Variables, a: int32, op1: Token, b: int32, op2: Token, c: int32)
    requires IsArithmetic(op1.kind) && IsArithmetic(op2.kind)
    ensures var n := RightNestedTree(a, op1, b, op2, c);
            Arithmetic(vars, n)
            && Denote(vars, n) == (var r :- SimpleAstInterpreter.Arith(op2.kind, b, c); SimpleAstInterpreter.Arith(op1.kind, a, r))
  {
    var n := RightNestedTree(a, op1, b, op2, c);
    LiteralLeaf(vars, a);
    LiteralLeaf(vars, b);
    LiteralLeaf(vars, c);
    assert Denote(vars, n.left) == Success(a) && Denote(vars, n.right.left) == Success(b) && Denote(vars, n.right.right) == Success(c);
    assert Denote(vars, n.right) == SimpleAstInterpreter.Arith(op2.kind, b, c);
  }

  /** An int literal is a leaf standing for its int. */
  lemma LiteralLeaf(vars: Variables, v: int32)
    ensures Leaf(vars, Operand(Literal(v))) && LeafValue(vars, Operand(Literal(v))) == v
  {
    DotNetConvert.ParseInt32ToString(v);
  }

  /** After `1 + 2`, the `*` is a unary operation on the sum, which pushes nothing, and the
      `+` left alone reads as 0. */
  lemma TimesLeavesPlus(vars: Variables, i: int32)
    ensures Continue(Step(vars, IntEffect(Success(i))), [OperatorValue(PLUS), OperatorValue(MULTIPLY)]) == Run(Success(BInt(0)), vars, [])
  {
    var O1, O2 := OperatorValue(PLUS), OperatorValue(MULTIPLY);
    assert [O1, O2] + [IntValue(i)] == [O1] + [O2, IntValue(i)];
    IntegerNegation(vars, i, MULTIPLY);
    UnaryLeavesNothing(vars, [O1], O2, IntValue(i), MULTIPLY);
    PlusAloneReadsZero(vars);
  }

  /** A unary pass that pushes nothing pops its operator and operand. */
  lemma UnaryLeavesNothing(vars: Variables, rest: seq<StackValue>, o2: StackValue, o1: StackValue, k: TokenKind)
    requires o2.kind == Operator && UnboxTokenType(o2.value) == Success(k) && Unary(vars, o1, k) == Step(vars, Success(None))
    ensures Reduce(vars, rest + [o2, o1]) == Reduce(vars, rest)
  {
    ReduceUnaryOnTop(vars, rest, o2, o1);
  }

  /** An operator left alone on the stack is read as its number: `+` is 0. */
  lemma PlusAloneReadsZero(vars: Variables)
    ensures Reduce(vars, [OperatorValue(PLUS)]) == Run(Success(BInt(0)), vars, [])
  {
  }

  // ---- Evaluating the stack values with an operand stack ----

  /** A result and the variables left. */
  datatype Valued = Valued(result: Result<Boxed, RuntimeError>, vars: Variables)

  /** The pushed values read from the bottom: a value that is not an operator goes on a
      stack of operands, and an operator replaces the top two with what the interpreter's
      own binary operation or assignment pushes (the lower one is its first operand). What
      is left at the end must be one value, which is read as `Evaluate` reads its last
      one. Every operator is taken as binary. */
  function Corrected(vars: Variables, items: seq<StackValue>, operands: seq<StackValue>): Valued
    decreases |items|
  {
    if items == [] then
      if |operands| == 1 then
        match Evaluated(vars, operands[0])
        case Success((v, vs)) => Valued(Success(v), vs)
        case Failure(e) => Valued(Failure(e), vars)
      else Valued(Failure(EmptyStack), vars)
    else if items[0].kind != Operator then Corrected(vars, items[1..], operands + [items[0]])
    else if |operands| < 2 then Valued(Failure(EmptyStack), vars)
    else
      match UnboxTokenType(items[0].value)
      case Failure(e) => Valued(Failure(e), vars)
      case Success(k) =>
        var o1, o2 := operands[|operands| - 2], operands[|operands| - 1];
        var st := if k == ASSIGN then Assign(vars, o1, o2) else Binary(vars, o1, o2, k);
        match st.effect
        case Failure(e) => Valued(Failure(e), st.vars)
        case Success(None) => Corrected(st.vars, items[1..], operands[..|operands| - 2])
        case Success(Some(v)) => Corrected(st.vars, items[1..], operands[..|operands| - 2] + [v])
  }

  /** A value that is not an operator goes on the operand stack. */
  lemma CorrectedTakesOperand(vars: Variables, o: StackValue, rest: seq<StackValue>, operands: seq<StackValue>)
    requires o.kind != Operator
    ensures Corrected(vars, [o] + rest, operands) == Corrected(vars, rest, operands + [o])
  {
    assert ([o] + rest)[0] == o && ([o] + rest)[1..] == rest;
  }

  /** What an arithmetic tree leaves on the operand stack: a leaf its own value, an
      operation the int it computes. */
  function Settled(vars: Variables, n: Node): StackValue
    requires Arithmetic(vars, n) && Denote(vars, n).Success?
  {
    if n.Operand? then LeafItem(vars, n) else IntValue(Denote(vars, n).value)
  }

  /** What an arithmetic tree leaves resolves and reads as its int. */
  lemma SettledReads(vars: Variables, n: Node)
    requires Arithmetic(vars, n) && Denote(vars, n).Success?
    ensures Resolve(vars, Settled(vars, n)) == Success((IntValue(Denote(vars, n).value), vars))
    ensures Evaluated(vars, Settled(vars, n)) == Success((BInt(Denote(vars, n).value), vars))
  {
    if n.Operand? {
      LeafPushes(vars, n);
    }
  }

  /** An operator on two settled trees pushes what the int arithmetic gives. */
  lemma OperatorOnSettled(vars: Variables, l: Node, op: Token, r: Node, items: seq<StackValue>, operands: seq<StackValue>)
    requires Arithmetic(vars, l) && Denote(vars, l).Success? && Arithmetic(vars, r) && Denote(vars, r).Success?
    requires IsArithmetic(op.kind)
    ensures var c := SimpleAstInterpreter.Arith(op.kind, Denote(vars, l).value, Denote(vars, r).value);
            Corrected(vars, [OperatorValue(op.kind)] + items, operands + [Settled(vars, l)] + [Settled(vars, r)])
            == if c.Failure? then Valued(Failure(c.error), vars) else Corrected(vars, items, operands + [IntValue(c.value)])
  {
    var a, b := Denote(vars, l).value, Denote(vars, r).value;
    CorrectedPass(vars, op.kind, items, operands, Settled(vars, l), Settled(vars, r));
    SettledReads(vars, l);
    SettledReads(vars, r);
    assert Binary(vars, Settled(vars, l), Settled(vars, r), op.kind) == Binary(vars, IntValue(a), IntValue(b), op.kind);
    IntegersCombine(vars, a, b, op.kind);
  }

  /** An arithmetic operator over two operands continues with what the interpreter's
      binary operation pushes. */
  lemma CorrectedPass(vars: Variables, k: TokenKind, items: seq<StackValue>, operands: seq<StackValue>, o1: StackValue, o2: StackValue)
    requires IsArithmetic(k)
    ensures var st := Binary(vars, o1, o2, k);
            st.effect.Failure? ==> Corrected(vars, [OperatorValue(k)] + items, operands + [o1] + [o2]) == Valued(Failure(st.effect.error), st.vars)
    ensures var st := Binary(vars, o1, o2, k);
            st.effect == Success(None) ==> Corrected(vars, [OperatorValue(k)] + items, operands + [o1] + [o2]) == Corrected(st.vars, items, operands)
    ensures var st := Binary(vars, o1, o2, k);
            st.effect.Success? && st.effect.value.Some? ==>
              Corrected(vars, [OperatorValue(k)] + items, operands + [o1] + [o2]) == Corrected(st.vars, items, operands + [st.effect.value.value])
  {
    var st := operands + [o1] + [o2];
    assert st[..|st| - 2] == operands && st[|st| - 2] == o1 && st[|st| - 1] == o2;
    assert ([OperatorValue(k)] + items)[0] == OperatorValue(k) && ([OperatorValue(k)] + items)[1..] == items;
  }

  /** Reading a tree's values leaves it settled on the operand stack, or raises what its
      value raises. */
  lemma {:induction false} CorrectedOfTree(vars: Variables, n: Node, rest: seq<StackValue>, operands: seq<StackValue>)
    requires Arithmetic(vars, n)
    ensures Denote(vars, n).Success? ==> Corrected(vars, Visited(n).values + rest, operands) == Corrected(vars, rest, operands + [Settled(vars, n)])
    ensures Denote(vars, n).Failure? ==> Corrected(vars, Visited(n).values + rest, operands) == Valued(Failure(Denote(vars, n).error), vars)
    decreases n, 1
  {
    if n.Operand? {
      LeafPushes(vars, n);
      CorrectedTakesOperand(vars, LeafItem(vars, n), rest, operands);
    } else {
      CorrectedOfOperation(vars, n, rest, operands);
    }
  }

  /** The operation case of `CorrectedOfTree`: the left operand, then the right one, then
      the operator. */
  lemma {:induction false} CorrectedOfOperation(vars: Variables, n: Node, rest: seq<StackValue>, operands: seq<StackValue>)
    requires Arithmetic(vars, n) && n.BinaryOperation?
    ensures Denote(vars, n).Success? ==> Corrected(vars, Visited(n).values + rest, operands) == Corrected(vars, rest, operands + [Settled(vars, n)])
    ensures Denote(vars, n).Failure? ==> Corrected(vars, Visited(n).values + rest, operands) == Valued(Failure(Denote(vars, n).error), vars)
    decreases n, 0
  {
    var l, op, r := n.left, n.op, n.right;
    var afterLeft := Visited(r).values + ([OperatorValue(op.kind)] + rest);
    OperationValues(vars, n, rest);
    CorrectedOfTree(vars, l, afterLeft, operands);
    if Denote(vars, l).Success? {
      CorrectedOfTree(vars, r, [OperatorValue(op.kind)] + rest, operands + [Settled(vars, l)]);
      if Denote(vars, r).Success? {
        OperatorOnSettled(vars, l, op, r, rest, operands);
      }
    }
  }

  /** An operation's values, followed by `rest`, are its left operand's followed by its
      right operand's, the operator and `rest`. */
  lemma OperationValues(vars: Variables, n: Node, rest: seq<StackValue>)
    requires Arithmetic(vars, n) && n.BinaryOperation?
    ensures Visited(n).values + rest == Visited(n.left).values + (Visited(n.right).values + ([OperatorValue(n.op.kind)] + rest))
  {
    ArithmeticVisits(vars, n);
    AppendAssociates(Visited(n.left).values, Visited(n.right).values, [OperatorValue(n.op.kind)], rest);
  }

  /** Four sequences appended, the other way round. */
  lemma AppendAssociates<T>(a: seq<T>, b: seq<T>, c: seq<T>, d: seq<T>)
    ensures a + b + c + d == a + (b + (c + d))
  {
  }

  /** The operand-stack reading of the visit gives the tree's value and changes no
      variable, on every arithmetic tree, right-nested ones included. */
  lemma CorrectedIsDenotation(vars: Variables, n: Node)
    requires Arithmetic(vars, n)
    ensures Corrected(vars, Visited(n).values, []) == Valued(Boxed(Denote(vars, n)), vars)
  {
    CorrectedOfTree(vars, n, [], []);
    assert Visited(n).values + [] == Visited(n).values;
    if Denote(vars, n).Success? {
      SettledReads(vars, n);
      assert [] + [Settled(vars, n)] == [Settled(vars, n)];
    }
  }

  /** On left chains the operand-stack reading and the calculator's reduction agree. */
  lemma CorrectedAgreesOnChains(vars: Variables, n: Node)
    requires LeftChain(vars, n)
    ensures Corrected(vars, Visited(n).values, []).result == Evaluation(vars, Visited(n).values).result
  {
    CorrectedIsDenotation(vars, n);
    ChainEvaluates(vars, n);
  }
}
