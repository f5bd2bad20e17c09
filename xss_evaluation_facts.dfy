/** Properties of the XSS interpreter's evaluation (XSS/Visitor/Interpreter.cs): how the
    reduction loop reads a left-nested chain, what declarations, assignments, function
    declarations and calls do to the scope chain, and how `while` and `match` run. */
module XssEvaluationFacts {
  import opened Wrappers
  import opened Tokens
  import opened XssOperand
  import opened XssAst
  import opened XssValues
  import opened XssScope
  import opened XssOperators
  import opened XssEvaluation
  import opened Stacks
  import opened Int32
  import DotNetConvert

  // ---- One pass of the reduction loop, branch by branch ----

  /** A result of an operator, as the state the loop goes on with, or the exception thrown
      with the operands popped. */
  function Continued(r: Result<Effect, RuntimeError>, rest: seq<StackValue>, frames: Chain): Result<Step, Thrown<Machine>>
  {
    match r
    case Success(e) => Success(Continue(Machine(Apply(rest, e), frames)))
    case Failure(err) => Failure(Thrown(err, Machine(rest, frames)))
  }

  /** A value, a value and a third item on top: the third item is unboxed as the operator,
      which is applied to the two values. */
  lemma StepBinary(rest: seq<StackValue>, x: StackValue, k: TokenKind, v2: StackValue, v1: StackValue, frames: Chain, fuel: nat)
    requires fuel > 0 && v1.kind != ValType.FunctionCall && v2.kind != Operator && k !in {ASSIGN, VAR}
    requires UnboxTokenType(x.value) == Success(k)
    ensures ReduceStep(Machine(rest + [x, v2, v1], frames), fuel) == Continued(EvaluateBinary(frames, v1, v2, k), rest, frames)
  {
    var s := rest + [x, v2, v1];
    assert Top(s) == v1 && Popped(s) == rest + [x, v2];
    assert Top(Popped(s)) == v2 && Popped(Popped(s)) == rest + [x];
    assert Popped(Popped(Popped(s))) == rest;
  }

  /** A value and an operator on top: the operator is applied as a unary one. */
  lemma StepUnary(rest: seq<StackValue>, k: TokenKind, v1: StackValue, frames: Chain, fuel: nat)
    requires fuel > 0 && v1.kind != ValType.FunctionCall
    ensures ReduceStep(Machine(rest + [OperatorValue(k), v1], frames), fuel) == Continued(EvaluateUnary(frames, v1, k), rest, frames)
  {
    var s := rest + [OperatorValue(k), v1];
    assert Top(s) == v1 && Popped(s) == rest + [OperatorValue(k)];
    assert Popped(Popped(s)) == rest;
  }

  /** A value, a name and ASSIGN on top: the assignment is made. */
  lemma StepAssign(rest: seq<StackValue>, v2: StackValue, v1: StackValue, frames: Chain, fuel: nat)
    requires fuel > 0 && v1.kind != ValType.FunctionCall && v2.kind != Operator
    ensures ReduceStep(Machine(rest + [OperatorValue(ASSIGN), v2, v1], frames), fuel) == Stored(AssignStep(frames, v1, v2), rest)
  {
    var s := rest + [OperatorValue(ASSIGN), v2, v1];
    assert Top(s) == v1 && Popped(s) == rest + [OperatorValue(ASSIGN), v2];
    assert Top(Popped(s)) == v2 && Popped(Popped(s)) == rest + [OperatorValue(ASSIGN)];
    assert Popped(Popped(Popped(s))) == rest;
  }

  /** A value, a name and VAR on top: the declaration is made. */
  lemma StepDeclare(rest: seq<StackValue>, v2: StackValue, v1: StackValue, frames: Chain, fuel: nat)
    requires fuel > 0 && v1.kind != ValType.FunctionCall && v2.kind != Operator
    ensures ReduceStep(Machine(rest + [OperatorValue(VAR), v2, v1], frames), fuel) == Stored(DeclareStep(frames, v1, v2), rest)
  {
    var s := rest + [OperatorValue(VAR), v2, v1];
    assert Top(s) == v1 && Popped(s) == rest + [OperatorValue(VAR), v2];
    assert Top(Popped(s)) == v2 && Popped(Popped(s)) == rest + [OperatorValue(VAR)];
    assert Popped(Popped(Popped(s))) == rest;
  }

  /** A lone value is the result of the loop; a value that pushes nothing is its value. */
  lemma ReduceLast(s: seq<StackValue>, v: StackValue, frames: Chain, fuel: nat)
    requires fuel > 0 && v.kind != ValType.FunctionCall && s == [v]
    ensures Reduce(Machine(s, frames), fuel) == Paired(Resolve(frames, v), Machine([], frames))
    ensures v.kind != Identifier ==> Reduce(Machine(s, frames), fuel) == Success((v, Machine([], frames)))
  {
    assert Top(s) == v && Popped(s) == [];
  }

  /** Evaluating a tree that pushes something runs the loop on the reversed stack. */
  lemma EvaluateReduces(m: Machine, n: Node, pushed: seq<StackValue>, fuel: nat, next: nat)
    requires fuel == next + 1 && Visit(m.stack, n) == Success(pushed) && pushed != []
    ensures Evaluate(m, n, fuel) == Reduce(Machine(Reverse(pushed), m.frames), next)
  {
  }

  /** A pass that goes on hands the new state to the next pass. */
  lemma ReduceContinues(m: Machine, m': Machine, fuel: nat, next: nat)
    requires fuel == next + 1 && m.stack != [] && ReduceStep(m, fuel) == Success(Continue(m'))
    ensures Reduce(m, fuel) == Reduce(m', next)
  {
  }

  /** A pass that fails ends the loop with its error. */
  lemma ReduceFails(m: Machine, fuel: nat)
    requires fuel > 0 && m.stack != [] && ReduceStep(m, fuel).Failure?
    ensures Reduce(m, fuel) == Failure(ReduceStep(m, fuel).error)
  {
  }

  /** `v1 k v2` is an operation the loop applies as binary and whose result `w` is pushed. */
  predicate Operable(frames: Chain, v1: StackValue, v2: StackValue, k: TokenKind, w: StackValue)
  {
    v1.kind != ValType.FunctionCall && v2.kind != Operator && k != ASSIGN && k != VAR
    && EvaluateBinary(frames, v1, v2, k) == Success(Push(w))
  }

  /** A binary operator that pushes its result: the loop goes on with the result on top. */
  lemma ReduceBinary(rest: seq<StackValue>, k: TokenKind, v2: StackValue, v1: StackValue, w: StackValue, frames: Chain, fuel: nat, next: nat)
    requires fuel == next + 1 && Operable(frames, v1, v2, k, w)
    ensures Reduce(Machine(rest + [OperatorValue(k), v2, v1], frames), fuel) == Reduce(Machine(rest + [w], frames), next)
  {
    StepBinary(rest, OperatorValue(k), k, v2, v1, frames, fuel);
    ReduceContinues(Machine(rest + [OperatorValue(k), v2, v1], frames), Machine(rest + [w], frames), fuel, next);
  }

  // ---- Operator chains ----

  /** The token of an int literal. */
  function IntToken(i: int32): Token
  {
    Token(INTERGER, Some(DotNetConvert.Int32ToString(i)))
  }

  const MinusToken := Token(MINUS, Some("-"))

  /** A literal or a name is pushed as the value its token creates. */
  lemma VisitOperand(stack: seq<StackValue>, t: Token, v: StackValue)
    requires CreateStackValue(t) == Success(v)
    ensures Visit(stack, Operand(t)) == Success(stack + [v])
  {
  }

  /** An operation pushes its left operand's items, its right operand's, then its operator. */
  lemma VisitBinary(stack: seq<StackValue>, l: Node, t: Token, r: Node, sl: seq<StackValue>, sr: seq<StackValue>, o: StackValue)
    requires Visit(stack, l) == Success(sl) && Visit(sl, r) == Success(sr) && CreateStackValue(t) == Success(o)
    ensures Visit(stack, BinaryOperation(l, t, r)) == Success(sr + [o])
  {
  }

  lemma ReverseFive(x0: StackValue, x1: StackValue, x2: StackValue, x3: StackValue, x4: StackValue)
    ensures Reverse([x0, x1, x2, x3, x4]) == [x4, x3] + [x2, x1, x0]
  {
    assert [x4, x3, x2, x1, x0] == [x4, x3] + [x2, x1, x0];
  }

  lemma Regroup(x: StackValue, y: StackValue, z: StackValue)
    ensures [x, y] + [z] == [] + [x, y, z] && [] + [z] == [z]
  {
  }

  /** A binary operation under two more items: its result goes on top of them. */
  lemma ReduceBinaryUnder(x: StackValue, y: StackValue, k: TokenKind, v2: StackValue, v1: StackValue, w: StackValue,
                          frames: Chain, fuel: nat, next: nat)
    requires fuel == next + 1 && Operable(frames, v1, v2, k, w)
    ensures Reduce(Machine([x, y] + [OperatorValue(k), v2, v1], frames), fuel) == Reduce(Machine([] + [x, y, w], frames), next)
  {
    ReduceBinary([x, y], k, v2, v1, w, frames, fuel, next);
    Regroup(x, y, w);
  }

  /** A binary operation alone on the stack: its result is the value of the loop. */
  lemma ReduceBinaryLast(k: TokenKind, v2: StackValue, v1: StackValue, w: StackValue, frames: Chain, fuel: nat, next: nat)
    requires fuel == next + 1 && next > 0 && Operable(frames, v1, v2, k, w)
    ensures Reduce(Machine([] + [OperatorValue(k), v2, v1], frames), fuel) == Success((w, Machine([], frames)))
  {
    ReduceBinary([], k, v2, v1, w, frames, fuel, next);
    ReduceLast([] + [w], w, frames, next);
  }

  /** Two binary operations in a row, the first result being the left operand of the second:
      the two items under the first operation are the second one's right operand and operator,
      and the second result is the value of the loop. */
  lemma ReduceTwoOperations(frames: Chain, k1: TokenKind, k2: TokenKind, v1: StackValue, v2: StackValue, v3: StackValue,
                            w1: StackValue, w2: StackValue, f0: nat, f1: nat, f2: nat)
    requires f0 == f1 + 1 && f1 == f2 + 1 && f2 > 0
    requires Operable(frames, v1, v2, k1, w1) && Operable(frames, w1, v3, k2, w2)
    ensures Reduce(Machine([OperatorValue(k2), v3] + [OperatorValue(k1), v2, v1], frames), f0)
            == Success((w2, Machine([], frames)))
  {
    ReduceBinaryUnder(OperatorValue(k2), v3, k1, v2, v1, w1, frames, f0, f1);
    ReduceBinaryLast(k2, v3, w1, w2, frames, f1, f2);
  }

  /** A tree whose postfix form is `v1 v2 k1 v3 k2`, such as `(a k1 b) k2 c`, evaluates as the
      left-nested chain: the first result is the left operand of the second operation. */
  lemma LeftNestedPair(frames: Chain, n: Node, k1: TokenKind, k2: TokenKind, v1: StackValue, v2: StackValue, v3: StackValue,
                       w1: StackValue, w2: StackValue, fuel: nat)
    requires fuel >= 4 && Visit([], n) == Success([v1, v2, OperatorValue(k1), v3, OperatorValue(k2)])
    requires Operable(frames, v1, v2, k1, w1) && Operable(frames, w1, v3, k2, w2)
    ensures Evaluate(Machine([], frames), n, fuel) == Success((w2, Machine([], frames)))
  {
    var f1, f2, f3 := fuel - 1, fuel - 2, fuel - 3;
    EvaluateReduces(Machine([], frames), n, [v1, v2, OperatorValue(k1), v3, OperatorValue(k2)], fuel, f1);
    ReverseFive(v1, v2, OperatorValue(k1), v3, OperatorValue(k2));
    ReduceTwoOperations(frames, k1, k2, v1, v2, v3, w1, w2, f1, f2, f3);
  }

  /** An int literal pushes the int it renders. */
  lemma VisitInt(stack: seq<StackValue>, a: int32)
    ensures Visit(stack, Operand(IntToken(a))) == Success(stack + [IntV(a)])
  {
    CreateInteger(a);
    VisitOperand(stack, IntToken(a), IntV(a));
  }

  /** `a - b` pushes `a`, `b` and the minus operator. */
  lemma DifferencePostfix(stack: seq<StackValue>, a: int32, b: int32)
    ensures Visit(stack, BinaryOperation(Operand(IntToken(a)), MinusToken, Operand(IntToken(b))))
            == Success(stack + [IntV(a), IntV(b), OperatorValue(MINUS)])
  {
    VisitInt(stack, a);
    VisitInt(stack + [IntV(a)], b);
    VisitBinary(stack, Operand(IntToken(a)), MinusToken, Operand(IntToken(b)), stack + [IntV(a)], stack + [IntV(a)] + [IntV(b)], OperatorValue(MINUS));
    assert stack + [IntV(a)] + [IntV(b)] + [OperatorValue(MINUS)] == stack + [IntV(a), IntV(b), OperatorValue(MINUS)];
  }

  /** The difference of two ints is pushed as the int difference, wrapped to 32 bits. */
  lemma SubtractionOperable(frames: Chain, a: int32, b: int32)
    ensures Operable(frames, IntV(a), IntV(b), MINUS, IntV(Int32.Sub(a, b)))
  {
    IntegerArithmetic(a, b);
  }

  /** The tree of `a - b - c`, as the parser builds it: `(a - b) - c`. */
  function SubtractionChain(a: int32, b: int32, c: int32): Node
  {
    BinaryOperation(BinaryOperation(Operand(IntToken(a)), MinusToken, Operand(IntToken(b))), MinusToken, Operand(IntToken(c)))
  }

  lemma SubtractionChainPostfix(a: int32, b: int32, c: int32)
    ensures Visit([], SubtractionChain(a, b, c)) == Success([IntV(a), IntV(b), OperatorValue(MINUS), IntV(c), OperatorValue(MINUS)])
  {
    var minus := OperatorValue(MINUS);
    var inner := BinaryOperation(Operand(IntToken(a)), MinusToken, Operand(IntToken(b)));
    DifferencePostfix([], a, b);
    VisitInt([] + [IntV(a), IntV(b), minus], c);
    VisitBinary([], inner, MinusToken, Operand(IntToken(c)), [] + [IntV(a), IntV(b), minus], [] + [IntV(a), IntV(b), minus] + [IntV(c)], minus);
    assert [] + [IntV(a), IntV(b), minus] + [IntV(c)] + [minus] == [IntV(a), IntV(b), minus, IntV(c), minus];
  }

  /** `a - b - c` evaluates left to right: the first difference is pushed back and becomes the
      left operand of the second. */
  lemma SubtractionIsLeftAssociative(frames: Chain, a: int32, b: int32, c: int32, fuel: nat)
    requires fuel >= 4
    ensures Evaluate(Machine([], frames), SubtractionChain(a, b, c), fuel)
            == Success((IntV(Int32.Sub(Int32.Sub(a, b), c)), Machine([], frames)))
  {
    SubtractionChainPostfix(a, b, c);
    SubtractionOperable(frames, a, b);
    SubtractionOperable(frames, Int32.Sub(a, b), c);
    LeftNestedPair(frames, SubtractionChain(a, b, c), MINUS, MINUS, IntV(a), IntV(b), IntV(c),
                   IntV(Int32.Sub(a, b)), IntV(Int32.Sub(Int32.Sub(a, b), c)), fuel);
  }

  /** The int 3, unboxed as a token kind, is CHAR, the fourth member of the enum. */
  lemma ThreeIsChar()
    ensures UnboxTokenType(BInt(3)) == Success(CHAR)
  {
  }

  /** The tree of `1 - (2 - 3)`. */
  function RightNested(): Node
  {
    BinaryOperation(Operand(IntToken(1)), MinusToken, BinaryOperation(Operand(IntToken(2)), MinusToken, Operand(IntToken(3))))
  }

  lemma RightNestedPostfix()
    ensures Visit([], RightNested()) == Success([IntV(1), IntV(2), IntV(3), OperatorValue(MINUS), OperatorValue(MINUS)])
  {
    var minus := OperatorValue(MINUS);
    var inner := BinaryOperation(Operand(IntToken(2)), MinusToken, Operand(IntToken(3)));
    VisitInt([], 1);
    DifferencePostfix([] + [IntV(1)], 2, 3);
    VisitBinary([], Operand(IntToken(1)), MinusToken, inner, [] + [IntV(1)], [] + [IntV(1)] + [IntV(2), IntV(3), minus], minus);
    assert [] + [IntV(1)] + [IntV(2), IntV(3), minus] + [minus] == [IntV(1), IntV(2), IntV(3), minus, minus];
  }

  /** The two operators a misread pass leaves on the stack. */
  const Leftover := [OperatorValue(MINUS), OperatorValue(MINUS)]

  /** The first pass over the reversed `1 2 3 - -` reads the value 3 as the operator, and
      throws with the two minus operators still on the stack. */
  lemma MisreadStep(frames: Chain, fuel: nat)
    requires fuel > 0
    ensures Reduce(Machine(Leftover + [IntV(3), IntV(2), IntV(1)], frames), fuel) == Failure(Thrown(Undefined, Machine(Leftover, frames)))
  {
    ThreeIsChar();
    IntegerOtherOperators(1, 2, CHAR);
    StepBinary(Leftover, IntV(3), CHAR, IntV(2), IntV(1), frames, fuel);
    ReduceFails(Machine(Leftover + [IntV(3), IntV(2), IntV(1)], frames), fuel);
  }

  /** A right-nested `1 - (2 - 3)` pushes `1 2 3 - -`; reversed, the third item the loop reads
      as an operator is the value 3, which it takes for the token kind it numbers (CHAR), and
      two ints under CHAR are undefined. The two minus operators stay on the stack. */
  lemma RightNestingIsMisread(frames: Chain, fuel: nat)
    requires fuel >= 2
    ensures Evaluate(Machine([], frames), RightNested(), fuel) == Failure(Thrown(Undefined, Machine(Leftover, frames)))
  {
    RightNestedPostfix();
    var next := fuel - 1;
    EvaluateReduces(Machine([], frames), RightNested(), [IntV(1), IntV(2), IntV(3), OperatorValue(MINUS), OperatorValue(MINUS)], fuel, next);
    ReverseFive(IntV(1), IntV(2), IntV(3), OperatorValue(MINUS), OperatorValue(MINUS));
    MisreadStep(frames, next);
  }

  // ---- Single operations ----

  /** A loop started on an empty stack fails on the final `Pop`. */
  lemma ReduceEmpty(frames: Chain, fuel: nat)
    requires fuel > 0
    ensures Reduce(Machine([], frames), fuel) == Failure(Thrown(EmptyStack, Machine([], frames)))
  {
  }

  lemma ReverseOne(x: StackValue)
    ensures Reverse([] + [x]) == [x]
  {
    assert [] + [x] == [x];
  }

  lemma ReverseTwo(x: StackValue, y: StackValue)
    ensures Reverse([x, y]) == [] + [y, x]
  {
    assert [y, x] == [] + [y, x];
  }

  lemma ReverseThree(x: StackValue, y: StackValue, z: StackValue)
    ensures Reverse([x, y, z]) == [] + [z, y, x]
  {
    assert [z, y, x] == [] + [z, y, x];
  }

  /** A unary operation pushes its operand's items, then its operator. */
  lemma VisitUnary(stack: seq<StackValue>, op: Token, x: Node, sx: seq<StackValue>, o: StackValue)
    requires Visit(stack, x) == Success(sx) && CreateStackValue(op) == Success(o)
    ensures Visit(stack, UnaryOperation(op, x)) == Success(sx + [o])
  {
  }

  /** A value under a unary operator: the result is the operator's result, an error, or (when
      the operator pushes nothing) the failure of the final `Pop` on the empty stack. */
  lemma ReduceUnary(k: TokenKind, v: StackValue, frames: Chain, fuel: nat, next: nat)
    requires fuel == next + 1 && next > 0 && v.kind != ValType.FunctionCall
    ensures var r := Reduce(Machine([] + [OperatorValue(k), v], frames), fuel);
            match EvaluateUnary(frames, v, k)
            case Failure(e) => r == Failure(Thrown(e, Machine([], frames)))
            case Success(Push(w)) => r == Success((w, Machine([], frames)))
            case Success(NoPush) => r == Failure(Thrown(EmptyStack, Machine([], frames)))
  {
    var m := Machine([] + [OperatorValue(k), v], frames);
    StepUnary([], k, v, frames, fuel);
    match EvaluateUnary(frames, v, k)
    case Failure(e) =>
      ReduceFails(m, fuel);
    case Success(Push(w)) =>
      ReduceContinues(m, Machine([] + [w], frames), fuel, next);
      ReduceLast([] + [w], w, frames, next);
    case Success(NoPush) =>
      ReduceContinues(m, Machine([], frames), fuel, next);
      ReduceEmpty(frames, next);
  }

  /** A unary operator on one literal or name: its result, or an error; an operator that
      produces nothing (`not 5`) leaves the loop an empty stack. */
  lemma UnaryOnOperand(frames: Chain, op: Token, t: Token, v: StackValue, fuel: nat)
    requires IsOperatorKind(op.kind) && CreateStackValue(t) == Success(v)
    requires fuel >= 3
    ensures var r := Evaluate(Machine([], frames), UnaryOperation(op, Operand(t)), fuel);
            match EvaluateUnary(frames, v, op.kind)
            case Failure(e) => r == Failure(Thrown(e, Machine([], frames)))
            case Success(Push(w)) => r == Success((w, Machine([], frames)))
            case Success(NoPush) => r == Failure(Thrown(EmptyStack, Machine([], frames)))
  {
    var o := OperatorValue(op.kind);
    VisitOperand([], t, v);
    VisitUnary([], op, Operand(t), [] + [v], o);
    assert [] + [v] + [o] == [v, o];
    var f1, f2 := fuel - 1, fuel - 2;
    EvaluateReduces(Machine([], frames), UnaryOperation(op, Operand(t)), [v, o], fuel, f1);
    ReverseTwo(v, o);
    ReduceUnary(op.kind, v, frames, f1, f2);
  }

  /** `not` on an int pushes nothing, so the evaluation fails on the empty stack. */
  lemma NotOfIntegerFails(frames: Chain, i: int32, fuel: nat)
    requires fuel >= 3
    ensures Evaluate(Machine([], frames), UnaryOperation(Token(NOT, Some("not")), Operand(IntToken(i))), fuel)
            == Failure(Thrown(EmptyStack, Machine([], frames)))
  {
    CreateInteger(i);
    UnaryOnOperand(frames, Token(NOT, Some("not")), IntToken(i), IntV(i), fuel);
  }

  /** A tree that pushes nothing (a statement other than a declaration or an expression)
      evaluates to null and changes nothing. */
  lemma NothingPushedIsNull(m: Machine, n: Node, fuel: nat)
    requires m.stack == [] && fuel > 0
    requires n.If? || n.While? || n.Match? || n.FunctionDeclare? || n.Return? || n == Block([])
    ensures Evaluate(m, n, fuel) == Success((NullValue, m))
  {
  }

  // ---- Variables ----

  /** The stack value of a name. */
  function IdentV(x: string): StackValue
  {
    StackValue(Identifier, BString(x))
  }

  /** A declaration pushes its initial value's items (null without one), the name and VAR. */
  lemma VisitDeclare(stack: seq<StackValue>, x: string, init: Option<Node>, s1: seq<StackValue>)
    requires init.None? ==> s1 == stack + [NullValue]
    requires init.Some? ==> Visit(stack, init.value) == Success(s1)
    ensures Visit(stack, VariableDeclare(Token(IDENT, Some(x)), init)) == Success(s1 + [IdentV(x), OperatorValue(VAR)])
  {
  }

  /** An assignment pushes its expression's items, the name and ASSIGN. */
  lemma VisitAssign(stack: seq<StackValue>, x: string, e: Node, s1: seq<StackValue>)
    requires Visit(stack, e) == Success(s1)
    ensures Visit(stack, Assignment(Token(IDENT, Some(x)), e)) == Success(s1 + [IdentV(x), OperatorValue(ASSIGN)])
  {
  }

  /** The VAR branch on a resolved value: an error when the name is bound in the current scope,
      otherwise the value is stored there and read back. */
  lemma DeclareStepResult(frames: Chain, x: string, v: StackValue)
    requires v.kind != Identifier
    ensures BoundLocally(frames, x) ==> DeclareStep(frames, v, IdentV(x)) == Failure(Thrown(AlreadyDefined(x), frames))
    ensures !BoundLocally(frames, x) ==>
              DeclareStep(frames, v, IdentV(x)) == Stash(Classify(v.value), Defined(frames, x, v.value))
  {
    if !BoundLocally(frames, x) {
      var f: Chain := Defined(frames, x, v.value);
      assert f[0] == frames[0][x := v.value];
    }
  }

  /** The ASSIGN branch on a resolved value: an error unless the name is bound in the current
      scope, otherwise the value is stored there and read back. */
  lemma AssignStepResult(frames: Chain, x: string, v: StackValue)
    requires v.kind != Identifier
    ensures !BoundLocally(frames, x) ==> AssignStep(frames, v, IdentV(x)) == Failure(Thrown(NotDefined(x), frames))
    ensures BoundLocally(frames, x) ==>
              AssignStep(frames, v, IdentV(x)) == Stash(Classify(v.value), Assigned(frames, x, v.value))
    ensures BoundLocally(frames, x) ==> Assigned(frames, x, v.value) == frames[0 := frames[0][x := v.value]]
  {
    if BoundLocally(frames, x) {
      AssignThenGet(frames, x, v.value, x, 0);
      var f: Chain := Assigned(frames, x, v.value);
      assert f[0] == frames[0][x := v.value];
    }
  }

  /** A value read back, together with the scope chain it was read from, which an exception
      is thrown with as well. */
  function Stash(r: Result<StackValue, RuntimeError>, f: Chain): Result<(StackValue, Chain), Thrown<Chain>>
  {
    match r
    case Success(w) => Success((w, f))
    case Failure(e) => Failure(Thrown(e, f))
  }

  /** What the loop ends with after a declaration or assignment step `p` on an otherwise
      empty stack. */
  function Finished(p: Result<(StackValue, Chain), Thrown<Chain>>): Result<(StackValue, Machine), Thrown<Machine>>
  {
    match p
    case Success(q) => Success((q.0, Machine([], q.1)))
    case Failure(t) => Failure(Thrown(t.error, Machine([], t.state)))
  }

  /** A declaration or assignment whose three items are `v`, the name and the operator `k`
      runs the loop on them, the operator at the bottom. */
  lemma StoreRuns(frames: Chain, n: Node, x: string, v: StackValue, k: TokenKind, fuel: nat)
    requires fuel > 0 && Visit([], n) == Success([v, IdentV(x), OperatorValue(k)])
    ensures Evaluate(Machine([], frames), n, fuel) == Reduce(Machine([] + [OperatorValue(k), IdentV(x), v], frames), fuel - 1)
  {
    EvaluateReduces(Machine([], frames), n, [v, IdentV(x), OperatorValue(k)], fuel, fuel - 1);
    ReverseThree(v, IdentV(x), OperatorValue(k));
  }

  /** A declaration or assignment whose items take one step `p` of the loop ends with what
      that step leaves. */
  lemma StoreEvaluates(frames: Chain, n: Node, x: string, v: StackValue, k: TokenKind, fuel: nat, p: Result<(StackValue, Chain), Thrown<Chain>>)
    requires fuel >= 3 && Visit([], n) == Success([v, IdentV(x), OperatorValue(k)])
    requires ReduceStep(Machine([] + [OperatorValue(k), IdentV(x), v], frames), fuel - 1) == Stored(p, [])
    requires p.Success? ==> p.value.0.kind != ValType.FunctionCall && p.value.0.kind != Identifier
    ensures Evaluate(Machine([], frames), n, fuel) == Finished(p)
  {
    StoreRuns(frames, n, x, v, k, fuel);
    ReduceStored([] + [OperatorValue(k), IdentV(x), v], p, frames, fuel - 1, fuel - 2);
  }

  /** A declaration whose three items are `v`, the name and VAR ends with what its step
      leaves. */
  lemma DeclareEvaluates(frames: Chain, n: Node, x: string, v: StackValue, fuel: nat)
    requires fuel >= 3 && v.kind !in {Operator, Identifier, ValType.FunctionCall}
    requires Visit([], n) == Success([v, IdentV(x), OperatorValue(VAR)])
    ensures Evaluate(Machine([], frames), n, fuel) == Finished(DeclareStep(frames, v, IdentV(x)))
  {
    StepDeclare([], IdentV(x), v, frames, fuel - 1);
    StoreEvaluates(frames, n, x, v, VAR, fuel, DeclareStep(frames, v, IdentV(x)));
  }

  /** An assignment whose three items are `v`, the name and ASSIGN ends with what its step
      leaves. */
  lemma AssignEvaluates(frames: Chain, n: Node, x: string, v: StackValue, fuel: nat)
    requires fuel >= 3 && v.kind !in {Operator, Identifier, ValType.FunctionCall}
    requires Visit([], n) == Success([v, IdentV(x), OperatorValue(ASSIGN)])
    ensures Evaluate(Machine([], frames), n, fuel) == Finished(AssignStep(frames, v, IdentV(x)))
  {
    StepAssign([], IdentV(x), v, frames, fuel - 1);
    StoreEvaluates(frames, n, x, v, ASSIGN, fuel, AssignStep(frames, v, IdentV(x)));
  }

  /** The loop over the items of a declaration or assignment, once its step `p` is known. */
  lemma ReduceStored(s: seq<StackValue>, p: Result<(StackValue, Chain), Thrown<Chain>>, frames: Chain, fuel: nat, next: nat)
    requires fuel == next + 1 && next > 0 && s != []
    requires ReduceStep(Machine(s, frames), fuel) == Stored(p, [])
    requires p.Success? ==> p.value.0.kind != ValType.FunctionCall && p.value.0.kind != Identifier
    ensures Reduce(Machine(s, frames), fuel) == Finished(p)
  {
    if p.Success? {
      ReduceContinues(Machine(s, frames), Machine([] + [p.value.0], p.value.1), fuel, next);
      ReduceLast([] + [p.value.0], p.value.0, p.value.1, next);
    } else {
      ReduceFails(Machine(s, frames), fuel);
    }
  }

  /** `var x = t` on a literal: it fails when `x` is bound in the current scope; otherwise `x`
      is defined there with the literal's value and the result is that value read back. */
  lemma DeclareLiteral(frames: Chain, x: string, t: Token, v: StackValue, fuel: nat)
    requires CreateStackValue(t) == Success(v) && v.kind !in {Operator, Identifier}
    requires fuel >= 3
    ensures var r := Evaluate(Machine([], frames), VariableDeclare(Token(IDENT, Some(x)), Some(Operand(t))), fuel);
            && (BoundLocally(frames, x) ==> r == Failure(Thrown(AlreadyDefined(x), Machine([], frames))))
            && (!BoundLocally(frames, x) ==> r == Paired(Classify(v.value), Machine([], Defined(frames, x, v.value))))
            && (!BoundLocally(frames, x) ==> Lookup(Defined(frames, x, v.value), x) == v.value)
  {
    var n := VariableDeclare(Token(IDENT, Some(x)), Some(Operand(t)));
    VisitOperand([], t, v);
    VisitDeclare([], x, Some(Operand(t)), [] + [v]);
    assert [] + [v] + [IdentV(x), OperatorValue(VAR)] == [v, IdentV(x), OperatorValue(VAR)];
    DeclareEvaluates(frames, n, x, v, fuel);
    DeclareStepResult(frames, x, v);
    if !BoundLocally(frames, x) {
      DefineThenGet(frames, x, v.value, x);
    }
  }

  /** `var x` without an initializer defines `x` as null. */
  lemma DeclareWithoutInitializer(frames: Chain, x: string, fuel: nat)
    requires fuel >= 3
    ensures var r := Evaluate(Machine([], frames), VariableDeclare(Token(IDENT, Some(x)), None), fuel);
            && (BoundLocally(frames, x) ==> r == Failure(Thrown(AlreadyDefined(x), Machine([], frames))))
            && (!BoundLocally(frames, x) ==> r == Success((NullValue, Machine([], Defined(frames, x, BNull)))))
  {
    var n := VariableDeclare(Token(IDENT, Some(x)), None);
    VisitDeclare([], x, None, [] + [NullValue]);
    assert [] + [NullValue] + [IdentV(x), OperatorValue(VAR)] == [NullValue, IdentV(x), OperatorValue(VAR)];
    DeclareEvaluates(frames, n, x, NullValue, fuel);
    DeclareStepResult(frames, x, NullValue);
  }

  /** The `null` literal carries the string "null", so a variable declared with it reads back
      as that string, not as null. */
  lemma NullLiteralReadsBackAsString(frames: Chain, x: string, fuel: nat)
    requires !BoundLocally(frames, x) && fuel >= 3
    ensures Evaluate(Machine([], frames), VariableDeclare(Token(IDENT, Some(x)), Some(Operand(Token(NULL, Some("null"))))), fuel)
            == Success((StrV("null"), Machine([], Defined(frames, x, BString("null")))))
  {
    DeclareLiteral(frames, x, Token(NULL, Some("null")), StackValue(Null, BString("null")), fuel);
  }

  /** A type literal stored in a variable cannot be read back: the boxed enum is of no kind
      `ResolveStackValue` knows. The definition made before the read stays. */
  lemma TypeLiteralCannotBeStored(frames: Chain, x: string, fuel: nat)
    requires !BoundLocally(frames, x) && fuel >= 3
    ensures Evaluate(Machine([], frames), VariableDeclare(Token(IDENT, Some(x)), Some(Operand(Token(TYPE, Some("INT"))))), fuel)
            == Failure(Thrown(UnknownValueType, Machine([], Defined(frames, x, BValType(Integer)))))
  {
    DeclareLiteral(frames, x, Token(TYPE, Some("INT")), TypeV(Integer), fuel);
  }

  /** `x = t` on a literal: it fails unless `x` is bound in the current scope; otherwise that
      binding is overwritten and the result is the new value read back. */
  lemma AssignLiteral(frames: Chain, x: string, t: Token, v: StackValue, fuel: nat)
    requires CreateStackValue(t) == Success(v) && v.kind !in {Operator, Identifier}
    requires fuel >= 3
    ensures var r := Evaluate(Machine([], frames), Assignment(Token(IDENT, Some(x)), Operand(t)), fuel);
            && (!BoundLocally(frames, x) ==> r == Failure(Thrown(NotDefined(x), Machine([], frames))))
            && (BoundLocally(frames, x) ==> r == Paired(Classify(v.value), Machine([], Assigned(frames, x, v.value))))
            && (BoundLocally(frames, x) ==> Assigned(frames, x, v.value) == frames[0 := frames[0][x := v.value]])
  {
    var n := Assignment(Token(IDENT, Some(x)), Operand(t));
    VisitOperand([], t, v);
    VisitAssign([], x, Operand(t), [] + [v]);
    assert [] + [v] + [IdentV(x), OperatorValue(ASSIGN)] == [v, IdentV(x), OperatorValue(ASSIGN)];
    AssignEvaluates(frames, n, x, v, fuel);
    AssignStepResult(frames, x, v);
  }

  /** `fun f`: it fails when the name is bound in the current scope; otherwise the name is
      bound there to the declaration, and no other name changes. */
  lemma DeclareFunction(m: Machine, d: FunctionDeclaration, y: string, fuel: nat)
    requires fuel > 0
    ensures var r := Exec(m, FunctionDeclare(d), fuel);
            && (BoundLocally(m.frames, d.signature.name) ==> r == Failure(Thrown(AlreadyDefined(d.signature.name), m)))
            && (!BoundLocally(m.frames, d.signature.name) ==>
                  r.Success? && r.value.stack == m.stack
                  && Lookup(r.value.frames, d.signature.name) == BFunction(d)
                  && (y != d.signature.name ==> Lookup(r.value.frames, y) == Lookup(m.frames, y)))
  {
    ExecDeclares(m, d, fuel);
    if !BoundLocally(m.frames, d.signature.name) {
      DefineLooksUp(m.frames, d.signature.name, BFunction(d), y);
    }
  }

  /** The statement `fun f` in one step. */
  lemma ExecDeclares(m: Machine, d: FunctionDeclaration, fuel: nat)
    ensures fuel > 0 && BoundLocally(m.frames, d.signature.name) ==>
              Exec(m, FunctionDeclare(d), fuel) == Failure(Thrown(AlreadyDefined(d.signature.name), m))
    ensures fuel > 0 && !BoundLocally(m.frames, d.signature.name) ==>
              Exec(m, FunctionDeclare(d), fuel) == Success(m.(frames := Defined(m.frames, d.signature.name, BFunction(d))))
  {
  }

  /** What a lookup finds after a definition in the current scope. */
  lemma DefineLooksUp(frames: Chain, x: string, v: Boxed, y: string)
    requires !BoundLocally(frames, x)
    ensures Lookup(Defined(frames, x, v), x) == v
    ensures y != x ==> Lookup(Defined(frames, x, v), y) == Lookup(frames, y)
  {
    DefineThenGet(frames, x, v, y);
  }

  // ---- Control flow ----

  const FalseToken := Token(BOOL, Some("false"))
  const TrueToken := Token(BOOL, Some("true"))

  /** A literal on its own evaluates to its value and leaves the machine as it was. */
  lemma EvaluateLiteral(m: Machine, t: Token, v: StackValue, fuel: nat, next: nat)
    requires m.stack == [] && fuel == next + 1 && next > 0
    requires CreateStackValue(t) == Success(v) && v.kind != Identifier
    ensures Evaluate(m, Operand(t), fuel) == Success((v, m))
  {
    VisitOperand([], t, v);
    EvaluateReduces(m, Operand(t), [] + [v], fuel, next);
    ReverseOne(v);
    ReduceLast([v], v, m.frames, next);
    assert m == Machine([], m.frames);
  }

  /** A `while` statement hands its budget, less one, to the loop. */
  lemma ExecWhileStep(m: Machine, c: Node, body: Node, fuel: nat, next: nat)
    requires fuel == next + 1
    ensures Exec(m, While(c, body), fuel) == ExecWhile(m, c, body, next)
  {
  }

  /** A false condition ends the loop in the state the condition left. */
  lemma WhileExit(m: Machine, c: Node, body: Node, fuel: nat, next: nat, v: StackValue, m1: Machine)
    requires fuel == next + 1 && Evaluate(m, c, next) == Success((v, m1))
    requires Truthify(m1.frames, v) == Success(false)
    ensures ExecWhile(m, c, body, fuel) == Success(m1)
  {
  }

  /** A true condition runs the body, and the loop goes on from the state the body left. */
  lemma WhileIterate(m: Machine, c: Node, body: Node, fuel: nat, next: nat, v: StackValue, m1: Machine, m2: Machine)
    requires fuel == next + 1 && Evaluate(m, c, next) == Success((v, m1))
    requires Truthify(m1.frames, v) == Success(true) && Exec(m1, body, next) == Success(m2)
    ensures ExecWhile(m, c, body, fuel) == ExecWhile(m2, c, body, next)
  {
  }

  /** `while (false)` does not run its body. */
  lemma WhileFalseSkipsBody(m: Machine, body: Node, fuel: nat)
    requires m.stack == [] && fuel >= 4
    ensures Exec(m, While(Operand(FalseToken), body), fuel) == Success(m)
  {
    var f1, f2, f3 := fuel - 1, fuel - 2, fuel - 3;
    CreateBool(false);
    ExecWhileStep(m, Operand(FalseToken), body, fuel, f1);
    EvaluateLiteral(m, FalseToken, BoolV(false), f2, f3);
    WhileExit(m, Operand(FalseToken), body, f1, f2, BoolV(false), m);
  }

  /** With one unit of budget a literal is pushed, but the loop has none left. */
  lemma EvaluateLiteralNoFuel(m: Machine, t: Token, v: StackValue)
    requires CreateStackValue(t) == Success(v)
    ensures Evaluate(m, Operand(t), 1) == Failure(Thrown(OutOfFuel, Machine(Reverse(m.stack + [v]), m.frames)))
  {
    VisitOperand(m.stack, t, v);
  }

  /** `while (true) {}` never ends: whatever the budget, it is used up. */
  lemma {:induction false} WhileTrueNeverEnds(m: Machine, fuel: nat)
    requires m.stack == []
    ensures var r := ExecWhile(m, Operand(TrueToken), Block([]), fuel); r.Failure? && r.error.error == OutOfFuel
    decreases fuel
  {
    CreateBool(true);
    if fuel >= 3 {
      var f1, f2 := fuel - 1, fuel - 2;
      EvaluateLiteral(m, TrueToken, BoolV(true), f1, f2);
      assert Exec(m, Block([]), f1) == Success(m);
      WhileIterate(m, Operand(TrueToken), Block([]), fuel, f1, BoolV(true), m, m);
      WhileTrueNeverEnds(m, f1);
    } else if fuel == 2 {
      EvaluateLiteralNoFuel(m, TrueToken, BoolV(true));
    }
  }

  /** `match` runs the first arm whose kind is the subject's kind. */
  lemma MatchRunsFirstArm(m: Machine, subject: Node, cases: seq<MatchCase>, dflt: Option<Node>, fuel: nat, v: StackValue, m1: Machine, i: nat)
    requires fuel > 0 && Evaluate(m, subject, fuel - 1) == Success((v, m1))
    requires i < |cases| && cases[i].caseType == v.kind
    requires forall j :: 0 <= j < i ==> cases[j].caseType != v.kind
    ensures Exec(m, Match(subject, cases, dflt), fuel) == Exec(m1, cases[i].statement, fuel - 1)
  {
    var arm := FirstMatch(cases, v.kind);
    var k :| 0 <= k < |cases| && cases[k].caseType == v.kind && cases[k].statement == arm.value
             && forall j :: 0 <= j < k ==> cases[j].caseType != v.kind;
    assert k == i;
  }

  /** With no arm of the subject's kind, `match` runs the default, or nothing. */
  lemma MatchFallsToDefault(m: Machine, subject: Node, cases: seq<MatchCase>, dflt: Option<Node>, fuel: nat, v: StackValue, m1: Machine)
    requires fuel > 0 && Evaluate(m, subject, fuel - 1) == Success((v, m1))
    requires forall j :: 0 <= j < |cases| ==> cases[j].caseType != v.kind
    ensures dflt.Some? ==> Exec(m, Match(subject, cases, dflt), fuel) == Exec(m1, dflt.value, fuel - 1)
    ensures dflt.None? ==> Exec(m, Match(subject, cases, dflt), fuel) == Success(m1)
  {
  }

  // ---- Function calls ----

  /** The parameter loop binds parameter j to argument j in the new scope, for every j from
      `i` on, when the names are distinct and new there; the outer scopes are untouched. */
  lemma {:induction false} BindDistinct(d: FunctionDeclaration, names: seq<string>, args: seq<StackValue>, i: nat, frames: Chain)
    requires d.parameterNames == Some(names) && |args| <= |names| && i <= |args|
    requires forall j, k :: i <= j < k < |args| ==> names[j] != names[k]
    requires forall j :: i <= j < |args| ==> names[j] !in frames[0]
    ensures Bind(Some(d), args, i, frames).Success?
    ensures var r := Bind(Some(d), args, i, frames).value;
            && r[1..] == frames[1..]
            && (forall j :: i <= j < |args| ==> names[j] in r[0] && r[0][names[j]] == args[j].value)
            && (forall y :: y in frames[0] ==> y in r[0] && r[0][y] == frames[0][y])
            && (forall y :: y in r[0] ==> y in frames[0] || exists j :: i <= j < |args| && y == names[j])
    decreases |args| - i
  {
    if i < |args| {
      var f: Chain := Defined(frames, names[i], args[i].value);
      assert f[0] == frames[0][names[i] := args[i].value];
      BindDistinct(d, names, args, i + 1, f);
    }
  }

  /** A call binds argument j to parameter name j in a fresh child of the current scope. */
  lemma CallBindsParameters(d: FunctionDeclaration, names: seq<string>, args: seq<StackValue>, frames: Chain)
    requires d.parameterNames == Some(names) && |args| <= |names|
    requires forall j, k :: 0 <= j < k < |args| ==> names[j] != names[k]
    ensures var r := Bind(Some(d), args, 0, [map[]] + frames);
            && r.Success? && r.value[1..] == frames
            && (forall j :: 0 <= j < |args| ==> Lookup(r.value, names[j]) == args[j].value)
            && (forall y :: y in r.value[0] <==> exists j :: 0 <= j < |args| && y == names[j])
  {
    BindDistinct(d, names, args, 0, [map[]] + frames);
    var r := Bind(Some(d), args, 0, [map[]] + frames).value;
    forall j | 0 <= j < |args|
      ensures Lookup(r, names[j]) == args[j].value
    {
      assert NearestAt(r, names[j], 0);
    }
  }

  /** A callee with fewer parameter names than arguments, or none, makes the call fail. */
  lemma BindFailures(fn: Option<FunctionDeclaration>, args: seq<StackValue>, frames: Chain)
    requires |args| > 0
    ensures fn.None? ==> Bind(fn, args, 0, frames) == Failure(NullReference)
    ensures fn.Some? && fn.value.parameterNames.None? ==> Bind(fn, args, 0, frames) == Failure(NullReference)
    ensures fn.Some? && fn.value.parameterNames.Some? && fn.value.parameterNames.value == [] ==>
              Bind(fn, args, 0, frames) == Failure(IndexOutOfRange)
  {
  }

  /** A call node pushes one item: the call itself. */
  lemma VisitCall(stack: seq<StackValue>, name: string, ps: seq<Node>)
    ensures Visit(stack, Node.FunctionCall(name, ps)) == Success(stack + [CallValue(name, ps)])
  {
  }

  /** The stack item of a call. */
  function CallValue(name: string, ps: seq<Node>): StackValue
  {
    StackValue(ValType.FunctionCall, BCall(Node.FunctionCall(name, ps)))
  }

  /** A pass whose left operand is a call makes the call on what lies under it. */
  lemma ReduceStepOfCall(m: Machine, fuel: nat)
    requires fuel > 0 && m.stack != [] && Top(m.stack).kind == ValType.FunctionCall
    ensures ReduceStep(m, fuel) == CallPass(Machine(Popped(m.stack), m.frames), Top(m.stack).value, fuel - 1)
  {
  }

  /** The pass of a call whose callee returns hands on the state the call leaves. */
  lemma CallPassMakesCall(m: Machine, name: string, ps: seq<Node>, fuel: nat, m': Machine)
    requires Call(m, name, ps, fuel) == Success(m')
    ensures CallPass(m, CallValue(name, ps).value, fuel) == Success(Continue(m'))
  {
    assert CallTarget(CallValue(name, ps).value) == Success((name, ps));
  }

  /** A call without arguments of a declared function with a body runs the body in a fresh
      child of the current scope, and only the global scope stays current. */
  lemma CallWithoutArguments(m: Machine, name: string, d: FunctionDeclaration, fuel: nat, next: nat)
    requires fuel == next + 1 && Lookup(m.frames, name) == BFunction(d)
    ensures Call(m, name, [], fuel) == Enter(Machine(m.stack, [map[]] + m.frames), d, next)
  {
    assert Arguments(m, [], 0, [], next) == Success(([], m));
    CallInvokes(m, name, [], fuel, [], m);
    assert FunctionOf(Lookup(m.frames, name)) == Some(d);
    assert Bind(Some(d), [], 0, [map[]] + m.frames) == Success([map[]] + m.frames);
  }

  /** `return e` pushes the value of `e` onto the stack its evaluation left. */
  lemma ExecReturn(m: Machine, e: Node, fuel: nat, next: nat, v: StackValue, m1: Machine)
    requires fuel == next + 1 && Evaluate(m, e, next) == Success((v, m1))
    ensures Exec(m, Return(Some(e)), fuel) == Success(Machine(m1.stack + [v], m1.frames))
  {
  }

  /** The body `return t` of a callee leaves the literal's value as the only item. */
  lemma CallReturnsLiteral(frames: Chain, name: string, d: FunctionDeclaration, t: Token, v: StackValue,
                           f2: nat, f3: nat, f4: nat, f5: nat)
    requires Lookup(frames, name) == BFunction(d) && d.body == Some(Return(Some(Operand(t))))
    requires CreateStackValue(t) == Success(v) && v.kind != Identifier
    requires f2 == f3 + 1 && f3 == f4 + 1 && f4 == f5 + 1 && f5 > 0
    ensures Call(Machine([], frames), name, [], f2) == Success(Machine([] + [v], [frames[|frames| - 1]]))
  {
    var inner := Machine([], [map[]] + frames);
    assert inner.frames[|inner.frames| - 1] == frames[|frames| - 1];
    CallWithoutArguments(Machine([], frames), name, d, f2, f3);
    EnterReturnsLiteral(inner, d, t, v, f3, f4, f5);
  }

  /** A callee whose body is `return t`, entered on an empty stack, leaves the literal's value
      as the only item. */
  lemma EnterReturnsLiteral(inner: Machine, d: FunctionDeclaration, t: Token, v: StackValue, f3: nat, f4: nat, f5: nat)
    requires inner.stack == [] && d.body == Some(Return(Some(Operand(t))))
    requires CreateStackValue(t) == Success(v) && v.kind != Identifier
    requires f3 == f4 + 1 && f4 == f5 + 1 && f5 > 0
    ensures Enter(inner, d, f3) == Success(Machine([] + [v], [inner.frames[|inner.frames| - 1]]))
  {
    EvaluateLiteral(inner, t, v, f4, f5);
    ExecReturn(inner, Operand(t), f3, f4, v, inner);
  }

  /** A call of a function whose body is `return t` hands back the literal's value through the
      stack, and afterwards only the global scope is current. */
  lemma CallReturnsThroughStack(frames: Chain, name: string, d: FunctionDeclaration, t: Token, v: StackValue, fuel: nat)
    requires Lookup(frames, name) == BFunction(d) && d.body == Some(Return(Some(Operand(t))))
    requires CreateStackValue(t) == Success(v) && v.kind !in {Operator, Identifier}
    requires fuel >= 6
    ensures Evaluate(Machine([], frames), Node.FunctionCall(name, []), fuel) == Success((v, Machine([], [frames[|frames| - 1]])))
  {
    CallReturnsLiteral(frames, name, d, t, v, fuel - 2, fuel - 3, fuel - 4, fuel - 5);
    CallValueReturns(frames, name, v, [frames[|frames| - 1]], fuel);
  }

  /** A call without arguments that leaves the one resolved item `v` evaluates to `v`. */
  lemma CallValueReturns(frames: Chain, name: string, v: StackValue, g: Chain, fuel: nat)
    requires fuel >= 3 && v.kind !in {Identifier, ValType.FunctionCall}
    requires Call(Machine([], frames), name, [], fuel - 2) == Success(Machine([] + [v], g))
    ensures Evaluate(Machine([], frames), Node.FunctionCall(name, []), fuel) == Success((v, Machine([], g)))
  {
    CallEvaluates(frames, name, Machine([] + [v], g), fuel);
    ReduceLast([] + [v], v, g, fuel - 2);
  }

  /** Evaluating a call without arguments makes the call, then goes on with the state it
      leaves. */
  lemma CallEvaluates(frames: Chain, name: string, m': Machine, fuel: nat)
    requires fuel >= 2 && Call(Machine([], frames), name, [], fuel - 2) == Success(m')
    ensures Evaluate(Machine([], frames), Node.FunctionCall(name, []), fuel) == Reduce(m', fuel - 2)
  {
    EvaluateLoneCall(frames, name, fuel);
    LoneCallReduces(frames, name, m', fuel - 1);
  }

  /** A call without arguments pushes the call item alone, and the loop starts on it. */
  lemma EvaluateLoneCall(frames: Chain, name: string, fuel: nat)
    requires fuel >= 1
    ensures Evaluate(Machine([], frames), Node.FunctionCall(name, []), fuel) == Reduce(Machine([] + [CallValue(name, [])], frames), fuel - 1)
  {
    var cv := CallValue(name, []);
    VisitCall([], name, []);
    EvaluateReduces(Machine([], frames), Node.FunctionCall(name, []), [] + [cv], fuel, fuel - 1);
    ReverseOne(cv);
  }

  /** A lone call item makes the call and the loop goes on with the state it leaves. */
  lemma LoneCallReduces(frames: Chain, name: string, m': Machine, fuel: nat)
    requires fuel > 0 && Call(Machine([], frames), name, [], fuel - 1) == Success(m')
    ensures Reduce(Machine([] + [CallValue(name, [])], frames), fuel) == Reduce(m', fuel - 1)
  {
    LoneCallStep(frames, name, fuel);
    CallPassMakesCall(Machine([], frames), name, [], fuel - 1, m');
    ReduceContinues(Machine([] + [CallValue(name, [])], frames), m', fuel, fuel - 1);
  }

  /** The pass on a lone call item makes the call. */
  lemma LoneCallStep(frames: Chain, name: string, fuel: nat)
    ensures [] + [CallValue(name, [])] != []
    ensures fuel > 0 ==> ReduceStep(Machine([] + [CallValue(name, [])], frames), fuel) == CallPass(Machine([], frames), CallValue(name, []).value, fuel - 1)
  {
    var cv := CallValue(name, []);
    assert Top([] + [cv]) == cv && Popped([] + [cv]) == [];
    if fuel > 0 {
      ReduceStepOfCall(Machine([] + [cv], frames), fuel);
    }
  }

  // ---- What an exception leaves behind ----

  /** The interpreter object outlives an input that throws, and nothing resets its stack: the
      two operators `RightNestingIsMisread` leaves are read with the next input. `5` is
      pushed onto them, the top minus is applied as a unary operator to the other minus,
      which is undefined, and the 5 stays behind in turn. */
  lemma LeftoverSpoilsNextInput(frames: Chain, fuel: nat)
    requires fuel >= 2
    ensures Evaluate(Machine(Leftover, frames), Operand(IntToken(5)), fuel) == Failure(Thrown(Undefined, Machine([IntV(5)], frames)))
  {
    var s := Leftover + [IntV(5)];
    CreateInteger(5);
    VisitOperand(Leftover, IntToken(5), IntV(5));
    EvaluateReduces(Machine(Leftover, frames), Operand(IntToken(5)), s, fuel, fuel - 1);
    assert Reverse(s) == [IntV(5)] + [OperatorValue(MINUS), OperatorValue(MINUS)];
    UnaryTable(OperatorValue(MINUS), 0, false);
    StepUnary([IntV(5)], MINUS, OperatorValue(MINUS), frames, fuel - 1);
    ReduceFails(Machine(Reverse(s), frames), fuel - 1);
  }

  /** A call whose callee body throws (`return;`, whose null value the interpreter
      dereferences) skips the reset to the global scope: the exception leaves the callee's
      scope current, and the next input runs in it. */
  lemma CallOfRaisingBodyKeepsScope(frames: Chain, name: string, d: FunctionDeclaration, fuel: nat)
    requires Lookup(frames, name) == BFunction(d) && d.body == Some(Return(None)) && fuel >= 4
    ensures Evaluate(Machine([], frames), Node.FunctionCall(name, []), fuel)
            == Failure(Thrown(NullReference, Machine([], [map[]] + frames)))
  {
    var t := Thrown(NullReference, Machine([], [map[]] + frames));
    CallOfRaisingBody(frames, name, d, fuel - 2);
    EvaluateLoneCall(frames, name, fuel);
    LoneCallFails(frames, name, t, fuel - 1);
  }

  /** The call itself throws with the callee's scope current. */
  lemma CallOfRaisingBody(frames: Chain, name: string, d: FunctionDeclaration, fuel: nat)
    requires Lookup(frames, name) == BFunction(d) && d.body == Some(Return(None)) && fuel >= 2
    ensures Call(Machine([], frames), name, [], fuel) == Failure(Thrown(NullReference, Machine([], [map[]] + frames)))
  {
    CallWithoutArguments(Machine([], frames), name, d, fuel, fuel - 1);
    EnterRaising(Machine([], [map[]] + frames), d, fuel - 1);
  }

  /** A callee whose body is `return;` throws in the state it was entered in. */
  lemma EnterRaising(inner: Machine, d: FunctionDeclaration, fuel: nat)
    requires d.body == Some(Return(None)) && fuel >= 1
    ensures Enter(inner, d, fuel) == Failure(Thrown(NullReference, inner))
  {
    assert Exec(inner, Return(None), fuel) == Failure(Thrown(NullReference, inner));
  }

  /** A lone call item whose call throws ends the loop with that exception. */
  lemma LoneCallFails(frames: Chain, name: string, t: Thrown<Machine>, fuel: nat)
    requires fuel > 0 && Call(Machine([], frames), name, [], fuel - 1) == Failure(t)
    ensures Reduce(Machine([] + [CallValue(name, [])], frames), fuel) == Failure(t)
  {
    var cv := CallValue(name, []);
    LoneCallStep(frames, name, fuel);
    assert CallTarget(cv.value) == Success((name, []));
    assert CallPass(Machine([], frames), cv.value, fuel - 1) == Failure(t);
    ReduceFails(Machine([] + [cv], frames), fuel);
  }

  /** The callee `d` as the design intends: its scope is released on every exit, so the
      outermost scope alone is current afterwards whether the body returns or throws. */
  function EnterReleasing(inner: Machine, d: FunctionDeclaration, fuel: nat): (r: Result<Machine, Thrown<Machine>>)
    ensures r.Success? ==> |r.value.frames| == 1
    ensures r.Failure? ==> |r.error.state.frames| == 1
  {
    match if d.body.None? then Success(inner) else Exec(inner, d.body.value, fuel)
    case Success(m2) => Success(Machine(m2.stack, [m2.frames[|m2.frames| - 1]]))
    case Failure(t) => Failure(Thrown(t.error, Machine(t.state.stack, [t.state.frames[|t.state.frames| - 1]])))
  }

  /** The releasing callee agrees with `Enter` when the body returns; when it throws, the
      error, the stack and the outermost scope are the same and the callee's scopes are gone. */
  lemma EnterReleasingAgrees(inner: Machine, d: FunctionDeclaration, fuel: nat)
    ensures var r := Enter(inner, d, fuel);
            r.Success? ==> EnterReleasing(inner, d, fuel) == r
    ensures var r := Enter(inner, d, fuel);
            r.Failure? ==> EnterReleasing(inner, d, fuel)
                           == Failure(Thrown(r.error.error, Machine(r.error.state.stack, [r.error.state.frames[|r.error.state.frames| - 1]])))
  {
  }

  /** With the release, the throwing callee of `CallOfRaisingBodyKeepsScope` leaves the
      global scope current. */
  lemma ReleasingRaisingBody(frames: Chain, d: FunctionDeclaration, fuel: nat)
    requires d.body == Some(Return(None)) && fuel >= 1
    ensures EnterReleasing(Machine([], [map[]] + frames), d, fuel)
            == Failure(Thrown(NullReference, Machine([], [frames[|frames| - 1]])))
  {
    var inner := Machine([], [map[]] + frames);
    assert Exec(inner, Return(None), fuel) == Failure(Thrown(NullReference, inner));
    assert inner.frames[|inner.frames| - 1] == frames[|frames| - 1];
  }
}
