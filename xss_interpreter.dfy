/** The XSS interpreter object (XSS/Visitor/Interpreter.cs): the evaluation stack and the
    current scope chain are its fields, and the visit, the stack reversal, the reduction
    loop, function calls and statement execution are methods that change them step by step.
    Each method is proved to do what the function of the same part in `XssEvaluation`
    says, so the facts proved there hold of the object: the value or the exception, and the
    stack and scopes it leaves, on an exception too. The scope objects are represented
    by the chain of their dictionaries, innermost first; the last one is `Global`. */
module XssInterpreter {
  import opened Wrappers
  import opened Tokens
  import opened XssOperand
  import opened XssAst
  import opened XssValues
  import opened XssScope
  import opened XssOperators
  import opened XssEvaluation
  import opened Stacks
  import opened XssEvaluationFacts

  class Interpreter {
    /** `EvaluationStack`; its last item is the top. */
    var stack: seq<StackValue>
    /** The dictionaries seen from `CurrentScope`, innermost first; the last is `Global`. */
    var frames: Chain

    function State(): Machine
      reads this
    {
      Machine(stack, frames)
    }

    /** A method without a value did what a statement-level function says; an exception
        leaves the state it is thrown in. */
    predicate Reached(r: Outcome<RuntimeError>, spec: Result<Machine, Thrown<Machine>>)
      reads this
    {
      match spec
      case Success(m) => r == Pass && State() == m
      case Failure(t) => r == Fail(t.error) && State() == t.state
    }

    /** A method with a value did what an expression-level function says. */
    predicate Returned(r: Result<StackValue, RuntimeError>, spec: Result<(StackValue, Machine), Thrown<Machine>>)
      reads this
    {
      match spec
      case Success(p) => r == Success(p.0) && State() == p.1
      case Failure(t) => r == Failure(t.error) && State() == t.state
    }

    /** The argument loop did what `Arguments` says. */
    predicate Gathered(r: Result<seq<StackValue>, RuntimeError>, spec: Result<(seq<StackValue>, Machine), Thrown<Machine>>)
      reads this
    {
      match spec
      case Success(p) => r == Success(p.0) && State() == p.1
      case Failure(t) => r == Failure(t.error) && State() == t.state
    }

    /** One pass of the reduction loop did what `ReduceStep` says: `None` goes on, `Some(v)`
        returns `v`. */
    predicate Stepped(r: Result<Option<StackValue>, RuntimeError>, spec: Result<Step, Thrown<Machine>>)
      reads this
    {
      match spec
      case Success(Continue(m)) => r == Success(None) && State() == m
      case Success(Done(v, m)) => r == Success(Some(v)) && State() == m
      case Failure(t) => r == Failure(t.error) && State() == t.state
    }

    /** `new Interpreter()`: an empty global scope is current and the stack is empty. */
    constructor ()
      ensures stack == [] && frames == [map[]]
    {
      stack := [];
      frames := [map[]];
    }

    /** `new Interpreter(environment)`: the given global scope is current. */
    constructor WithEnvironment(global: map<string, Boxed>)
      ensures stack == [] && frames == [global]
    {
      stack := [];
      frames := [global];
    }

    /** The `Visit` methods: push the postfix form of `n`. */
    method VisitNode(n: Node) returns (r: Outcome<RuntimeError>)
      modifies this
      ensures frames == old(frames)
      ensures match Visit(old(stack), n)
              case Success(s) => r == Pass && stack == s
              case Failure(t) => r == Fail(t.error) && stack == t.state
      decreases n, 1
    {
      r := Pass;
      match n
      case BinaryOperation(l, op, rn) =>
        :- VisitNode(l);
        :- VisitNode(rn);
        var o := CreateStackValue(op);
        if o.Failure? { return Fail(o.error); }
        stack := stack + [o.value];
      case UnaryOperation(op, x) =>
        :- VisitNode(x);
        var o := CreateStackValue(op);
        if o.Failure? { return Fail(o.error); }
        stack := stack + [o.value];
      case Operand(t) =>
        var v := CreateStackValue(t);
        if v.Failure? { return Fail(v.error); }
        stack := stack + [v.value];
      case Assignment(ident, e) =>
        :- VisitNode(e);
        var v := CreateStackValue(ident);
        if v.Failure? { return Fail(v.error); }
        stack := stack + [v.value, OperatorValue(ASSIGN)];
      case VariableDeclare(ident, init) =>
        if init.None? {
          stack := stack + [NullValue];
        } else {
          :- VisitNode(init.value);
        }
        var v := CreateStackValue(ident);
        if v.Failure? { return Fail(v.error); }
        stack := stack + [v.value, OperatorValue(VAR)];
      case ExpressionStatement(e) =>
        r := VisitNode(e);
      case FunctionCall(_, _) =>
        stack := stack + [StackValue(ValType.FunctionCall, BCall(n))];
      case Block(ss) =>
        var i := 0;
        while i < |ss|
          invariant 0 <= i <= |ss| && frames == old(frames)
          invariant VisitFrom(old(stack), ss, 0) == VisitFrom(stack, ss, i)
        {
          :- VisitNode(ss[i]);
          i := i + 1;
        }
      case _ =>
    }

    /** `ReverseStack`: every item is popped onto a new stack, which replaces the old one. */
    method ReverseStack()
      modifies this
      ensures stack == Reverse(old(stack)) && frames == old(frames)
    {
      var temp: seq<StackValue> := [];
      while |stack| > 0
        invariant |temp| + |stack| == |old(stack)|
        invariant stack == old(stack)[..|stack|]
        invariant forall i :: 0 <= i < |temp| ==> temp[i] == old(stack)[|old(stack)| - 1 - i]
        invariant frames == old(frames)
        decreases |stack|
      {
        temp := temp + [stack[|stack| - 1]];
        stack := stack[..|stack| - 1];
      }
      assert temp == Reverse(old(stack));
      stack := temp;
    }

    /** `Evaluate`: visit the tree; with nothing pushed the result is null; otherwise the
        stack is reversed and reduced. */
    method Evaluate(n: Node, fuel: nat) returns (r: Result<StackValue, RuntimeError>)
      modifies this
      ensures Returned(r, XssEvaluation.Evaluate(old(State()), n, fuel))
      decreases fuel, 0
    {
      if fuel == 0 {
        return Failure(OutOfFuel);
      }
      var v := VisitNode(n);
      if v.Fail? {
        return Failure(v.error);
      }
      if stack == [] {
        return Success(NullValue);
      }
      ReverseStack();
      r := RunReduction(fuel - 1);
    }

    /** The `while (EvaluationStack.Count > 0)` loop of `Evaluate`, up to `fuel` passes. */
    method RunReduction(fuel: nat) returns (r: Result<StackValue, RuntimeError>)
      modifies this
      ensures Returned(r, Reduce(old(State()), fuel))
      decreases fuel, 2
    {
      var f: nat := fuel;
      while true
        invariant f <= fuel && Reduce(State(), f) == Reduce(old(State()), fuel)
        decreases f
      {
        if f == 0 {
          return Failure(OutOfFuel);
        }
        if stack == [] {
          return Failure(EmptyStack);
        }
        ghost var before := State();
        var step := StepOnce(f);
        if step.Failure? {
          return Failure(step.error);
        }
        if step.value.Some? {
          return Success(step.value.value);
        }
        var next := f - 1;
        ReduceContinues(before, State(), f, next);
        f := next;
      }
    }

    /** One pass of the reduction loop: the top item is the left operand; a call is made on
        the spot; an operator under it makes a unary operation; otherwise the third item is
        the operator of a binary operation, an assignment or a declaration. */
    method StepOnce(fuel: nat) returns (r: Result<Option<StackValue>, RuntimeError>)
      requires fuel > 0 && stack != []
      modifies this
      ensures Stepped(r, ReduceStep(old(State()), fuel))
      decreases fuel, 1
    {
      if stack[|stack| - 1].kind == ValType.FunctionCall {
        r := StepCall(fuel);
      } else if |stack| == 1 || (stack[|stack| - 2].kind != Operator && |stack| == 2) {
        var op1 := stack[|stack| - 1];
        stack := [];
        r := Finish(op1);
      } else if stack[|stack| - 2].kind == Operator {
        r := StepUnary(fuel);
      } else {
        r := StepTriple(fuel);
      }
    }

    /** A call on top: `EvaluateFunctionCall((FunctionCall)operand1.Value)`. */
    method StepCall(fuel: nat) returns (r: Result<Option<StackValue>, RuntimeError>)
      requires fuel > 0 && stack != [] && stack[|stack| - 1].kind == ValType.FunctionCall
      modifies this
      ensures Stepped(r, ReduceStep(old(State()), fuel))
      decreases fuel, 0
    {
      ReduceStepOfCall(State(), fuel);
      var op1 := stack[|stack| - 1];
      stack := stack[..|stack| - 1];
      ghost var m1 := State();
      assert Top(old(stack)) == op1 && m1 == Machine(Popped(old(stack)), frames);
      var call := CallTarget(op1.value);
      if call.Failure? {
        return Failure(call.error);
      }
      var c := EvaluateFunctionCall(call.value.0, call.value.1, fuel - 1);
      assert CallPass(m1, op1.value, fuel - 1) == (match Call(m1, call.value.0, call.value.1, fuel - 1)
                                                     case Success(m') => Success(Continue(m'))
                                                     case Failure(e) => Failure(e));
      if c.Fail? {
        return Failure(c.error);
      }
      return Success(None);
    }

    /** A value over an operator: `EvaluateUnaryOperation(operand1, op)`. */
    method StepUnary(fuel: nat) returns (r: Result<Option<StackValue>, RuntimeError>)
      requires fuel > 0 && |stack| >= 2 && stack[|stack| - 1].kind != ValType.FunctionCall
      requires stack[|stack| - 2].kind == Operator
      modifies this
      ensures Stepped(r, ReduceStep(old(State()), fuel))
    {
      var op1 := stack[|stack| - 1];
      var op2 := stack[|stack| - 2];
      ghost var s1 := stack[..|stack| - 1];
      assert Top(stack) == op1 && Popped(stack) == s1 && Top(s1) == op2;
      stack := stack[..|stack| - 2];
      assert Popped(s1) == stack;
      var op := UnboxTokenType(op2.value);
      if op.Failure? {
        return Failure(op.error);
      }
      var e := EvaluateUnary(frames, op1, op.value);
      if e.Failure? {
        return Failure(e.error);
      }
      stack := Apply(stack, e.value);
      return Success(None);
    }

    /** Two values over a third item, the operator: an assignment, a declaration or
        `EvaluateBinaryOperation(operand1, operand2, op)`. */
    method StepTriple(fuel: nat) returns (r: Result<Option<StackValue>, RuntimeError>)
      requires fuel > 0 && |stack| >= 3 && stack[|stack| - 1].kind != ValType.FunctionCall
      requires stack[|stack| - 2].kind != Operator
      modifies this
      ensures Stepped(r, ReduceStep(old(State()), fuel))
    {
      var op1 := stack[|stack| - 1];
      var op2 := stack[|stack| - 2];
      var op := UnboxTokenType(stack[|stack| - 3].value);
      ghost var s1 := stack[..|stack| - 1];
      assert Top(stack) == op1 && Popped(stack) == s1 && Top(s1) == op2 && Top(Popped(s1)) == stack[|stack| - 3];
      stack := stack[..|stack| - 3];
      assert Popped(Popped(s1)) == stack;
      if op.Failure? {
        return Failure(op.error);
      }
      r := StepOperation(op1, op2, op.value);
    }

    /** The operator of a binary operation, an assignment or a declaration, applied. */
    method StepOperation(op1: StackValue, op2: StackValue, op: TokenKind) returns (r: Result<Option<StackValue>, RuntimeError>)
      modifies this
      ensures Stepped(r, Operation(old(frames), old(stack), op1, op2, op))
    {
      if op == ASSIGN || op == VAR {
        r := Store(op == VAR, op1, op2);
      } else {
        var e := EvaluateBinary(frames, op1, op2, op);
        if e.Failure? {
          return Failure(e.error);
        }
        stack := Apply(stack, e.value);
        r := Success(None);
      }
    }

    /** `return ResolveStackValue(operand1)`: the loop ends with the resolved left operand. */
    method Finish(op1: StackValue) returns (r: Result<Option<StackValue>, RuntimeError>)
      modifies this
      ensures State() == old(State())
      ensures r == (match Resolve(frames, op1) case Success(v) => Success(Some(v)) case Failure(e) => Failure(e))
    {
      var v := Resolve(frames, op1);
      if v.Failure? {
        return Failure(v.error);
      }
      return Success(Some(v.value));
    }

    /** The ASSIGN and VAR branches: the name is checked against the current scope, the
        resolved left operand is assigned or defined there, and the name, resolved again, is
        pushed. */
    method Store(declare: bool, op1: StackValue, op2: StackValue) returns (r: Result<Option<StackValue>, RuntimeError>)
      modifies this
      ensures var p := if declare then DeclareStep(old(frames), op1, op2) else AssignStep(old(frames), op1, op2);
              match p
              case Success(q) => r == Success(None) && stack == old(stack) + [q.0] && frames == q.1
              case Failure(t) => r == Failure(t.error) && stack == old(stack) && frames == t.state
    {
      var name := UnboxString(op2.value);
      if name.Failure? {
        return Failure(name.error);
      }
      if name.value.None? {
        return Failure(ArgumentNull);
      }
      var x := name.value.value;
      if declare && BoundLocally(frames, x) {
        return Failure(AlreadyDefined(x));
      }
      if !declare && !BoundLocally(frames, x) {
        return Failure(NotDefined(x));
      }
      var v1 := Resolve(frames, op1);
      if v1.Failure? {
        return Failure(v1.error);
      }
      if declare {
        frames := Defined(frames, x, v1.value.value);
      } else {
        frames := Assigned(frames, x, v1.value.value);
      }
      var v2 := Resolve(frames, op2);
      if v2.Failure? {
        return Failure(v2.error);
      }
      stack := stack + [v2.value];
      r := Success(None);
    }

    /** `EvaluateFunctionCall`: the arguments are evaluated in order, then the callee is
        invoked. */
    method EvaluateFunctionCall(name: string, ps: seq<Node>, fuel: nat) returns (r: Outcome<RuntimeError>)
      modifies this
      ensures Reached(r, Call(old(State()), name, ps, fuel))
      decreases fuel, 1
    {
      if fuel == 0 {
        return Fail(OutOfFuel);
      }
      r := CallWithFuel(name, ps, fuel);
    }

    /** The arguments, then the callee, once there is fuel for them. */
    method CallWithFuel(name: string, ps: seq<Node>, fuel: nat) returns (r: Outcome<RuntimeError>)
      requires fuel > 0
      modifies this
      ensures Reached(r, Call(old(State()), name, ps, fuel))
      decreases fuel, 0
    {
      ghost var m0 := State();
      var args := ResolveArguments(ps, fuel - 1);
      if args.Failure? {
        CallStopsAtArguments(m0, name, ps, fuel);
        return Fail(args.error);
      }
      CallInvokes(m0, name, ps, fuel, args.value, State());
      r := InvokeCallee(name, args.value, fuel - 1);
    }

    /** The callee is looked up in the current scope; a child scope binds parameter i to
        argument i and is made current; the body runs there; then `Global` is current again. */
    method InvokeCallee(name: string, args: seq<StackValue>, fuel: nat) returns (r: Outcome<RuntimeError>)
      modifies this
      ensures Reached(r, Invoke(old(State()), name, args, fuel))
      decreases fuel, 2
    {
      var fn := FunctionOf(Lookup(frames, name));
      var local := BindParameters(fn, args);
      if local.Failure? {
        return Fail(local.error);
      }
      frames := local.value;
      if fn.None? {
        return Fail(NullReference);
      }
      r := RunCallee(fn.value, fuel);
    }

    /** The body of the callee `fd` runs in the scope `frames` that binds its parameters; then
        the outermost scope is current again. A body that throws returns at once, and its
        scope stays current. */
    method RunCallee(fd: FunctionDeclaration, fuel: nat) returns (r: Outcome<RuntimeError>)
      modifies this
      ensures Reached(r, Enter(old(State()), fd, fuel))
      decreases fuel, 1
    {
      if fd.body.Some? {
        :- Execute(fd.body.value, fuel);
      }
      frames := [frames[|frames| - 1]];
      r := Pass;
    }

    /** The `foreach (var parameter in functionCall.Parameters)` loop. */
    method ResolveArguments(ps: seq<Node>, fuel: nat) returns (r: Result<seq<StackValue>, RuntimeError>)
      modifies this
      ensures Gathered(r, Arguments(old(State()), ps, 0, [], fuel))
      decreases fuel, 1
    {
      var args: seq<StackValue> := [];
      var i := 0;
      while i < |ps|
        invariant 0 <= i <= |ps|
        invariant Arguments(State(), ps, i, args, fuel) == Arguments(old(State()), ps, 0, [], fuel)
      {
        var temp: StackValue;
        match ps[i] {
          case Operand(t) =>
            var sv := CreateStackValue(t);
            if sv.Failure? {
              return Failure(sv.error);
            }
            var v := Resolve(frames, sv.value);
            if v.Failure? {
              return Failure(v.error);
            }
            temp := v.value;
          case BinaryOperation(_, _, _) =>
            temp :- Evaluate(ps[i], fuel);
          case UnaryOperation(_, _) =>
            temp :- Evaluate(ps[i], fuel);
          case FunctionCall(_, _) =>
            temp :- Evaluate(ps[i], fuel);
          case _ =>
            temp := NullValue;
        }
        args := args + [temp];
        i := i + 1;
      }
      r := Success(args);
    }

    /** The parameter loop: parameter name i of the callee is defined as argument i in a new
        child of the current scope. */
    method BindParameters(fn: Option<FunctionDeclaration>, args: seq<StackValue>) returns (r: Result<Chain, RuntimeError>)
      ensures r == Bind(fn, args, 0, [map[]] + frames)
    {
      var local: Chain := [map[]] + frames;
      var i := 0;
      while i < |args|
        invariant 0 <= i <= |args|
        invariant Bind(fn, args, i, local) == Bind(fn, args, 0, [map[]] + frames)
      {
        if fn.None? || fn.value.parameterNames.None? {
          return Failure(NullReference);
        }
        if i >= |fn.value.parameterNames.value| {
          return Failure(IndexOutOfRange);
        }
        local := Defined(local, fn.value.parameterNames.value[i], args[i].value);
        i := i + 1;
      }
      r := Success(local);
    }

    /** `Execute`: declarations and expression statements are evaluated; a block runs its
        statements in order; `if` and `while` test the truth of their condition; `match` runs
        the first arm of the subject's kind, else the default; `return` pushes its value; a
        function declaration defines its name in the current scope. */
    method Execute(n: Node, fuel: nat) returns (r: Outcome<RuntimeError>)
      modifies this
      ensures Reached(r, Exec(old(State()), n, fuel))
      decreases fuel, 0
    {
      if fuel == 0 {
        return Fail(OutOfFuel);
      }
      match n
      case VariableDeclare(_, _) =>
        r := ExecuteExpression(n, fuel - 1);
      case ExpressionStatement(_) =>
        r := ExecuteExpression(n, fuel - 1);
      case Block(ss) =>
        r := ExecuteBlock(ss, fuel - 1);
      case If(c, t, e) =>
        r := ExecuteIf(c, t, e, fuel - 1);
      case While(c, body) =>
        r := ExecuteWhile(c, body, fuel - 1);
      case Match(subject, cases, dflt) =>
        r := ExecuteMatch(subject, cases, dflt, fuel - 1);
      case Return(rv) =>
        r := ExecuteReturn(rv, fuel - 1);
      case FunctionDeclare(d) =>
        r := ExecuteFunctionDeclare(d, fuel - 1);
      case _ =>
        r := Pass;
    }

    /** A declaration or an expression statement: the node is evaluated and its value
        dropped. */
    method ExecuteExpression(n: Node, fuel: nat) returns (r: Outcome<RuntimeError>)
      requires n.VariableDeclare? || n.ExpressionStatement?
      modifies this
      ensures Reached(r, Exec(old(State()), n, fuel + 1))
      decreases fuel, 1
    {
      var v := Evaluate(n, fuel);
      r := if v.Failure? then Fail(v.error) else Pass;
    }

    /** `return e`: the value of `e` is pushed; a `return` without a value raises. */
    method ExecuteReturn(rv: Option<Node>, fuel: nat) returns (r: Outcome<RuntimeError>)
      modifies this
      ensures Reached(r, Exec(old(State()), Return(rv), fuel + 1))
      decreases fuel, 1
    {
      if rv.None? {
        return Fail(NullReference);
      }
      var v := Evaluate(rv.value, fuel);
      if v.Failure? {
        return Fail(v.error);
      }
      stack := stack + [v.value];
      r := Pass;
    }

    /** A function declaration defines its name in the current scope, which must not hold it
        yet. */
    method ExecuteFunctionDeclare(d: FunctionDeclaration, fuel: nat) returns (r: Outcome<RuntimeError>)
      modifies this
      ensures Reached(r, Exec(old(State()), FunctionDeclare(d), fuel + 1))
    {
      if BoundLocally(frames, d.signature.name) {
        return Fail(AlreadyDefined(d.signature.name));
      }
      frames := Defined(frames, d.signature.name, BFunction(d));
      r := Pass;
    }

    /** `foreach (var stmt in block.Statements) Execute(stmt)`. */
    method ExecuteBlock(ss: seq<Node>, fuel: nat) returns (r: Outcome<RuntimeError>)
      modifies this
      ensures Reached(r, ExecFrom(old(State()), ss, 0, fuel))
      decreases fuel, 1
    {
      var i := 0;
      while i < |ss|
        invariant 0 <= i <= |ss|
        invariant ExecFrom(State(), ss, i, fuel) == ExecFrom(old(State()), ss, 0, fuel)
      {
        :- Execute(ss[i], fuel);
        i := i + 1;
      }
      r := Pass;
    }

    /** The `if` statement: the body when the condition is truthy, else the else-branch. */
    method ExecuteIf(c: Node, t: Node, e: Option<Node>, fuel: nat) returns (r: Outcome<RuntimeError>)
      modifies this
      ensures Reached(r, Exec(old(State()), If(c, t, e), fuel + 1))
      decreases fuel, 1
    {
      var v := Evaluate(c, fuel);
      if v.Failure? {
        return Fail(v.error);
      }
      var b := Truthify(frames, v.value);
      if b.Failure? {
        return Fail(b.error);
      }
      if b.value {
        r := Execute(t, fuel);
      } else if e.Some? {
        r := Execute(e.value, fuel);
      } else {
        r := Pass;
      }
    }

    /** The `while` statement: the condition is evaluated before each pass. */
    method ExecuteWhile(c: Node, body: Node, fuel: nat) returns (r: Outcome<RuntimeError>)
      modifies this
      ensures Reached(r, ExecWhile(old(State()), c, body, fuel))
      decreases fuel, 1
    {
      var f: nat := fuel;
      while true
        invariant ExecWhile(State(), c, body, f) == ExecWhile(old(State()), c, body, fuel)
        decreases f
      {
        if f == 0 {
          return Fail(OutOfFuel);
        }
        var v := Evaluate(c, f - 1);
        if v.Failure? {
          return Fail(v.error);
        }
        var b := Truthify(frames, v.value);
        if b.Failure? {
          return Fail(b.error);
        }
        if !b.value {
          return Pass;
        }
        :- Execute(body, f - 1);
        f := f - 1;
      }
    }

    /** The `match` statement: the first arm whose kind is the subject's kind, else the
        default, else nothing. */
    method ExecuteMatch(subject: Node, cases: seq<MatchCase>, dflt: Option<Node>, fuel: nat) returns (r: Outcome<RuntimeError>)
      modifies this
      ensures Reached(r, Exec(old(State()), Match(subject, cases, dflt), fuel + 1))
      decreases fuel, 1
    {
      var v := Evaluate(subject, fuel);
      if v.Failure? {
        return Fail(v.error);
      }
      var arm := FirstMatch(cases, v.value.kind);
      if arm.Some? {
        r := Execute(arm.value, fuel);
      } else if dflt.Some? {
        r := Execute(dflt.value, fuel);
      } else {
        r := Pass;
      }
    }
  }
}
