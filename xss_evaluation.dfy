/** What the XSS interpreter computes (XSS/Visitor/Interpreter.cs), as functions of its state.

    The interpreter evaluates an expression in two phases. First a visit of the tree pushes
    its postfix form on the evaluation stack. Then the stack is reversed, so the first item
    pushed is on top, and a loop pops items: a value followed by an operator is a unary
    operation, and a value, a value and an operator are a binary one. Each result is pushed
    back as the next left operand. Statements are executed over the same stack and scope
    chain. A function call runs its body in a child of the current scope and leaves the
    global scope current afterwards; a `return` inside the body hands its value back by
    pushing it on the shared stack.

    The stack is a sequence whose last item is the top. The scope chain is a `Chain` of
    dictionaries, innermost first, whose last one is the global scope. Everything that can run
    indefinitely takes a step budget `fuel`; a computation that uses it up ends in
    `OutOfFuel`.

    An exception carries the state it leaves behind (`Thrown`). Nothing done before the throw
    is undone: items already pushed or popped stay so, bindings already written stay, and a
    callee's scope made current stays current. The REPL keeps the interpreter after it
    reports the exception, so the next input starts from that state. */
module XssEvaluation {
  import opened Wrappers
  import opened Tokens
  import opened XssOperand
  import opened XssAst
  import opened XssValues
  import opened XssScope
  import opened XssOperators
  import opened Stacks

  /** A scope chain seen from the current scope; it always holds the global scope. */
  type Chain = f: Frames | |f| > 0 witness [map[]]

  /** The interpreter's state: the evaluation stack and the scope chain. */
  datatype Machine = Machine(stack: seq<StackValue>, frames: Chain)

  /** An exception, and the state `state` the interpreter is in when it is thrown. */
  datatype Thrown<S> = Thrown(error: RuntimeError, state: S)

  /** The result of an operation that changes nothing, thrown, when it fails, in state `s`. */
  function At<T, S>(r: Result<T, RuntimeError>, s: S): Result<T, Thrown<S>>
  {
    match r
    case Success(v) => Success(v)
    case Failure(e) => Failure(Thrown(e, s))
  }

  /** What one pass of the reduction loop leaves: the loop goes on, or `Evaluate` returns. */
  datatype Step = Continue(next: Machine) | Done(result: StackValue, final: Machine)

  function Top(s: seq<StackValue>): StackValue
    requires s != []
  {
    s[|s| - 1]
  }

  function Popped(s: seq<StackValue>): seq<StackValue>
    requires s != []
  {
    s[..|s| - 1]
  }

  /** The stack value of an operator token. */
  function OperatorValue(k: TokenKind): StackValue
  {
    StackValue(Operator, BTokenType(k))
  }

  function Apply(s: seq<StackValue>, e: Effect): seq<StackValue>
  {
    match e
    case Push(v) => s + [v]
    case NoPush => s
  }

  /** A value result together with the state it leaves. */
  function Paired(r: Result<StackValue, RuntimeError>, m: Machine): Result<(StackValue, Machine), Thrown<Machine>>
  {
    match r
    case Success(v) => Success((v, m))
    case Failure(e) => Failure(Thrown(e, m))
  }

  // ---- The visit: the postfix form of a tree ----

  /** The `Visit` methods: an operand pushes its stack value, an operation its operands and
      then its operator; an assignment pushes the expression, the name and ASSIGN; a
      declaration the initial value (null without one), the name and VAR; a call pushes
      itself; a block visits its statements in order; the other statements push nothing. An
      item whose token `CreateStackValue` rejects throws with the items pushed before it. */
  function Visit(stack: seq<StackValue>, n: Node): Result<seq<StackValue>, Thrown<seq<StackValue>>>
    decreases n, 1
  {
    match n
    case BinaryOperation(l, op, r) =>
      var s1 :- Visit(stack, l);
      var s2 :- Visit(s1, r);
      var o :- At(CreateStackValue(op), s2);
      Success(s2 + [o])
    case UnaryOperation(op, x) =>
      var s1 :- Visit(stack, x);
      var o :- At(CreateStackValue(op), s1);
      Success(s1 + [o])
    case Operand(t) =>
      var v :- At(CreateStackValue(t), stack);
      Success(stack + [v])
    case Assignment(ident, e) =>
      var s1 :- Visit(stack, e);
      var v :- At(CreateStackValue(ident), s1);
      Success(s1 + [v, OperatorValue(ASSIGN)])
    case VariableDeclare(ident, init) =>
      var s1 :- if init.None? then Success(stack + [NullValue]) else Visit(stack, init.value);
      var v :- At(CreateStackValue(ident), s1);
      Success(s1 + [v, OperatorValue(VAR)])
    case ExpressionStatement(e) => Visit(stack, e)
    case FunctionCall(_, _) => Success(stack + [StackValue(ValType.FunctionCall, BCall(n))])
    case Block(ss) => VisitFrom(stack, ss, 0)
    case _ => Success(stack)
  }

  /** The statements of a block from index `i` on. */
  function VisitFrom(stack: seq<StackValue>, ss: seq<Node>, i: nat): Result<seq<StackValue>, Thrown<seq<StackValue>>>
    requires i <= |ss|
    decreases ss, |ss| - i
  {
    if i == |ss| then Success(stack)
    else
      var s1 :- Visit(stack, ss[i]);
      VisitFrom(s1, ss, i + 1)
  }

  /** A result with `s` put underneath, on the stack it is thrown with too. */
  function Under(s: seq<StackValue>, r: Result<seq<StackValue>, Thrown<seq<StackValue>>>): Result<seq<StackValue>, Thrown<seq<StackValue>>>
  {
    match r
    case Success(t) => Success(s + t)
    case Failure(e) => Failure(Thrown(e.error, s + e.state))
  }

  /** The step of `VisitPushesOnly` for a binary operation, given what its two sides push. */
  lemma BinaryPushesOnly(s: seq<StackValue>, l: Node, op: Token, r: Node)
    requires Visit(s, l) == Under(s, Visit([], l))
    requires Visit([], l).Success? ==>
               var a := Visit([], l).value;
               Visit(s + a, r) == Under(s + a, Visit([], r)) && Visit(a, r) == Under(a, Visit([], r))
    ensures Visit(s, BinaryOperation(l, op, r)) == Under(s, Visit([], BinaryOperation(l, op, r)))
  {
    assert s + [] == s;
    if Visit([], l).Success? {
      var a := Visit([], l).value;
      if Visit([], r).Success? {
        var b := Visit([], r).value;
        assert (s + a) + b == s + (a + b);
        if CreateStackValue(op).Success? {
          var o := CreateStackValue(op).value;
          assert (s + (a + b)) + [o] == s + ((a + b) + [o]);
        }
      } else {
        var t := Visit([], r).error.state;
        assert (s + a) + t == s + (a + t);
      }
    }
  }

  /** A visit only pushes: what it pushes does not depend on what is already on the stack. */
  lemma {:induction false} VisitPushesOnly(s: seq<StackValue>, n: Node)
    ensures Visit(s, n) == Under(s, Visit([], n))
    decreases n, 1
  {
    assert s + [] == s;
    match n
    case BinaryOperation(l, op, r) =>
      VisitPushesOnly(s, l);
      if Visit([], l).Success? {
        var a := Visit([], l).value;
        VisitPushesOnly(s + a, r);
        VisitPushesOnly(a, r);
      }
      BinaryPushesOnly(s, l, op, r);
    case UnaryOperation(op, x) =>
      VisitPushesOnly(s, x);
      if Visit([], x).Success? && CreateStackValue(op).Success? {
        var a, o := Visit([], x).value, CreateStackValue(op).value;
        assert (s + a) + [o] == s + (a + [o]);
      }
    case Operand(t) =>
      if CreateStackValue(t).Success? {
        assert [] + [CreateStackValue(t).value] == [CreateStackValue(t).value];
      }
    case Assignment(ident, e) =>
      VisitPushesOnly(s, e);
      if Visit([], e).Success? && CreateStackValue(ident).Success? {
        var a, v := Visit([], e).value, CreateStackValue(ident).value;
        assert (s + a) + [v, OperatorValue(ASSIGN)] == s + (a + [v, OperatorValue(ASSIGN)]);
      }
    case VariableDeclare(ident, init) =>
      if init.Some? {
        VisitPushesOnly(s, init.value);
      }
      var a := if init.None? then Success([NullValue]) else Visit([], init.value);
      assert [] + [NullValue] == [NullValue];
      if a.Success? && CreateStackValue(ident).Success? {
        var v := CreateStackValue(ident).value;
        assert (s + a.value) + [v, OperatorValue(VAR)] == s + (a.value + [v, OperatorValue(VAR)]);
      }
    case ExpressionStatement(e) =>
      VisitPushesOnly(s, e);
    case FunctionCall(_, _) =>
      assert [] + [StackValue(ValType.FunctionCall, BCall(n))] == [StackValue(ValType.FunctionCall, BCall(n))];
    case Block(ss) =>
      VisitFromPushesOnly(s, ss, 0);
    case If(_, _, _) =>
    case While(_, _) =>
    case Match(_, _, _) =>
    case FunctionDeclare(_) =>
    case Return(_) =>
  }

  lemma {:induction false} VisitFromPushesOnly(s: seq<StackValue>, ss: seq<Node>, i: nat)
    requires i <= |ss|
    ensures VisitFrom(s, ss, i) == Under(s, VisitFrom([], ss, i))
    decreases ss, |ss| - i
  {
    assert s + [] == s;
    if i < |ss| {
      VisitPushesOnly(s, ss[i]);
      if Visit([], ss[i]).Success? {
        var a := Visit([], ss[i]).value;
        VisitFromPushesOnly(s + a, ss, i + 1);
        VisitFromPushesOnly(a, ss, i + 1);
        if VisitFrom([], ss, i + 1).Success? {
          assert (s + a) + VisitFrom([], ss, i + 1).value == s + (a + VisitFrom([], ss, i + 1).value);
        } else {
          assert (s + a) + VisitFrom([], ss, i + 1).error.state == s + (a + VisitFrom([], ss, i + 1).error.state);
        }
      }
    }
  }

  // ---- The reduction loop, function calls and statements ----

  /** The object a `FunctionCall` stack value carries, cast back to a call node. */
  function CallTarget(b: Boxed): (r: Result<(string, seq<Node>), RuntimeError>)
    ensures b.BCall? && b.call.FunctionCall? ==> r == Success((b.call.name, b.call.parameters))
    ensures r.Success? <==> b.BCall? && b.call.FunctionCall?
  {
    match b
    case BCall(FunctionCall(name, ps)) => Success((name, ps))
    case BNull => Failure(NullReference)
    case _ => Failure(InvalidCast)
  }

  /** `as NativeFunction`: the declaration a scope entry holds, or nothing. */
  function FunctionOf(b: Boxed): (f: Option<FunctionDeclaration>)
    ensures f.Some? <==> b.BFunction?
  {
    match b
    case BFunction(d) => Some(d)
    case _ => None
  }

  /** The ASSIGN branch of the loop: the name must be bound in the current scope; the left
      operand's value is assigned, and the name, read again, is the result. A failure of that
      second read is thrown with the assignment made. */
  function AssignStep(frames: Chain, op1: StackValue, op2: StackValue): (r: Result<(StackValue, Chain), Thrown<Chain>>)
    ensures r.Success? ==> r.value.0.kind != Identifier && (op2.kind != ValType.FunctionCall ==> r.value.0.kind != ValType.FunctionCall)
  {
    var name :- At(UnboxString(op2.value), frames);
    if name.None? then Failure(Thrown(ArgumentNull, frames))
    else if !BoundLocally(frames, name.value) then Failure(Thrown(NotDefined(name.value), frames))
    else
      var v1 :- At(Resolve(frames, op1), frames);
      var f: Chain := Assigned(frames, name.value, v1.value);
      var v2 :- At(Resolve(f, op2), f);
      Success((v2, f))
  }

  /** The VAR branch of the loop: the name must not be bound in the current scope; it is
      defined there with the left operand's value, and the name, read again, is the result. A
      failure of that second read is thrown with the definition made. */
  function DeclareStep(frames: Chain, op1: StackValue, op2: StackValue): (r: Result<(StackValue, Chain), Thrown<Chain>>)
    ensures r.Success? ==> r.value.0.kind != Identifier && (op2.kind != ValType.FunctionCall ==> r.value.0.kind != ValType.FunctionCall)
  {
    var name :- At(UnboxString(op2.value), frames);
    if name.None? then Failure(Thrown(ArgumentNull, frames))
    else if BoundLocally(frames, name.value) then Failure(Thrown(AlreadyDefined(name.value), frames))
    else
      var v1 :- At(Resolve(frames, op1), frames);
      var f: Chain := Defined(frames, name.value, v1.value);
      var v2 :- At(Resolve(f, op2), f);
      Success((v2, f))
  }

  /** A store's result as a pass of the loop, `rest` lying under it: the value read back is
      pushed; a failure is thrown over `rest`. */
  function Stored(r: Result<(StackValue, Chain), Thrown<Chain>>, rest: seq<StackValue>): Result<Step, Thrown<Machine>>
  {
    match r
    case Success(p) => Success(Continue(Machine(rest + [p.0], p.1)))
    case Failure(t) => Failure(Thrown(t.error, Machine(rest, t.state)))
  }

  /** `Evaluate`: visit, return null when nothing was pushed, otherwise reverse the stack and
      run the reduction loop. The value returned is always resolved. */
  function Evaluate(m: Machine, n: Node, fuel: nat): (r: Result<(StackValue, Machine), Thrown<Machine>>)
    ensures r.Success? ==> r.value.0.kind != Identifier
    decreases fuel, 0
  {
    if fuel == 0 then Failure(Thrown(OutOfFuel, m))
    else match Visit(m.stack, n)
      case Failure(t) => Failure(Thrown(t.error, m.(stack := t.state)))
      case Success(pushed) =>
        if pushed == [] then Success((NullValue, m.(stack := pushed)))
        else Reduce(m.(stack := Reverse(pushed)), fuel - 1)
  }

  /** The reduction loop, up to `fuel` passes; it ends by returning from one of its passes, or
      with an empty stack, where the final `Pop` fails. */
  function Reduce(m: Machine, fuel: nat): (r: Result<(StackValue, Machine), Thrown<Machine>>)
    ensures r.Success? ==> r.value.0.kind != Identifier
    decreases fuel, 1
  {
    if fuel == 0 then Failure(Thrown(OutOfFuel, m))
    else if m.stack == [] then Failure(Thrown(EmptyStack, m))
    else Proceed(ReduceStep(m, fuel), fuel - 1)
  }

  /** After a pass: an error or a result ends the loop, a state goes on with `fuel` left. */
  function Proceed(step: Result<Step, Thrown<Machine>>, fuel: nat): (r: Result<(StackValue, Machine), Thrown<Machine>>)
    requires step.Success? && step.value.Done? ==> step.value.result.kind != Identifier
    ensures r.Success? ==> r.value.0.kind != Identifier
    decreases fuel, 2
  {
    match step
    case Failure(e) => Failure(e)
    case Success(Done(v, m')) => Success((v, m'))
    case Success(Continue(m')) => Reduce(m', fuel)
  }

  /** One pass of the loop. The top item is the left operand; a call is evaluated on the spot.
      A next item that is an operator makes a unary operation; otherwise the item after it is
      the operator of a binary one, an assignment or a declaration. A left operand with nothing
      (or only a value) under it is the result. */
  function ReduceStep(m: Machine, fuel: nat): (r: Result<Step, Thrown<Machine>>)
    requires fuel > 0 && m.stack != []
    ensures r.Success? && r.value.Done? ==> r.value.result.kind != Identifier
    decreases fuel, 0
  {
    var op1 := Top(m.stack);
    var s1 := Popped(m.stack);
    if op1.kind == ValType.FunctionCall then CallPass(Machine(s1, m.frames), op1.value, fuel - 1)
    else ReduceOperands(m.frames, op1, s1)
  }

  /** The pass when the left operand, boxing `b`, is a call: it is made on `m` at once. */
  function CallPass(m: Machine, b: Boxed, fuel: nat): Result<Step, Thrown<Machine>>
    decreases fuel, 1
  {
    var call :- At(CallTarget(b), m);
    var m' :- Call(m, call.0, call.1, fuel);
    Success(Continue(m'))
  }

  /** The pass when the left operand `op1` is not a call and `s1` lies under it. Every item
      a pass reads is popped first, so an error is thrown with them gone. */
  function ReduceOperands(frames: Chain, op1: StackValue, s1: seq<StackValue>): (r: Result<Step, Thrown<Machine>>)
    ensures r.Success? && r.value.Done? ==> r.value.result.kind != Identifier
  {
    if s1 == [] then
      var v :- At(Resolve(frames, op1), Machine(s1, frames));
      Success(Done(v, Machine(s1, frames)))
    else
      var op2 := Top(s1);
      var s2 := Popped(s1);
      if op2.kind == Operator then
        var op :- At(UnboxTokenType(op2.value), Machine(s2, frames));
        var e :- At(EvaluateUnary(frames, op1, op), Machine(s2, frames));
        Success(Continue(Machine(Apply(s2, e), frames)))
      else if s2 == [] then
        var v :- At(Resolve(frames, op1), Machine(s2, frames));
        Success(Done(v, Machine(s2, frames)))
      else
        var op :- At(UnboxTokenType(Top(s2).value), Machine(Popped(s2), frames));
        Operation(frames, Popped(s2), op1, op2, op)
  }

  /** The operator `op` applied to the two operands, `s3` lying under them. */
  function Operation(frames: Chain, s3: seq<StackValue>, op1: StackValue, op2: StackValue, op: TokenKind): Result<Step, Thrown<Machine>>
  {
    if op == ASSIGN then Stored(AssignStep(frames, op1, op2), s3)
    else if op == VAR then Stored(DeclareStep(frames, op1, op2), s3)
    else
      var e :- At(EvaluateBinary(frames, op1, op2, op), Machine(s3, frames));
      Success(Continue(Machine(Apply(s3, e), frames)))
  }

  /** `EvaluateFunctionCall`: the arguments are evaluated in order; the callee is looked up by
      name; a child of the current scope binds parameter i to argument i; the body runs there;
      afterwards the global scope alone is current. */
  function Call(m: Machine, name: string, params: seq<Node>, fuel: nat): (r: Result<Machine, Thrown<Machine>>)
    ensures r.Success? ==> |r.value.frames| == 1
    decreases fuel, 0
  {
    if fuel == 0 then Failure(Thrown(OutOfFuel, m))
    else
      var a :- Arguments(m, params, 0, [], fuel - 1);
      Invoke(a.1, name, a.0, fuel - 1)
  }

  /** The call proper, once the argument values `args` are known. The new scope is made
      current before the body is read, so a name bound to no function, called without
      arguments, throws with that scope current. */
  function Invoke(m: Machine, name: string, args: seq<StackValue>, fuel: nat): (r: Result<Machine, Thrown<Machine>>)
    ensures r.Success? ==> |r.value.frames| == 1
    decreases fuel, 2
  {
    var fn := FunctionOf(Lookup(m.frames, name));
    var local :- At(Bind(fn, args, 0, [map[]] + m.frames), m);
    if fn.None? then Failure(Thrown(NullReference, Machine(m.stack, local)))
    else Enter(Machine(m.stack, local), fn.value, fuel)
  }

  /** The callee `d` proper: its body runs on `inner`, whose scope chain binds the parameters;
      afterwards the outermost scope alone is current. A body that throws skips that reset. */
  function Enter(inner: Machine, d: FunctionDeclaration, fuel: nat): (r: Result<Machine, Thrown<Machine>>)
    ensures r.Success? ==> |r.value.frames| == 1
    decreases fuel, 1
  {
    var m2 :- if d.body.None? then Success(inner) else Exec(inner, d.body.value, fuel);
    Success(Machine(m2.stack, [m2.frames[|m2.frames| - 1]]))
  }

  /** A call whose arguments raise raises that error. */
  lemma CallStopsAtArguments(m: Machine, name: string, params: seq<Node>, fuel: nat)
    requires fuel > 0 && Arguments(m, params, 0, [], fuel - 1).Failure?
    ensures Call(m, name, params, fuel) == Failure(Arguments(m, params, 0, [], fuel - 1).error)
  {
  }

  /** A call whose arguments evaluate to `args`, leaving `m'`, invokes the callee there. */
  lemma CallInvokes(m: Machine, name: string, params: seq<Node>, fuel: nat, args: seq<StackValue>, m': Machine)
    requires fuel > 0 && Arguments(m, params, 0, [], fuel - 1) == Success((args, m'))
    ensures Call(m, name, params, fuel) == Invoke(m', name, args, fuel - 1)
  {
  }

  /** The argument values from index `i` on: an operand is resolved, an operation or a call is
      evaluated, and anything else counts as null. */
  function Arguments(m: Machine, ps: seq<Node>, i: nat, acc: seq<StackValue>, fuel: nat): (r: Result<(seq<StackValue>, Machine), Thrown<Machine>>)
    requires i <= |ps|
    ensures r.Success? ==> |r.value.0| == |acc| + |ps| - i
    decreases fuel, |ps| - i
  {
    if i == |ps| then Success((acc, m))
    else match ps[i]
      case Operand(t) =>
        var sv :- At(CreateStackValue(t), m);
        var v :- At(Resolve(m.frames, sv), m);
        Arguments(m, ps, i + 1, acc + [v], fuel)
      case BinaryOperation(_, _, _) =>
        var p :- Evaluate(m, ps[i], fuel);
        Arguments(p.1, ps, i + 1, acc + [p.0], fuel)
      case UnaryOperation(_, _) =>
        var p :- Evaluate(m, ps[i], fuel);
        Arguments(p.1, ps, i + 1, acc + [p.0], fuel)
      case FunctionCall(_, _) =>
        var p :- Evaluate(m, ps[i], fuel);
        Arguments(p.1, ps, i + 1, acc + [p.0], fuel)
      case _ => Arguments(m, ps, i + 1, acc + [NullValue], fuel)
  }

  /** The parameter loop from index `i` on: each pass reads the callee's i-th parameter name
      (which needs a callee, a name array and an i-th entry) and defines it in the new scope. */
  function Bind(fn: Option<FunctionDeclaration>, args: seq<StackValue>, i: nat, frames: Chain): (r: Result<Chain, RuntimeError>)
    requires i <= |args|
    ensures r.Success? ==> |r.value| == |frames| && forall j :: 0 < j < |frames| ==> r.value[j] == frames[j]
    decreases |args| - i
  {
    if i == |args| then Success(frames)
    else if fn.None? || fn.value.parameterNames.None? then Failure(NullReference)
    else if i >= |fn.value.parameterNames.value| then Failure(IndexOutOfRange)
    else Bind(fn, args, i + 1, Defined(frames, fn.value.parameterNames.value[i], args[i].value))
  }

  /** `FirstOrDefault` over the arms of a match: the statement of the first arm of kind `t`. */
  function FirstMatch(cases: seq<MatchCase>, t: ValType): (r: Option<Node>)
    ensures r.None? <==> forall i :: 0 <= i < |cases| ==> cases[i].caseType != t
    ensures r.Some? ==> exists i :: 0 <= i < |cases| && cases[i].caseType == t && cases[i].statement == r.value
                                   && forall j :: 0 <= j < i ==> cases[j].caseType != t
  {
    if cases == [] then None
    else if cases[0].caseType == t then Some(cases[0].statement)
    else
      var r := FirstMatch(cases[1..], t);
      assert forall i :: 1 <= i < |cases| ==> cases[i] == cases[1..][i - 1];
      r
  }

  /** `Execute`: declarations and expression statements are evaluated (their value is only
      printed); a block runs its statements in order; `if` and `while` test the truth of their
      condition; `match` runs the first arm of the subject's kind, else the default; `return`
      pushes its value; a function declaration defines its name in the current scope. Any other
      node, and a missing one, does nothing. */
  function Exec(m: Machine, n: Node, fuel: nat): Result<Machine, Thrown<Machine>>
    decreases fuel, 0
  {
    if fuel == 0 then Failure(Thrown(OutOfFuel, m))
    else match n
      case VariableDeclare(_, _) =>
        var p :- Evaluate(m, n, fuel - 1);
        Success(p.1)
      case ExpressionStatement(_) =>
        var p :- Evaluate(m, n, fuel - 1);
        Success(p.1)
      case Block(ss) => ExecFrom(m, ss, 0, fuel - 1)
      case If(c, t, e) =>
        var p :- Evaluate(m, c, fuel - 1);
        var b :- At(Truthify(p.1.frames, p.0), p.1);
        if b then Exec(p.1, t, fuel - 1)
        else if e.Some? then Exec(p.1, e.value, fuel - 1)
        else Success(p.1)
      case While(c, body) => ExecWhile(m, c, body, fuel - 1)
      case Match(subject, cases, dflt) =>
        var p :- Evaluate(m, subject, fuel - 1);
        var arm := FirstMatch(cases, p.0.kind);
        if arm.Some? then Exec(p.1, arm.value, fuel - 1)
        else if dflt.Some? then Exec(p.1, dflt.value, fuel - 1)
        else Success(p.1)
      case Return(rv) =>
        if rv.None? then Failure(Thrown(NullReference, m))
        else
          var p :- Evaluate(m, rv.value, fuel - 1);
          Success(p.1.(stack := p.1.stack + [p.0]))
      case FunctionDeclare(d) =>
        if BoundLocally(m.frames, d.signature.name) then Failure(Thrown(AlreadyDefined(d.signature.name), m))
        else Success(m.(frames := Defined(m.frames, d.signature.name, BFunction(d))))
      case _ => Success(m)
  }

  /** The statements of a block from index `i` on. */
  function ExecFrom(m: Machine, ss: seq<Node>, i: nat, fuel: nat): Result<Machine, Thrown<Machine>>
    requires i <= |ss|
    decreases fuel, |ss| - i
  {
    if i == |ss| then Success(m)
    else
      var m' :- Exec(m, ss[i], fuel);
      ExecFrom(m', ss, i + 1, fuel)
  }

  /** The `while` loop, up to `fuel` passes: the condition is evaluated before each pass. */
  function ExecWhile(m: Machine, c: Node, body: Node, fuel: nat): Result<Machine, Thrown<Machine>>
    decreases fuel, 0
  {
    if fuel == 0 then Failure(Thrown(OutOfFuel, m))
    else
      var p :- Evaluate(m, c, fuel - 1);
      var b :- At(Truthify(p.1.frames, p.0), p.1);
      if !b then Success(p.1)
      else
        var m' :- Exec(p.1, body, fuel - 1);
        ExecWhile(m', c, body, fuel - 1)
  }
}
