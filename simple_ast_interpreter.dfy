/** The calculator's first evaluator (simple_interpreter/AST/Interpreter.cs): visiting a tree
    pushes its tokens in postfix order onto `EvaluationStack`; `Evaluate` turns the stack
    upside down and repeatedly pops two operands and an operator, pushing each result back
    as an INTERGER token, until one token is left, whose value is the result. Variables are
    ints, and reading an unbound name binds it to 0.

    The pure functions below state what each step computes; the class follows them. A stack
    is a sequence whose last element is the top. */
module SimpleAstInterpreter {
  import opened Wrappers
  import opened Tokens
  import opened Int32
  import opened XssAst
  import opened Stacks
  import DotNetConvert
  import opened XssValues

  /** `Dictionary<string, int> Variables`. */
  type Variables = map<string, int32>

  /** The token `Push(value)` puts on the stack: the int's decimal text as an INTERGER. */
  function IntToken(v: int32): Token
  {
    Token(INTERGER, Some(DotNetConvert.Int32ToString(v)))
  }

  /** The ASSIGN token `Visit(Assignment)` pushes. */
  const AssignToken := Token(ASSIGN, Some("="))

  /** `SetValue(var, value)`: the name is bound to the value, whether it was bound before or
      not; a null name makes the dictionary raise. */
  function Assigned(vars: Variables, name: Option<string>, value: int32): (r: Result<Variables, RuntimeError>)
    ensures name == None <==> r == Failure(ArgumentNull)
    ensures r.Success? ==> r.value.Keys == vars.Keys + {name.value} && r.value[name.value] == value
    ensures r.Success? ==> forall k :: k in vars && k != name.value ==> k in r.value && r.value[k] == vars[k]
  {
    match name
    case None => Failure(ArgumentNull)
    case Some(k) => Success(vars[k := value])
  }

  /** `GetValue(var)`: the bound value, or 0 for an unbound name, which is then bound to 0;
      a null name makes the dictionary raise. */
  function Lookup(vars: Variables, name: Option<string>): (r: Result<(int32, Variables), RuntimeError>)
    ensures name == None <==> r == Failure(ArgumentNull)
    ensures r.Success? ==> r.value.1 == vars[name.value := r.value.0]
    ensures r.Success? && name.value in vars ==> r.value.0 == vars[name.value]
    ensures r.Success? && name.value !in vars ==> r.value.0 == 0
  {
    match name
    case None => Failure(ArgumentNull)
    case Some(k) => if k in vars then Success((vars[k], vars)) else Success((0, vars[k := 0]))
  }

  /** `EvaluateOperand(op)`: an INTERGER is `int.Parse` of its lexeme, a name is looked up,
      and any other token is 0. */
  function OperandValue(vars: Variables, t: Token): (r: Result<(int32, Variables), RuntimeError>)
    ensures t.kind !in {INTERGER, IDENT} ==> r == Success((0, vars))
    ensures t.kind == INTERGER ==> (r.Success? <==> DotNetConvert.ParseInt32(t.lexeme).Success?)
    ensures t.kind == INTERGER && r.Success? ==> r.value == (DotNetConvert.ParseInt32(t.lexeme).value, vars)
    ensures t.kind == IDENT ==> r == Lookup(vars, t.lexeme)
  {
    if t.kind == INTERGER then
      match DotNetConvert.ParseInt32(t.lexeme)
      case Success(i) => Success((i, vars))
      case Failure(e) => Failure(FromParse(e))
    else if t.kind == IDENT then Lookup(vars, t.lexeme)
    else Success((0, vars))
  }

  /** The operators `Evaluate` computes on two ints. */
  predicate IsArithmetic(k: TokenKind)
  {
    k in {PLUS, MINUS, MULTIPLY, DIVIDE}
  }

  /** C# `int` arithmetic: `+ - *` wrap around, `/` truncates and raises on a zero divisor or
      on `int.MinValue / -1`. */
  function Arith(k: TokenKind, a: int32, b: int32): (r: Result<int32, RuntimeError>)
    requires IsArithmetic(k)
    ensures k != DIVIDE ==> r.Success?
    ensures k == DIVIDE ==> (r == Failure(RuntimeError.DivideByZero) <==> b == 0)
    ensures k == DIVIDE ==> (r.Failure? <==> b == 0 || (a as int == MIN && b == -1))
    ensures k == DIVIDE && a as int == MIN && b == -1 ==> r == Failure(ArithmeticOverflow)
    ensures k == PLUS ==> r == Success(Wrap(a as int + b as int))
    ensures k == MINUS ==> r == Success(Wrap(a as int - b as int))
    ensures k == MULTIPLY ==> r == Success(Wrap(a as int * b as int))
    ensures k == DIVIDE && r.Success? ==> r.value as int == TruncQuot(a as int, b as int)
  {
    if k == PLUS then Success(Add(a, b))
    else if k == MINUS then Success(Sub(a, b))
    else if k == MULTIPLY then Success(Mul(a, b))
    else
      match Div(a, b)
      case Success(q) => Success(q)
      case Failure(e) => Failure(FromArith(e))
  }

  // ---- The visit: the postfix form of a tree ----

  /** The tokens the `Visit` methods push, bottom first: an operation pushes its left and
      right operands and then its operator; an assignment its expression, its name and an
      ASSIGN token; an operand its token. Every other node goes to `Visit(ASTNode)`, which
      pushes nothing. */
  function Postfix(n: Node): seq<Token>
  {
    if n.Operand? then [n.token]
    else if n.BinaryOperation? then Postfix(n.left) + Postfix(n.right) + [n.op]
    else if n.Assignment? then Postfix(n.expression) + [n.ident, AssignToken]
    else []
  }

  // ---- The reduction ----

  /** What one pass of the loop did: the variables it leaves, and what it pushed
      (`Some(v)`), that it pushed nothing (`None`), or the exception it raised. */
  datatype Step = Step(vars: Variables, outcome: Result<Option<int32>, RuntimeError>)

  /** The `switch` on the operator, with `operand1` and `operand2` already popped. The four
      arithmetic operators evaluate `operand1` and then `operand2`; ASSIGN binds
      `operand2`'s lexeme to `operand1`'s value and pushes `operand1` evaluated again; `^`
      goes through `Math.Pow`, which is left out; anything else pushes nothing. */
  function Apply(vars: Variables, o1: Token, o2: Token, op: Token): (s: Step)
    ensures op.kind !in {PLUS, MINUS, MULTIPLY, DIVIDE, EXPONENT, ASSIGN} ==> s == Step(vars, Success(None))
    ensures s.outcome.Success? && op.kind in {PLUS, MINUS, MULTIPLY, DIVIDE, ASSIGN} ==> s.outcome.value.Some?
    ensures op.kind == EXPONENT ==> s.outcome.Failure?
  {
    if IsArithmetic(op.kind) || op.kind == EXPONENT then OperatorPass(vars, o1, o2, op.kind)
    else if op.kind == ASSIGN then AssignPass(vars, o1, o2)
    else Step(vars, Success(None))
  }

  /** `+ - * /` and `^`: both operands are evaluated, `operand1` first. */
  function OperatorPass(vars: Variables, o1: Token, o2: Token, k: TokenKind): (s: Step)
    requires IsArithmetic(k) || k == EXPONENT
    ensures s.outcome.Success? ==> s.outcome.value.Some? && k != EXPONENT
  {
    match OperandValue(vars, o1)
    case Failure(e) => Step(vars, Failure(e))
    case Success((a, v1)) =>
      match OperandValue(v1, o2)
      case Failure(e) => Step(v1, Failure(e))
      case Success((b, v2)) =>
        if k == EXPONENT then Step(v2, Failure(FloatNotModelled))
        else
          match Arith(k, a, b)
          case Failure(e) => Step(v2, Failure(e))
          case Success(c) => Step(v2, Success(Some(c)))
  }

  /** ASSIGN: `SetValue(operand2.lexeme, EvaluateOperand(operand1))`, then
      `Push(EvaluateOperand(operand1))`. */
  function AssignPass(vars: Variables, o1: Token, o2: Token): (s: Step)
    ensures s.outcome.Success? ==> s.outcome.value.Some?
  {
    match OperandValue(vars, o1)
    case Failure(e) => Step(vars, Failure(e))
    case Success((a, v1)) =>
      match Assigned(v1, o2.lexeme, a)
      case Failure(e) => Step(v1, Failure(e))
      case Success(v2) =>
        match OperandValue(v2, o1)
        case Failure(e) => Step(v2, Failure(e))
        case Success((b, v3)) => Step(v3, Success(Some(b)))
  }

  /** How an evaluation ends: its result or exception, the variables and the stack it leaves. */
  datatype Run = Run(result: Result<int32, RuntimeError>, vars: Variables, stack: seq<Token>)

  /** The `while (EvaluationStack.Count > 1)` loop and the final `Pop`, on the reversed stack.
      Popping from an empty stack raises, so do a stack of two and an empty stack. */
  function Reduce(vars: Variables, s: seq<Token>): (r: Run)
    ensures r.stack == [] || r.result.Failure?
    decreases |s|
  {
    if |s| == 0 || |s| == 2 then Run(Failure(EmptyStack), vars, [])
    else if |s| == 1 then
      match OperandValue(vars, s[0])
      case Success((v, vs)) => Run(Success(v), vs, [])
      case Failure(e) => Run(Failure(e), vars, [])
    else
      var rest := s[..|s| - 3];
      var st := Apply(vars, s[|s| - 1], s[|s| - 2], s[|s| - 3]);
      match st.outcome
      case Failure(e) => Run(Failure(e), st.vars, rest)
      case Success(None) => Reduce(st.vars, rest)
      case Success(Some(v)) => Reduce(st.vars, rest + [IntToken(v)])
  }

  /** What the reduction does after a pass that left `st`, with `rest` below. */
  function Continue(st: Step, rest: seq<Token>): Run
  {
    match st.outcome
    case Failure(e) => Run(Failure(e), st.vars, rest)
    case Success(None) => Reduce(st.vars, rest)
    case Success(Some(v)) => Reduce(st.vars, rest + [IntToken(v)])
  }

  /** A pass takes the top three tokens, the first operand on top. */
  lemma ReduceOnTop(vars: Variables, rest: seq<Token>, op: Token, o2: Token, o1: Token)
    ensures Reduce(vars, rest + [op, o2, o1]) == Continue(Apply(vars, o1, o2, op), rest)
  {
    var s := rest + [op, o2, o1];
    assert s[|s| - 1] == o1 && s[|s| - 2] == o2 && s[|s| - 3] == op && s[..|s| - 3] == rest;
  }

  /** `Evaluate()` on the pushed stack: `ReverseStack`, then the reduction. */
  function Evaluation(vars: Variables, stack: seq<Token>): Run
  {
    Reduce(vars, Reverse(stack))
  }

  /** The interpreter object: its variables and its evaluation stack. */
  class Interpreter {
    var variables: Variables
    var stack: seq<Token>

    /** `new Interpreter()`. */
    constructor ()
      ensures variables == map[] && stack == []
    {
      variables := map[];
      stack := [];
    }

    /** `new Interpreter(vars)`. */
    constructor WithVariables(vars: Variables)
      ensures variables == vars && stack == []
    {
      variables := vars;
      stack := [];
    }

    /** A read of the variables: on success the value and the new variables are those `spec`
        gives; on an exception nothing changed. */
    predicate Read(r: Result<int32, RuntimeError>, spec: Result<(int32, Variables), RuntimeError>, before: Variables)
      reads this
    {
      match spec
      case Success(p) => r == Success(p.0) && variables == p.1
      case Failure(e) => r == Failure(e) && variables == before
    }

    method SetValue(name: Option<string>, value: int32) returns (r: Outcome<RuntimeError>)
      modifies this
      ensures stack == old(stack)
      ensures match Assigned(old(variables), name, value)
              case Success(vs) => r == Pass && variables == vs
              case Failure(e) => r == Fail(e) && variables == old(variables)
    {
      if name == None {
        return Fail(ArgumentNull);
      }
      if name.value in variables {
        variables := variables[name.value := value];
      } else {
        variables := variables[name.value := value];
      }
      r := Pass;
    }

    method GetValue(name: Option<string>) returns (r: Result<int32, RuntimeError>)
      modifies this
      ensures stack == old(stack) && Read(r, Lookup(old(variables), name), old(variables))
    {
      if name == None {
        return Failure(ArgumentNull);
      }
      if name.value in variables {
        r := Success(variables[name.value]);
      } else {
        variables := variables[name.value := 0];
        r := Success(0);
      }
    }

    /** `Visit`: the tokens of `n` in postfix order go on top of the stack. */
    method Visit(n: Node)
      modifies this
      ensures stack == old(stack) + Postfix(n) && variables == old(variables)
    {
      if n.Operand? {
        stack := stack + [n.token];
      } else if n.BinaryOperation? {
        Visit(n.left);
        Visit(n.right);
        stack := stack + [n.op];
        assert stack == old(stack) + (Postfix(n.left) + Postfix(n.right) + [n.op]);
      } else if n.Assignment? {
        Visit(n.expression);
        stack := stack + [n.ident];
        stack := stack + [AssignToken];
        assert stack == old(stack) + (Postfix(n.expression) + [n.ident, AssignToken]);
      }
    }

    /** `ReverseStack`: every token is popped onto a new stack, which replaces the old one. */
    method ReverseStack()
      modifies this
      ensures stack == Reverse(old(stack)) && variables == old(variables)
    {
      var temp: seq<Token> := [];
      while |stack| > 0
        invariant |temp| + |stack| == |old(stack)|
        invariant stack == old(stack)[..|stack|]
        invariant forall i :: 0 <= i < |temp| ==> temp[i] == old(stack)[|old(stack)| - 1 - i]
        invariant variables == old(variables)
        decreases |stack|
      {
        temp := temp + [stack[|stack| - 1]];
        stack := stack[..|stack| - 1];
      }
      stack := temp;
    }

    /** `EvaluationStack.Pop()`, which raises on an empty stack. */
    method Pop() returns (r: Result<Token, RuntimeError>)
      modifies this
      ensures variables == old(variables)
      ensures old(stack) == [] ==> r == Failure(EmptyStack) && stack == []
      ensures old(stack) != [] ==> r == Success(old(stack)[|old(stack)| - 1]) && stack == old(stack)[..|old(stack)| - 1]
    {
      if |stack| == 0 {
        return Failure(EmptyStack);
      }
      r := Success(stack[|stack| - 1]);
      stack := stack[..|stack| - 1];
    }

    method EvaluateOperand(t: Token) returns (r: Result<int32, RuntimeError>)
      modifies this
      ensures stack == old(stack) && Read(r, OperandValue(old(variables), t), old(variables))
    {
      if t.kind == INTERGER {
        match DotNetConvert.ParseInt32(t.lexeme)
        case Success(i) => r := Success(i);
        case Failure(e) => r := Failure(FromParse(e));
      } else if t.kind == IDENT {
        r := GetValue(t.lexeme);
      } else {
        r := Success(0);
      }
    }

    /** `Push(value)`. */
    method Push(value: int32)
      modifies this
      ensures stack == old(stack) + [IntToken(value)] && variables == old(variables)
    {
      stack := stack + [IntToken(value)];
    }

    /** The `switch` of one pass, with the three tokens popped: the variables and the pushed
        token are those `Apply` gives. */
    method ApplyOperator(o1: Token, o2: Token, op: Token) returns (r: Outcome<RuntimeError>)
      modifies this
      ensures var st := Apply(old(variables), o1, o2, op);
              variables == st.vars
              && match st.outcome
                 case Failure(e) => r == Fail(e) && stack == old(stack)
                 case Success(None) => r == Pass && stack == old(stack)
                 case Success(Some(v)) => r == Pass && stack == old(stack) + [IntToken(v)]
    {
      if IsArithmetic(op.kind) || op.kind == EXPONENT {
        var a := EvaluateOperand(o1);
        if a.Failure? { return Fail(a.error); }
        var b := EvaluateOperand(o2);
        if b.Failure? { return Fail(b.error); }
        if op.kind == EXPONENT {
          return Fail(FloatNotModelled);
        }
        var c := Arith(op.kind, a.value, b.value);
        if c.Failure? { return Fail(c.error); }
        Push(c.value);
      } else if op.kind == ASSIGN {
        var a := EvaluateOperand(o1);
        if a.Failure? { return Fail(a.error); }
        var s := SetValue(o2.lexeme, a.value);
        if s.Fail? { return s; }
        var b := EvaluateOperand(o1);
        if b.Failure? { return Fail(b.error); }
        Push(b.value);
      }
      r := Pass;
    }

    /** One pass of the `while` loop: pop `operand1`, `operand2` and the operator, and apply
        it. The reduction from the new state is the reduction from the old one, or the pass
        raised what the reduction ends with. */
    method ReducePass() returns (r: Outcome<RuntimeError>)
      requires |stack| > 1
      modifies this
      ensures |stack| < |old(stack)|
      ensures r.Pass? ==> Reduce(variables, stack) == Reduce(old(variables), old(stack))
      ensures r.Fail? ==> Run(Failure(r.error), variables, stack) == Reduce(old(variables), old(stack))
    {
      var operand1 := Pop();
      var operand2 := Pop();
      var operator := Pop();
      if operator.Failure? {
        return Fail(operator.error);
      }
      assert old(stack) == stack + [operator.value, operand2.value, operand1.value];
      r := ApplyOperator(operand1.value, operand2.value, operator.value);
    }

    /** `Evaluate()`: the result, the variables and the stack left are those `Evaluation`
        gives, on an exception too. */
    method Evaluate() returns (r: Result<int32, RuntimeError>)
      modifies this
      ensures Run(r, variables, stack) == Evaluation(old(variables), old(stack))
    {
      ReverseStack();
      while |stack| > 1
        invariant Reduce(variables, stack) == Evaluation(old(variables), old(stack))
        decreases |stack|
      {
        var s := ReducePass();
        if s.Fail? {
          return Failure(s.error);
        }
      }
      var last :- Pop();
      r := EvaluateOperand(last);
    }
  }
}
