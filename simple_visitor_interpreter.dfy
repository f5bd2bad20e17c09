/** The calculator's second evaluator (simple_interpreter/Visitor/Interpreter.cs). Visiting
    a tree pushes a typed `StackValue` for each of its tokens in postfix order; `Evaluate`
    turns the stack upside down and repeatedly pops `operand1` and `operand2`: an operator
    in second place makes a unary operation, otherwise a third item is popped as the
    operator of a binary operation or an assignment, whose result, if any, is pushed back.
    Variables hold any .NET object, and reading an unbound name binds it to null.

    The values, the exceptions and the .NET conversions are those of XssValues; the pure
    functions below state what each step computes, and the class follows them. A stack is
    a sequence whose last element is the top. */
module SimpleVisitorInterpreter {
  import opened Wrappers
  import opened Tokens
  import opened Int32
  import opened XssOperand
  import opened XssAst
  import opened Stacks
  import opened XssValues
  import DotNetConvert

  /** `Dictionary<string, object> Variables`. */
  type Variables = map<string, Boxed>

  /** The token kinds `CreateStackValue` turns into an operator value. */
  const CalculatorOperators: set<TokenKind> := {PLUS, MINUS, MULTIPLY, DIVIDE, EXPONENT, ASSIGN, AND, OR, XOR, NOT}

  /** The ASSIGN token `Visit(Assignment)` pushes. */
  const AssignToken := Token(ASSIGN, Some("="))

  /** `StackValue.CreateStackValue(token)` of the calculator: operators carry their kind,
      literals are parsed from the lexeme, and every other token, a name among them, is an
      identifier carrying its lexeme. */
  function StackValueOf(t: Token): (r: Result<StackValue, RuntimeError>)
    ensures r.Failure? ==> t.kind in {INTERGER, FLOAT, BOOL, CHAR}
    ensures t.kind in CalculatorOperators ==> r == Success(StackValue(Operator, BTokenType(t.kind)))
    ensures t.kind !in CalculatorOperators + {INTERGER, FLOAT, BOOL, CHAR, STRING} ==> r == Success(StackValue(Identifier, StringBox(t.lexeme)))
    ensures r.Success? ==> (r.value.kind == Operator <==> t.kind in CalculatorOperators)
  {
    if t.kind in CalculatorOperators then Success(StackValue(Operator, BTokenType(t.kind)))
    else if t.kind == INTERGER then
      match DotNetConvert.ParseInt32(t.lexeme)
      case Success(i) => Success(StackValue(Integer, BInt(i)))
      case Failure(e) => Failure(FromParse(e))
    else if t.kind == FLOAT then
      if t.lexeme == None then Failure(ArgumentNull) else Success(StackValue(Float, BFloat(t.lexeme.value)))
    else if t.kind == BOOL then
      match DotNetConvert.ParseBool(t.lexeme)
      case Success(b) => Success(StackValue(Bool, BBool(b)))
      case Failure(e) => Failure(FromParse(e))
    else if t.kind == CHAR then
      if t.lexeme == None then Failure(NullReference)
      else if t.lexeme.value == [] then Failure(IndexOutOfRange)
      else Success(StackValue(Char, BChar(t.lexeme.value[0])))
    else if t.kind == STRING then Success(StackValue(String, StringBox(t.lexeme)))
    else Success(StackValue(Identifier, StringBox(t.lexeme)))
  }

  // ---- The visit ----

  /** What a visit pushed, bottom first, and the exception that stopped it, if one did. */
  datatype Pushed = Pushed(values: seq<StackValue>, error: Option<RuntimeError>)

  /** One visit after another: the second starts only if the first raised nothing. */
  function Then(a: Pushed, b: Pushed): Pushed
  {
    if a.error.Some? then a else Pushed(a.values + b.values, b.error)
  }

  /** `EvaluationStack.Push(StackValue.CreateStackValue(t))`. */
  function PushedToken(t: Token): Pushed
  {
    match StackValueOf(t)
    case Success(v) => Pushed([v], None)
    case Failure(e) => Pushed([], Some(e))
  }

  /** The `Visit` methods: an operation pushes its operands, left first, and then its
      operator; an assignment its expression, its name and an ASSIGN; an operand its
      token. Every other node goes to `Visit(ASTNode)`, which only prints. */
  function Visited(n: Node): Pushed
  {
    if n.Operand? then PushedToken(n.token)
    else if n.BinaryOperation? then Then(Visited(n.left), Then(Visited(n.right), PushedToken(n.op)))
    else if n.UnaryOperation? then Then(Visited(n.operand), PushedToken(n.op))
    else if n.Assignment? then Then(Visited(n.expression), Then(PushedToken(n.ident), PushedToken(AssignToken)))
    else Pushed([], None)
  }

  /** The tokens of a tree in the order the visit meets them. */
  function PostfixTokens(n: Node): seq<Token>
  {
    if n.Operand? then [n.token]
    else if n.BinaryOperation? then PostfixTokens(n.left) + PostfixTokens(n.right) + [n.op]
    else if n.UnaryOperation? then PostfixTokens(n.operand) + [n.op]
    else if n.Assignment? then PostfixTokens(n.expression) + [n.ident, AssignToken]
    else []
  }

  /** Creating the stack values of `ts` in order, up to the first that raises. */
  function CreateAll(ts: seq<Token>): (p: Pushed)
    ensures |p.values| <= |ts|
    ensures p.error == None ==> |p.values| == |ts| && forall i :: 0 <= i < |ts| ==> StackValueOf(ts[i]) == Success(p.values[i])
    ensures p.error.Some? ==> |p.values| < |ts| && StackValueOf(ts[|p.values|]) == Failure(p.error.value)
    ensures forall i :: 0 <= i < |p.values| ==> StackValueOf(ts[i]) == Success(p.values[i])
    decreases |ts|
  {
    if ts == [] then Pushed([], None) else Then(PushedToken(ts[0]), CreateAll(ts[1..]))
  }

  // ---- Variables ----

  /** `SetVariableValue(var, value)`: the name is bound to the value, whether it was bound
      before or not; a null name makes the dictionary raise. */
  function Set(vars: Variables, name: Option<string>, value: Boxed): (r: Result<Variables, RuntimeError>)
    ensures name == None <==> r == Failure(ArgumentNull)
    ensures r.Success? ==> r.value.Keys == vars.Keys + {name.value} && r.value[name.value] == value
    ensures r.Success? ==> forall k :: k in vars && k != name.value ==> k in r.value && r.value[k] == vars[k]
  {
    match name
    case None => Failure(ArgumentNull)
    case Some(k) => Success(vars[k := value])
  }

  /** `GetVariableValue(var)`: the bound object, or null for an unbound name, which is then
      bound to null; a null name makes the dictionary raise. */
  function Get(vars: Variables, name: Option<string>): (r: Result<(Boxed, Variables), RuntimeError>)
    ensures name == None <==> r == Failure(ArgumentNull)
    ensures r.Success? ==> r.value.1 == vars[name.value := r.value.0]
    ensures r.Success? && name.value in vars ==> r.value.0 == vars[name.value]
    ensures r.Success? && name.value !in vars ==> r.value.0 == BNull
  {
    match name
    case None => Failure(ArgumentNull)
    case Some(k) => if k in vars then Success((vars[k], vars)) else Success((BNull, vars[k := BNull]))
  }

  // ---- .NET casts ----

  /** `(string)value`: a string or null; anything else is an invalid cast. */
  function AsString(b: Boxed): (r: Result<Option<string>, RuntimeError>)
    ensures r.Success? <==> b.BString? || b.BNull?
    ensures r.Success? ==> StringBox(r.value) == b
  {
    match b
    case BString(s) => Success(Some(s))
    case BNull => Success(None)
    case _ => Failure(InvalidCast)
  }

  /** `(int)value`: unboxing gives the int, or the number of a boxed enum; null raises a null
      reference, and any other object is an invalid cast. */
  function UnboxInt(b: Boxed): (r: Result<int32, RuntimeError>)
    ensures r.Success? <==> b.BInt? || b.BTokenType? || b.BValType?
    ensures b.BInt? ==> r == Success(b.i)
    ensures b.BNull? ==> r == Failure(NullReference)
    ensures r.Success? ==> UnboxEnum(b) == Success(r.value as int)
  {
    match b
    case BInt(i) => Success(i)
    case BTokenType(k) => Success(Ordinal(k) as int32)
    case BValType(t) => Success(ValOrdinal(t) as int32)
    case BNull => Failure(NullReference)
    case _ => Failure(InvalidCast)
  }

  /** `(bool)value`. */
  function UnboxBool(b: Boxed): (r: Result<bool, RuntimeError>)
    ensures r.Success? <==> b.BBool?
    ensures r.Success? ==> r.value == b.b
  {
    match b
    case BBool(v) => Success(v)
    case BNull => Failure(NullReference)
    case _ => Failure(InvalidCast)
  }

  /** `(float)value` and `(char)value`: the object itself when it has that type. */
  function UnboxAs(b: Boxed, float: bool): (r: Result<Boxed, RuntimeError>)
    ensures r.Success? <==> (if float then b.BFloat? else b.BChar?)
    ensures r.Success? ==> r.value == b
    ensures b.BNull? ==> r == Failure(NullReference)
  {
    if (float && b.BFloat?) || (!float && b.BChar?) then Success(b)
    else if b.BNull? then Failure(NullReference)
    else Failure(InvalidCast)
  }

  // ---- Reading stack values ----

  /** `EvaluateOperand(value)`: a literal's payload, unboxed as its kind; an identifier's
      variable, read; null for a Null value; and 0 for any other kind. */
  function Evaluated(vars: Variables, v: StackValue): (r: Result<(Boxed, Variables), RuntimeError>)
    ensures v.kind != Identifier && r.Success? ==> r.value.1 == vars
    ensures v.kind == Identifier && v.value.BString? ==> r == Get(vars, Some(v.value.s))
    ensures v.kind == Null ==> r == Success((BNull, vars))
    ensures v.kind !in {Integer, Float, Bool, Char, String, Identifier, Null} ==> r == Success((BInt(0), vars))
    ensures v.kind in {Integer, Float, Bool, Char} ==> (r.Success? <==> (if v.kind == Integer then UnboxInt(v.value).Success? else Classify(v.value) == Success(v)))
  {
    if v.kind == Integer then
      var i :- UnboxInt(v.value);
      Success((BInt(i), vars))
    else if v.kind == Float || v.kind == Char then
      var b :- UnboxAs(v.value, v.kind == Float);
      Success((b, vars))
    else if v.kind == Bool then
      var b :- UnboxBool(v.value);
      Success((BBool(b), vars))
    else if v.kind == String then
      var s :- AsString(v.value);
      Success((StringBox(s), vars))
    else if v.kind == Identifier then
      var name :- AsString(v.value);
      Get(vars, name)
    else if v.kind == Null then Success((BNull, vars))
    else Success((BInt(0), vars))
  }

  /** The kind `ResolveStackValue` gives an object read from a variable, tested in this
      order: null, float, bool, char, string, and anything else an Integer. */
  function RuntimeKind(b: Boxed): (t: ValType)
    ensures t == Null <==> b.BNull?
    ensures t == Float <==> b.BFloat?
    ensures t == Bool <==> b.BBool?
    ensures t == Char <==> b.BChar?
    ensures t == String <==> b.BString?
    ensures t == Integer <==> !(b.BNull? || b.BFloat? || b.BBool? || b.BChar? || b.BString?)
  {
    if b.BNull? then Null
    else if b.BFloat? then Float
    else if b.BBool? then Bool
    else if b.BChar? then Char
    else if b.BString? then String
    else Integer
  }

  /** `ResolveStackValue(value)`: an identifier becomes its variable's object, with the kind
      that object's run-time type gives; every other value is itself. */
  function Resolve(vars: Variables, v: StackValue): (r: Result<(StackValue, Variables), RuntimeError>)
    ensures v.kind != Identifier ==> r == Success((v, vars))
    ensures v.kind == Identifier && v.value.BString? ==>
              var g := Get(vars, Some(v.value.s));
              r == Success((StackValue(RuntimeKind(g.value.0), g.value.0), g.value.1))
    ensures r.Success? ==> r.value.0.kind != Identifier || v.kind == Identifier
    ensures v.kind == Identifier && r.Success? ==> r.value.0.kind in {Null, Float, Bool, Char, String, Integer}
  {
    if v.kind == Identifier then
      var name :- AsString(v.value);
      var (value, vs) :- Get(vars, name);
      Success((StackValue(RuntimeKind(value), value), vs))
    else Success((v, vars))
  }

  // ---- The operations on resolved values ----

  /** The operators the loop computes on numbers. */
  predicate IsArithmetic(k: TokenKind)
  {
    k in {PLUS, MINUS, MULTIPLY, DIVIDE}
  }

  /** `IntegerOperation`: both payloads are unboxed as `int`, the first first; `+ - *` wrap
      around, `/` truncates and raises on a zero divisor or on `int.MinValue / -1`, and any
      other operator gives 0. */
  function IntegerOperation(a: StackValue, b: StackValue, k: TokenKind): (r: Result<int32, RuntimeError>)
    ensures UnboxInt(a.value).Failure? ==> r == Failure(UnboxInt(a.value).error)
    ensures UnboxInt(a.value).Success? && UnboxInt(b.value).Failure? ==> r == Failure(UnboxInt(b.value).error)
    ensures r.Success? ==>
              var x := UnboxInt(a.value).value as int;
              var y := UnboxInt(b.value).value as int;
              (k == PLUS ==> r.value == Wrap(x + y)) && (k == MINUS ==> r.value == Wrap(x - y))
              && (k == MULTIPLY ==> r.value == Wrap(x * y)) && (k == DIVIDE ==> y != 0 && r.value as int == TruncQuot(x, y))
              && (!IsArithmetic(k) ==> r.value == 0)
    ensures UnboxInt(a.value).Success? && UnboxInt(b.value).Success? ==> (r.Failure? <==> k == DIVIDE && (UnboxInt(b.value).value == 0 || (UnboxInt(a.value).value as int == MIN && UnboxInt(b.value).value == -1)))
  {
    var i1 :- UnboxInt(a.value);
    var i2 :- UnboxInt(b.value);
    if k == PLUS then Success(Add(i1, i2))
    else if k == MINUS then Success(Sub(i1, i2))
    else if k == MULTIPLY then Success(Mul(i1, i2))
    else if k == DIVIDE then
      match Div(i1, i2)
      case Success(q) => Success(q)
      case Failure(e) => Failure(FromArith(e))
    else Success(0)
  }

  /** `operand.Value is float ? (float)operand.Value : (int)operand.Value`. */
  function FloatOperand(b: Boxed): (r: Outcome<RuntimeError>)
    ensures r.Pass? <==> b.BFloat? || UnboxInt(b).Success?
  {
    if b.BFloat? then Pass
    else match UnboxInt(b)
      case Success(_) => Pass
      case Failure(e) => Fail(e)
  }

  /** `FloatOperation`: both payloads are read as floats, the first first, and a read that
      unboxes something other than a float or an int raises; the float arithmetic itself
      is not modelled. */
  function FloatFailure(a: StackValue, b: StackValue): (e: RuntimeError)
    ensures FloatOperand(a.value).Fail? ==> e == FloatOperand(a.value).error
    ensures FloatOperand(a.value).Pass? && FloatOperand(b.value).Fail? ==> e == FloatOperand(b.value).error
    ensures FloatOperand(a.value).Pass? && FloatOperand(b.value).Pass? ==> e == FloatNotModelled
  {
    match FloatOperand(a.value)
    case Fail(e) => e
    case Pass =>
      match FloatOperand(b.value)
      case Fail(e) => e
      case Pass => FloatNotModelled
  }

  /** `StringOperation`: `ToString()` of both payloads, the first first, joined for `+`; any
      other operator gives the empty string. */
  function StringOperation(a: StackValue, b: StackValue, k: TokenKind): (r: Result<string, RuntimeError>)
    ensures r.Success? <==> BoxedToString(a.value).Success? && BoxedToString(b.value).Success?
    ensures r.Success? && k == PLUS ==> r.value == BoxedToString(a.value).value + BoxedToString(b.value).value
    ensures r.Success? && k != PLUS ==> r.value == ""
    ensures BoxedToString(a.value).Failure? ==> r == Failure(BoxedToString(a.value).error)
  {
    var s1 :- BoxedToString(a.value);
    var s2 :- BoxedToString(b.value);
    if k == PLUS then Success(s1 + s2) else Success("")
  }

  /** What an operation pushes (`Some`), that it pushes nothing (`None`), or what it raises. */
  type Effect = Result<Option<StackValue>, RuntimeError>

  /** `Push(IntegerOperation(...))`. */
  function IntegerEffect(a: StackValue, b: StackValue, k: TokenKind): (r: Effect)
    ensures IntegerOperation(a, b, k).Success? <==> r.Success?
    ensures r.Success? ==> r.value == Some(StackValue(Integer, BInt(IntegerOperation(a, b, k).value)))
  {
    var i :- IntegerOperation(a, b, k);
    Success(Some(StackValue(Integer, BInt(i))))
  }

  /** `+` on text: `Push(StringOperation(...))`; any other operator is undefined behaviour. */
  function ConcatEffect(a: StackValue, b: StackValue, k: TokenKind): (r: Effect)
    ensures k != PLUS ==> r == Failure(Undefined)
    ensures k == PLUS && r.Success? ==> StringOperation(a, b, PLUS).Success? && r.value == Some(StackValue(String, BString(StringOperation(a, b, PLUS).value)))
    ensures k == PLUS ==> (r.Success? <==> StringOperation(a, b, PLUS).Success?)
  {
    if k == PLUS then
      var s :- StringOperation(a, b, PLUS);
      Success(Some(StackValue(String, BString(s))))
    else Failure(Undefined)
  }

  /** The `switch` on two operands of the same kind. */
  function SameKinds(a: StackValue, b: StackValue, k: TokenKind): (r: Effect)
    requires a.kind == b.kind
    ensures a.kind == Integer && IsArithmetic(k) ==> r == IntegerEffect(a, b, k)
    ensures a.kind == Integer && k == EXPONENT ==> r == Failure(FloatFailure(a, b))
    ensures a.kind == Float && (IsArithmetic(k) || k == EXPONENT) ==> r == Failure(FloatFailure(a, b))
    ensures a.kind in {Integer, Float} && !IsArithmetic(k) && k != EXPONENT ==> r == Success(None)
    ensures a.kind in {Char, String} ==> r == ConcatEffect(a, b, k)
    ensures a.kind !in {Integer, Float, Char, String} ==> r == Success(None)
  {
    if a.kind == Integer then
      if IsArithmetic(k) then IntegerEffect(a, b, k)
      else if k == EXPONENT then Failure(FloatFailure(a, b))
      else Success(None)
    else if a.kind == Float then
      if IsArithmetic(k) || k == EXPONENT then Failure(FloatFailure(a, b)) else Success(None)
    else if a.kind == Char || a.kind == String then ConcatEffect(a, b, k)
    else Success(None)
  }

  /** The `switch` on two operands of different kinds, by the left one's kind. */
  function MixedKinds(a: StackValue, b: StackValue, k: TokenKind): (r: Effect)
    requires a.kind != b.kind
    ensures a.kind == Integer && b.kind == Char && IsArithmetic(k) ==> r == IntegerEffect(a, b, k)
    ensures (a.kind == Integer && b.kind in {Float, Char}) || (a.kind == Float && b.kind == Integer) ==>
              (k == EXPONENT || (IsArithmetic(k) && b.kind != Char) ==> r == Failure(FloatFailure(a, b)))
              && (!IsArithmetic(k) && k != EXPONENT ==> r == Success(None))
    ensures (a.kind == Integer && b.kind !in {Float, Char}) || (a.kind == Float && b.kind != Integer) ==> r == Failure(Undefined)
    ensures a.kind in {Char, Bool} ==> r == Failure(Undefined)
    ensures a.kind == String ==> r == ConcatEffect(a, b, k)
    ensures a.kind == Null ==> r == Success(Some(NullValue))
    ensures a.kind !in {Integer, Float, Char, Bool, String, Null} ==> r == Success(None)
  {
    if a.kind == Integer then
      if b.kind == Float then
        if IsArithmetic(k) || k == EXPONENT then Failure(FloatFailure(a, b)) else Success(None)
      else if b.kind == Char then
        if IsArithmetic(k) then IntegerEffect(a, b, k)
        else if k == EXPONENT then Failure(FloatFailure(a, b))
        else Success(None)
      else Failure(Undefined)
    else if a.kind == Float then
      if b.kind == Integer then
        if IsArithmetic(k) || k == EXPONENT then Failure(FloatFailure(a, b)) else Success(None)
      else Failure(Undefined)
    else if a.kind == Char || a.kind == Bool then Failure(Undefined)
    else if a.kind == String then ConcatEffect(a, b, k)
    else if a.kind == Null then Success(Some(NullValue))
    else Success(None)
  }

  /** What one pass did: the variables it leaves and its effect. */
  datatype Step = Step(vars: Variables, effect: Effect)

  /** `EvaluateBinaryOperation(op1, op2, op)`: both operands are resolved, the first first,
      and the operation is chosen by their kinds. */
  function Binary(vars: Variables, o1: StackValue, o2: StackValue, k: TokenKind): (s: Step)
  {
    match Resolve(vars, o1)
    case Failure(e) => Step(vars, Failure(e))
    case Success((a, v1)) =>
      match Resolve(v1, o2)
      case Failure(e) => Step(v1, Failure(e))
      case Success((b, v2)) =>
        Step(v2, if a.kind == b.kind then SameKinds(a, b, k) else MixedKinds(a, b, k))
  }

  /** `EvaluateUnaryOperation(operand, op)`: `-` negates an int (wrapping around at
      `int.MinValue`) and a float, `not` negates a bool, and every other combination pushes
      nothing. */
  function UnaryEffect(a: StackValue, k: TokenKind): (r: Effect)
    ensures a.kind == Integer && k == MINUS && UnboxInt(a.value).Success? ==> r == Success(Some(StackValue(Integer, BInt(Wrap(-(UnboxInt(a.value).value as int))))))
    ensures a.kind == Bool && k == NOT && a.value.BBool? ==> r == Success(Some(StackValue(Bool, BBool(!a.value.b))))
    ensures a.kind == Float && k == MINUS ==> r.Failure?
    ensures !(a.kind == Integer && k == MINUS) && !(a.kind == Float && k == MINUS) && !(a.kind == Bool && k == NOT) ==> r == Success(None)
    ensures r.Success? && r.value.Some? ==> r.value.value.kind == a.kind
  {
    if a.kind == Integer && k == MINUS then
      var i :- UnboxInt(a.value);
      Success(Some(StackValue(Integer, BInt(Neg(i)))))
    else if a.kind == Float && k == MINUS then
      var f :- UnboxAs(a.value, true);
      Failure(FloatNotModelled)
    else if a.kind == Bool && k == NOT then
      var b :- UnboxBool(a.value);
      Success(Some(StackValue(Bool, BBool(!b))))
    else Success(None)
  }

  /** The unary operation with the operand resolved first. */
  function Unary(vars: Variables, o: StackValue, k: TokenKind): (s: Step)
  {
    match Resolve(vars, o)
    case Failure(e) => Step(vars, Failure(e))
    case Success((a, v1)) => Step(v1, UnaryEffect(a, k))
  }

  /** ASSIGN: `SetVariableValue((string)operand2.Value, ResolveStackValue(operand1).Value)`,
      the cast first, then `Push(ResolveStackValue(operand2))`. */
  function Assign(vars: Variables, o1: StackValue, o2: StackValue): (s: Step)
    ensures s.effect.Success? ==> s.effect.value.Some?
  {
    match AsString(o2.value)
    case Failure(e) => Step(vars, Failure(e))
    case Success(name) =>
      match Resolve(vars, o1)
      case Failure(e) => Step(vars, Failure(e))
      case Success((a, v1)) =>
        match Set(v1, name, a.value)
        case Failure(e) => Step(v1, Failure(e))
        case Success(v2) =>
          match Resolve(v2, o2)
          case Failure(e) => Step(v2, Failure(e))
          case Success((b, v3)) => Step(v3, Success(Some(b)))
  }

  // ---- The reduction ----

  /** How an evaluation ends: its result or exception, the variables and the stack it leaves. */
  datatype Run = Run(result: Result<Boxed, RuntimeError>, vars: Variables, stack: seq<StackValue>)

  /** The `while (EvaluationStack.Count > 1)` loop and the final `EvaluateOperand(Pop())`,
      on the reversed stack. An operator under the top makes a unary pass, which pops two
      items; otherwise a third item is popped and unboxed as the operator of an assignment
      or of a binary operation. Popping from an empty stack raises. */
  function Reduce(vars: Variables, s: seq<StackValue>): (r: Run)
    ensures r.stack == [] || r.result.Failure?
    decreases |s|, 0
  {
    if |s| == 0 then Run(Failure(EmptyStack), vars, [])
    else if |s| == 1 then
      match Evaluated(vars, s[0])
      case Success((v, vs)) => Run(Success(v), vs, [])
      case Failure(e) => Run(Failure(e), vars, [])
    else if s[|s| - 2].kind == Operator then
      match UnboxTokenType(s[|s| - 2].value)
      case Failure(e) => Run(Failure(e), vars, s[..|s| - 2])
      case Success(k) => Continue(Unary(vars, s[|s| - 1], k), s[..|s| - 2])
    else if |s| == 2 then Run(Failure(EmptyStack), vars, [])
    else
      match UnboxTokenType(s[|s| - 3].value)
      case Failure(e) => Run(Failure(e), vars, s[..|s| - 3])
      case Success(k) =>
        var st := if k == ASSIGN then Assign(vars, s[|s| - 1], s[|s| - 2]) else Binary(vars, s[|s| - 1], s[|s| - 2], k);
        Continue(st, s[..|s| - 3])
  }

  /** What the reduction does after a pass that left `st`, with `rest` below. */
  function Continue(st: Step, rest: seq<StackValue>): (r: Run)
    ensures r.stack == [] || r.result.Failure?
    decreases |rest| + 1, 1
  {
    match st.effect
    case Failure(e) => Run(Failure(e), st.vars, rest)
    case Success(None) => Reduce(st.vars, rest)
    case Success(Some(v)) => Reduce(st.vars, rest + [v])
  }

  /** A binary pass takes the top three items, the first operand on top. */
  lemma ReduceBinaryOnTop(vars: Variables, rest: seq<StackValue>, op: StackValue, o2: StackValue, o1: StackValue)
    requires o2.kind != Operator
    ensures UnboxTokenType(op.value).Failure? ==> Reduce(vars, rest + [op, o2, o1]) == Run(Failure(UnboxTokenType(op.value).error), vars, rest)
    ensures UnboxTokenType(op.value).Success? ==>
              var k := UnboxTokenType(op.value).value;
              Reduce(vars, rest + [op, o2, o1]) == Continue(if k == ASSIGN then Assign(vars, o1, o2) else Binary(vars, o1, o2, k), rest)
  {
    var s := rest + [op, o2, o1];
    assert s[|s| - 1] == o1 && s[|s| - 2] == o2 && s[|s| - 3] == op && s[..|s| - 3] == rest;
  }

  /** A unary pass takes the top two items, the operand on top. */
  lemma ReduceUnaryOnTop(vars: Variables, rest: seq<StackValue>, o2: StackValue, o1: StackValue)
    requires o2.kind == Operator
    ensures UnboxTokenType(o2.value).Failure? ==> Reduce(vars, rest + [o2, o1]) == Run(Failure(UnboxTokenType(o2.value).error), vars, rest)
    ensures UnboxTokenType(o2.value).Success? ==> Reduce(vars, rest + [o2, o1]) == Continue(Unary(vars, o1, UnboxTokenType(o2.value).value), rest)
  {
    var s := rest + [o2, o1];
    assert s[|s| - 1] == o1 && s[|s| - 2] == o2 && s[..|s| - 2] == rest;
  }

  /** `Evaluate()`: null for an empty stack; otherwise `ReverseStack` and the reduction. */
  function Evaluation(vars: Variables, stack: seq<StackValue>): Run
  {
    if stack == [] then Run(Success(BNull), vars, []) else Reduce(vars, Reverse(stack))
  }

  /** A visit that raised stops there. */
  lemma ThenStops(a: Pushed, b: Pushed)
    requires a.error.Some?
    ensures Then(a, b) == a
  {
  }

  /** A visit that raised nothing goes on with the next one. */
  lemma ThenGoesOn(a: Pushed, b: Pushed)
    requires a.error.None?
    ensures Then(a, b) == Pushed(a.values + b.values, b.error)
  {
  }

  /** A stack of three or more is what lies under its top three, with them on top. */
  lemma TopThree(s: seq<StackValue>)
    requires |s| >= 3
    ensures s[..|s| - 1][..|s| - 2][..|s| - 3] == s[..|s| - 3]
    ensures s == s[..|s| - 3] + [s[|s| - 3], s[|s| - 2], s[|s| - 1]]
  {
  }

  /** Appending is associative. */
  lemma Associates(s: seq<StackValue>, t: seq<StackValue>, u: seq<StackValue>)
    ensures s + t + u == s + (t + u)
  {
  }

  /** Says how an outcome reports an optional exception. */
  predicate Raised(r: Outcome<RuntimeError>, e: Option<RuntimeError>)
  {
    match e
    case None => r == Pass
    case Some(x) => r == Fail(x)
  }

  /** The interpreter object: its variables and its evaluation stack. */
  class Interpreter {
    var variables: Variables
    var stack: seq<StackValue>

    /** `new Interpreter()`. */
    constructor ()
      ensures variables == map[] && stack == []
    {
      variables := map[];
      stack := [];
    }

    /** `new Interpreter(vars)`. */
    constructor WithVariables(vars: Variables)
      ensures variables == vars && stack == []
    {
      variables := vars;
      stack := [];
    }

    /** A read of the variables: on success the value and the new variables are those `spec`
        gives; on an exception nothing changed. */
    predicate Read<T(==)>(r: Result<T, RuntimeError>, spec: Result<(T, Variables), RuntimeError>, before: Variables)
      reads this
    {
      match spec
      case Success(p) => r == Success(p.0) && variables == p.1
      case Failure(e) => r == Failure(e) && variables == before
    }

    /** A pass ended as `st` says: its variables, and the stack with what it pushed. */
    predicate Applied(r: Outcome<RuntimeError>, st: Step, before: seq<StackValue>)
      reads this
    {
      variables == st.vars
      && match st.effect
         case Failure(e) => r == Fail(e) && stack == before
         case Success(None) => r == Pass && stack == before
         case Success(Some(v)) => r == Pass && stack == before + [v]
    }

    method SetVariableValue(name: Option<string>, value: Boxed) returns (r: Outcome<RuntimeError>)
      modifies this
      ensures stack == old(stack)
      ensures match Set(old(variables), name, value)
              case Success(vs) => r == Pass && variables == vs
              case Failure(e) => r == Fail(e) && variables == old(variables)
    {
      if name == None {
        return Fail(ArgumentNull);
      }
      if name.value in variables {
        variables := variables[name.value := value];
      } else {
        variables := variables[name.value := value];
      }
      r := Pass;
    }

    method GetVariableValue(name: Option<string>) returns (r: Result<Boxed, RuntimeError>)
      modifies this
      ensures stack == old(stack) && Read(r, Get(old(variables), name), old(variables))
    {
      if name == None {
        return Failure(ArgumentNull);
      }
      if name.value in variables {
        r := Success(variables[name.value]);
      } else {
        variables := variables[name.value := BNull];
        r := Success(BNull);
      }
    }

    /** The variables are `vars`, the stack is `before` with what `p` pushed on top, and `r`
        reports the exception `p` stopped at. */
    predicate Extends(r: Outcome<RuntimeError>, p: Pushed, before: seq<StackValue>, vars: Variables)
      reads this
    {
      variables == vars && stack == before + p.values && Raised(r, p.error)
    }

    /** `EvaluationStack.Push(StackValue.CreateStackValue(t))`. */
    method PushToken(t: Token) returns (r: Outcome<RuntimeError>)
      modifies this
      ensures Extends(r, PushedToken(t), old(stack), old(variables))
    {
      var v := StackValueOf(t);
      if v.Failure? {
        return Fail(v.error);
      }
      stack := stack + [v.value];
      r := Pass;
    }

    /** `Visit`: the values of `n` in postfix order go on top of the stack, up to the first
        token whose value cannot be created. */
    method Visit(n: Node) returns (r: Outcome<RuntimeError>)
      modifies this
      ensures Extends(r, Visited(n), old(stack), old(variables))
      decreases n, 2
    {
      if n.Operand? {
        r := PushToken(n.token);
      } else if n.BinaryOperation? {
        r := VisitBinary(n.left, n.op, n.right);
      } else if n.UnaryOperation? {
        r := VisitThen(n.operand, n.op);
      } else if n.Assignment? {
        r := VisitAssignment(n);
      } else {
        r := Pass;
      }
    }

    /** `Visit(BinaryOperation)` on `left op right`: the left operand, then the right one and
        the operator. */
    method VisitBinary(left: Node, op: Token, right: Node) returns (r: Outcome<RuntimeError>)
      modifies this
      ensures Extends(r, Then(Visited(left), Then(Visited(right), PushedToken(op))), old(stack), old(variables))
      decreases BinaryOperation(left, op, right), 1
    {
      ghost var a, rest := Visited(left), Then(Visited(right), PushedToken(op));
      ghost var s0 := stack;
      r := Visit(left);
      if r.Fail? {
        ThenStops(a, rest);
        return;
      }
      ghost var s1 := stack;
      r := VisitThen(right, op);
      ThenGoesOn(a, rest);
      Associates(s0, a.values, rest.values);
    }

    /** `Visit(Assignment)`: the name is visited as an operand. */
    method VisitAssignment(n: Node) returns (r: Outcome<RuntimeError>)
      requires n.Assignment?
      modifies this
      ensures Extends(r, Visited(n), old(stack), old(variables))
      decreases n, 1
    {
      r := Visit(n.expression);
      if r.Fail? { return; }
      r := PushToken(n.ident);
      if r.Fail? { return; }
      r := PushToken(AssignToken);
      assert stack == old(stack) + (Visited(n.expression).values + (PushedToken(n.ident).values + PushedToken(AssignToken).values));
    }

    /** An operand and then its operator: the right operand of a binary operation, or the
        operand of a unary one. */
    method VisitThen(n: Node, op: Token) returns (r: Outcome<RuntimeError>)
      modifies this
      ensures Extends(r, Then(Visited(n), PushedToken(op)), old(stack), old(variables))
      decreases n, 3
    {
      r := Visit(n);
      if r.Fail? { return; }
      r := PushToken(op);
    }

    /** `ReverseStack`: every value is popped onto a new stack, which replaces the old one. */
    method ReverseStack()
      modifies this
      ensures stack == Reverse(old(stack)) && variables == old(variables)
    {
      var temp: seq<StackValue> := [];
      while |stack| > 0
        invariant |temp| + |stack| == |old(stack)|
        invariant stack == old(stack)[..|stack|]
        invariant forall i :: 0 <= i < |temp| ==> temp[i] == old(stack)[|old(stack)| - 1 - i]
        invariant variables == old(variables)
        decreases |stack|
      {
        temp := temp + [stack[|stack| - 1]];
        stack := stack[..|stack| - 1];
      }
      stack := temp;
    }

    /** `EvaluationStack.Pop()`, which raises on an empty stack. */
    method Pop() returns (r: Result<StackValue, RuntimeError>)
      modifies this
      ensures variables == old(variables)
      ensures old(stack) == [] ==> r == Failure(EmptyStack) && stack == []
      ensures old(stack) != [] ==> r == Success(old(stack)[|old(stack)| - 1]) && stack == old(stack)[..|old(stack)| - 1]
    {
      if |stack| == 0 {
        return Failure(EmptyStack);
      }
      r := Success(stack[|stack| - 1]);
      stack := stack[..|stack| - 1];
    }

    /** `Push(value)`. */
    method Push(v: StackValue)
      modifies this
      ensures stack == old(stack) + [v] && variables == old(variables)
    {
      stack := stack + [v];
    }

    method EvaluateOperand(v: StackValue) returns (r: Result<Boxed, RuntimeError>)
      modifies this
      ensures stack == old(stack) && Read(r, Evaluated(old(variables), v), old(variables))
    {
      if v.kind == Integer {
        var i :- UnboxInt(v.value);
        r := Success(BInt(i));
      } else if v.kind == Float || v.kind == Char {
        r := UnboxAs(v.value, v.kind == Float);
      } else if v.kind == Bool {
        var b :- UnboxBool(v.value);
        r := Success(BBool(b));
      } else if v.kind == String {
        var s :- AsString(v.value);
        r := Success(StringBox(s));
      } else if v.kind == Identifier {
        var name :- AsString(v.value);
        r := GetVariableValue(name);
      } else if v.kind == Null {
        r := Success(BNull);
      } else {
        r := Success(BInt(0));
      }
    }

    method ResolveStackValue(v: StackValue) returns (r: Result<StackValue, RuntimeError>)
      modifies this
      ensures stack == old(stack) && Read(r, Resolve(old(variables), v), old(variables))
    {
      if v.kind == Identifier {
        var name :- AsString(v.value);
        var value :- GetVariableValue(name);
        r := Success(StackValue(RuntimeKind(value), value));
      } else {
        r := Success(v);
      }
    }

    /** Pushes what an operation gives, or raises its exception. */
    method Perform(effect: Effect) returns (r: Outcome<RuntimeError>)
      modifies this
      ensures Applied(r, Step(old(variables), effect), old(stack))
    {
      match effect
      case Failure(e) => r := Fail(e);
      case Success(None) => r := Pass;
      case Success(Some(v)) =>
        Push(v);
        r := Pass;
    }

    method EvaluateBinaryOperation(o1: StackValue, o2: StackValue, k: TokenKind) returns (r: Outcome<RuntimeError>)
      modifies this
      ensures Applied(r, Binary(old(variables), o1, o2, k), old(stack))
    {
      var a := ResolveStackValue(o1);
      if a.Failure? { return Fail(a.error); }
      var b := ResolveStackValue(o2);
      if b.Failure? { return Fail(b.error); }
      var operand1, operand2 := a.value, b.value;
      r := Perform(if operand1.kind == operand2.kind then SameKinds(operand1, operand2, k) else MixedKinds(operand1, operand2, k));
    }

    method EvaluateUnaryOperation(o: StackValue, k: TokenKind) returns (r: Outcome<RuntimeError>)
      modifies this
      ensures Applied(r, Unary(old(variables), o, k), old(stack))
    {
      var a := ResolveStackValue(o);
      if a.Failure? { return Fail(a.error); }
      r := Perform(UnaryEffect(a.value, k));
    }

    /** The ASSIGN branch of the loop. */
    method Assignment(o1: StackValue, o2: StackValue) returns (r: Outcome<RuntimeError>)
      modifies this
      ensures Applied(r, Assign(old(variables), o1, o2), old(stack))
    {
      var name := AsString(o2.value);
      if name.Failure? { return Fail(name.error); }
      var a := ResolveStackValue(o1);
      if a.Failure? { return Fail(a.error); }
      var s := SetVariableValue(name.value, a.value.value);
      if s.Fail? { return s; }
      var b := ResolveStackValue(o2);
      if b.Failure? { return Fail(b.error); }
      Push(b.value);
      r := Pass;
    }

    /** One pass of the `while` loop. The reduction from the new state is the reduction from
        the old one, or the pass raised what the reduction ends with. */
    method ReducePass() returns (r: Outcome<RuntimeError>)
      requires |stack| > 1
      modifies this
      ensures |stack| < |old(stack)|
      ensures r.Pass? ==> Reduce(variables, stack) == Reduce(old(variables), old(stack))
      ensures r.Fail? ==> Run(Failure(r.error), variables, stack) == Reduce(old(variables), old(stack))
    {
      if stack[|stack| - 2].kind == Operator {
        r := UnaryPass();
      } else {
        r := BinaryPass();
      }
    }

    /** The pass with an operator under the top value: a unary operation. */
    method UnaryPass() returns (r: Outcome<RuntimeError>)
      requires |stack| > 1 && stack[|stack| - 2].kind == Operator
      modifies this
      ensures |stack| < |old(stack)|
      ensures r.Pass? ==> Reduce(variables, stack) == Reduce(old(variables), old(stack))
      ensures r.Fail? ==> Run(Failure(r.error), variables, stack) == Reduce(old(variables), old(stack))
    {
      var operand1 := Pop();
      var operand2 := Pop();
      ReduceUnaryOnTop(variables, stack, operand2.value, operand1.value);
      assert old(stack) == stack + [operand2.value, operand1.value];
      var op := UnboxTokenType(operand2.value.value);
      if op.Failure? { return Fail(op.error); }
      r := EvaluateUnaryOperation(operand1.value, op.value);
    }

    /** The pass with a value under the top one: the third value is the operator of a binary
        operation or an assignment. */
    method BinaryPass() returns (r: Outcome<RuntimeError>)
      requires |stack| > 1 && stack[|stack| - 2].kind != Operator
      modifies this
      ensures |stack| < |old(stack)|
      ensures r.Pass? ==> Reduce(variables, stack) == Reduce(old(variables), old(stack))
      ensures r.Fail? ==> Run(Failure(r.error), variables, stack) == Reduce(old(variables), old(stack))
    {
      var operand1 := Pop();
      var operand2 := Pop();
      var third := Pop();
      if third.Failure? { return Fail(third.error); }
      TopThree(old(stack));
      ReduceBinaryOnTop(variables, stack, third.value, operand2.value, operand1.value);
      var op := UnboxTokenType(third.value.value);
      if op.Failure? { return Fail(op.error); }
      if op.value == ASSIGN {
        r := Assignment(operand1.value, operand2.value);
      } else {
        r := EvaluateBinaryOperation(operand1.value, operand2.value, op.value);
      }
    }

    /** `Evaluate()`: the result, the variables and the stack left are those `Evaluation`
        gives, on an exception too. */
    method Evaluate() returns (r: Result<Boxed, RuntimeError>)
      modifies this
      ensures Run(r, variables, stack) == Evaluation(old(variables), old(stack))
    {
      if |stack| == 0 {
        return Success(BNull);
      }
      ReverseStack();
      while |stack| > 1
        invariant Reduce(variables, stack) == Evaluation(old(variables), old(stack))
        decreases |stack|
      {
        var s := ReducePass();
        if s.Fail? {
          return Failure(s.error);
        }
      }
      var last :- Pop();
      r := EvaluateOperand(last);
    }
  }
}
