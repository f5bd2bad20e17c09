/** The run-time values of the XSS interpreter (XSS/Visitor/Interpreter.cs): the .NET objects a
    `StackValue` or a scope can hold, the exceptions evaluation can raise, the construction of
    a stack value from a token, and the .NET conversions the operators apply to stored
    objects. */
module XssValues {
  import opened Wrappers
  import opened Int32
  import opened Tokens
  import opened XssOperand
  import opened XssAst
  import XssSignature
  import DotNetConvert
  import XssExtension

  /** A boxed .NET object: null, an int, a float (kept as the text it was parsed from), a bool,
      a char, a string, a boxed `ValType` or `TokenType`, a `FunctionCall` node, or the
      interpreter's `NativeFunction` wrapper of a declaration. */
  datatype Boxed =
    | BNull
    | BInt(i: int32)
    | BFloat(text: string)
    | BBool(b: bool)
    | BChar(c: char)
    | BString(s: string)
    | BValType(t: ValType)
    | BTokenType(k: TokenKind)
    | BCall(call: Node)
    | BFunction(decl: FunctionDeclaration)

  /** `StackValue`: a kind tag and the object it describes. */
  datatype StackValue = StackValue(kind: ValType, value: Boxed)

  /** `StackValue.Null`. */
  const NullValue := StackValue(Null, BNull)

  /** The exceptions evaluation can raise. `Undefined` is the interpreter's own "Undefined
      behaviour" runtime error; `FloatNotModelled` stands for any float computation;
      `OutOfFuel` ends a computation that has used up its step budget. */
  datatype RuntimeError =
    | NullReference
    | InvalidCast
    | IndexOutOfRange
    | ArgumentNull
    | BadFormat
    | ParseOverflow
    | DivideByZero
    | ArithmeticOverflow
    | EmptyStack
    | NotDefined(name: string)
    | AlreadyDefined(name: string)
    | Undefined
    | UnknownValueType
    | FloatNotModelled
    | OutOfFuel

  function FromParse(e: DotNetConvert.ParseError): RuntimeError
  {
    match e
    case ArgumentNull => ArgumentNull
    case FormatError => BadFormat
    case OverflowError => ParseOverflow
  }

  function FromArith(e: Int32.ArithError): RuntimeError
  {
    match e
    case DivideByZero => RuntimeError.DivideByZero
    case Overflow => ArithmeticOverflow
  }

  /** The token kinds `CreateStackValue` turns into an operator value. */
  predicate IsOperatorKind(k: TokenKind)
  {
    k in {PLUS, MINUS, MULTIPLY, DIVIDE, MODULO, EXPONENT, ASSIGN, VAR, AND, OR, XOR, NOT,
          EQUAL, NOTEQUAL, LARGER, LARGEREQUAL, LESSER, LESSEREQUAL, IS, TYPEOF}
  }

  /** `StackValue.CreateStackValue(token)`: operators carry their kind; literals are parsed
      from the lexeme (`int.Parse`, `float.Parse`, `bool.Parse`, `lexeme[0]`); NULL carries the
      string "null"; TYPE carries the kind its lexeme names; every other token is an
      identifier carrying its lexeme. */
  function CreateStackValue(t: Token): (r: Result<StackValue, RuntimeError>)
    ensures r.Failure? ==> t.kind in {INTERGER, FLOAT, BOOL, CHAR}
    ensures IsOperatorKind(t.kind) ==> r == Success(StackValue(Operator, BTokenType(t.kind)))
    ensures r.Success? ==> (r.value.kind == Operator <==> IsOperatorKind(t.kind)) && r.value.kind != ValType.FunctionCall
  {
    if IsOperatorKind(t.kind) then Success(StackValue(Operator, BTokenType(t.kind)))
    else match t.kind
      case INTERGER =>
        (match DotNetConvert.ParseInt32(t.lexeme)
         case Success(i) => Success(StackValue(Integer, BInt(i)))
         case Failure(e) => Failure(FromParse(e)))
      case FLOAT =>
        if t.lexeme == None then Failure(ArgumentNull) else Success(StackValue(Float, BFloat(t.lexeme.value)))
      case BOOL =>
        (match DotNetConvert.ParseBool(t.lexeme)
         case Success(b) => Success(StackValue(Bool, BBool(b)))
         case Failure(e) => Failure(FromParse(e)))
      case CHAR =>
        if t.lexeme == None then Failure(NullReference)
        else if t.lexeme.value == [] then Failure(IndexOutOfRange)
        else Success(StackValue(Char, BChar(t.lexeme.value[0])))
      case STRING => Success(StackValue(String, StringBox(t.lexeme)))
      case NULL => Success(StackValue(Null, BString("null")))
      case TYPE => Success(StackValue(Type, BValType(XssExtension.ToValType(t.lexeme))))
      case _ => Success(StackValue(Identifier, StringBox(t.lexeme)))
  }

  /** A C# string reference, boxed. */
  function StringBox(s: Option<string>): (b: Boxed)
    ensures b.BNull? <==> s == None
    ensures s.Some? ==> b == BString(s.value)
  {
    match s
    case None => BNull
    case Some(x) => BString(x)
  }

  /** Where the operand node and the stack value classify a token alike: on every literal,
      identifier and TYPE token (the operator kinds, NULL and the rest differ, because the
      operand node leaves them at `Null` while the stack value calls them operators or
      identifiers). */
  lemma CreateAgreesWithOperand(t: Token)
    requires t.kind in {INTERGER, FLOAT, BOOL, CHAR, STRING, IDENT, TYPE}
    requires CreateStackValue(t).Success?
    ensures CreateStackValue(t).value.kind == OperandType(t)
  {
  }

  /** An int's rendering gives back that int, and a null lexeme makes `int.Parse` fail. */
  lemma CreateInteger(i: int32)
    ensures CreateStackValue(Token(INTERGER, Some(DotNetConvert.Int32ToString(i)))) == Success(StackValue(Integer, BInt(i)))
    ensures CreateStackValue(Token(INTERGER, None)) == Failure(ArgumentNull)
  {
    DotNetConvert.ParseInt32ToString(i);
  }

  /** The word of a bool gives that bool. */
  lemma CreateBool(b: bool)
    ensures CreateStackValue(Token(BOOL, Some(if b then "true" else "false"))) == Success(StackValue(Bool, BBool(b)))
  {
  }

  /** A char token needs a lexeme with a first character, which it carries. */
  lemma CreateCharLiterals(c: char)
    ensures CreateStackValue(Token(CHAR, Some([c]))) == Success(StackValue(Char, BChar(c)))
    ensures CreateStackValue(Token(CHAR, None)) == Failure(NullReference)
    ensures CreateStackValue(Token(CHAR, Some(""))) == Failure(IndexOutOfRange)
  {
  }

  /** Strings, type names, null and names carry their lexeme. */
  lemma CreateOtherLiterals(s: string)
    ensures CreateStackValue(Token(STRING, Some(s))) == Success(StackValue(String, BString(s)))
    ensures CreateStackValue(Token(TYPE, Some("INT"))) == Success(StackValue(Type, BValType(Integer)))
    ensures CreateStackValue(Token(NULL, Some("null"))) == Success(StackValue(Null, BString("null")))
    ensures CreateStackValue(Token(IDENT, Some(s))) == Success(StackValue(Identifier, BString(s)))
  {
  }

  /** The `switch (value)` of `ResolveStackValue` on an object read from a scope: the kind
      follows the object's run-time type; a boxed enum or a call node is an unknown type. */
  function Classify(b: Boxed): (r: Result<StackValue, RuntimeError>)
    ensures r.Success? <==> !(b.BValType? || b.BTokenType? || b.BCall?)
    ensures r.Success? ==> r.value.value == b && r.value.kind != Identifier && r.value.kind != ValType.FunctionCall
  {
    match b
    case BNull => Success(StackValue(Null, b))
    case BFloat(_) => Success(StackValue(Float, b))
    case BBool(_) => Success(StackValue(Bool, b))
    case BChar(_) => Success(StackValue(Char, b))
    case BString(_) => Success(StackValue(String, b))
    case BInt(_) => Success(StackValue(Integer, b))
    case BFunction(_) => Success(StackValue(Function, b))
    case _ => Failure(UnknownValueType)
  }

  /** `object.ToString()` on a boxed value (null raises); a float's text is not modelled. */
  function BoxedToString(b: Boxed): (r: Result<string, RuntimeError>)
    ensures r.Failure? <==> b.BNull? || b.BFloat?
  {
    match b
    case BNull => Failure(NullReference)
    case BInt(i) => Success(DotNetConvert.Int32ToString(i))
    case BFloat(_) => Failure(FloatNotModelled)
    case BBool(v) => Success(DotNetConvert.BoolToString(v))
    case BChar(c) => Success([c])
    case BString(s) => Success(s)
    case BValType(t) => Success(ValTypeName(t))
    case BTokenType(k) => Success(KindName(k))
    case BCall(_) => Success("XSS.AST.FunctionCall")
    case BFunction(d) => Success(XssSignature.DeclarationValue(d))
  }

  /** Unboxing an object as an `int`-based enum, giving the underlying number: either enum, or
      an int, unboxes; null raises a null reference; anything else is an invalid cast. */
  function UnboxEnum(b: Boxed): (r: Result<int, RuntimeError>)
    ensures r.Success? <==> b.BValType? || b.BTokenType? || b.BInt?
    ensures b.BNull? ==> r == Failure(NullReference)
  {
    match b
    case BValType(t) => Success(ValOrdinal(t))
    case BTokenType(k) => Success(Ordinal(k))
    case BInt(i) => Success(i as int)
    case BNull => Failure(NullReference)
    case _ => Failure(InvalidCast)
  }

  /** `(TokenType)value`: the operator an item on the stack stands for; a number outside the
      declared members names no kind the operator switches know, and is an error here. */
  function UnboxTokenType(b: Boxed): (r: Result<TokenKind, RuntimeError>)
    ensures b.BTokenType? ==> r == Success(b.k)
    ensures b.BNull? ==> r == Failure(NullReference)
  {
    var n :- UnboxEnum(b);
    match FromOrdinal(n)
    case Some(k) => Success(k)
    case None => Failure(InvalidCast)
  }
}
