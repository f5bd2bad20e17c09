/** The value kinds of XSS and the classification an operand node gives its token
    (XSS/AST/Operand.cs). An operand node stores only its token; its kind is the function
    `OperandType` of the token, which is what the C# constructor computes once. */
module XssOperand {
  import opened Wrappers
  import opened Tokens

  /** `ValType`, in declaration order; `Null` is the first member and so the default. */
  datatype ValType =
    | Null | Integer | Float | Char | Bool | String | Identifier | Operator | Type
    | FunctionCall | Function | Any

  const ValTypeCount: nat := 12

  /** `(int)t`. */
  function ValOrdinal(t: ValType): (n: nat)
    ensures n < ValTypeCount
  {
    match t
    case Null => 0 case Integer => 1 case Float => 2 case Char => 3 case Bool => 4
    case String => 5 case Identifier => 6 case Operator => 7 case Type => 8
    case FunctionCall => 9 case Function => 10 case Any => 11
  }

  /** `(ValType)n` for an `n` that names a declared member. */
  function ValFromOrdinal(n: int): (r: Option<ValType>)
    ensures r.Some? <==> 0 <= n < ValTypeCount
    ensures r.Some? ==> ValOrdinal(r.value) == n
  {
    match n
    case 0 => Some(Null) case 1 => Some(Integer) case 2 => Some(Float) case 3 => Some(Char)
    case 4 => Some(Bool) case 5 => Some(String) case 6 => Some(Identifier)
    case 7 => Some(Operator) case 8 => Some(Type) case 9 => Some(FunctionCall)
    case 10 => Some(Function) case 11 => Some(Any)
    case _ => None
  }

  /** The member's name, which is what `ToString()` of a boxed `ValType` gives. */
  function ValTypeName(t: ValType): string
  {
    match t
    case Null => "Null" case Integer => "Integer" case Float => "Float" case Char => "Char"
    case Bool => "Bool" case String => "String" case Identifier => "Identifier"
    case Operator => "Operator" case Type => "Type" case FunctionCall => "FunctionCall"
    case Function => "Function" case Any => "Any"
  }

  /** The kind the `Operand` constructor assigns to its token. */
  function OperandType(t: Token): (v: ValType)
    ensures t.kind == INTERGER <==> v == Integer
    ensures t.kind == FLOAT <==> v == Float
    ensures t.kind == BOOL <==> v == Bool
    ensures t.kind == CHAR <==> v == Char
    ensures t.kind == STRING <==> v == String
    ensures t.kind == IDENT <==> v == Identifier
    ensures t.kind == TYPE <==> v == Type
    ensures v in {Null, Integer, Float, Bool, Char, String, Identifier, Type}
  {
    match t.kind
    case INTERGER => Integer
    case FLOAT => Float
    case BOOL => Bool
    case CHAR => Char
    case STRING => String
    case IDENT => Identifier
    case TYPE => Type
    case _ => Null
  }

  /** `Value()`: the token's lexeme, unchanged (null stays null). */
  function OperandValue(t: Token): (s: Option<string>)
    ensures s == t.lexeme
  {
    t.lexeme
  }

  /** A C# string in a concatenation: null contributes nothing. */
  function Text(s: Option<string>): string { s.GetOr("") }

  /** `ToString()`: the lexeme between angle brackets, quoted for characters and strings,
      and the word null for the kinds that carry no lexeme rendering. */
  function OperandToString(t: Token): string
  {
    var repr := match OperandType(t)
      case Integer | Float | Bool | Identifier | Operator | Type => Text(t.lexeme)
      case Char => "'" + Text(t.lexeme) + "'"
      case String => "\"" + Text(t.lexeme) + "\""
      case _ => "null";
    "<" + repr + ">"
  }

  /** Every token kind outside the seven literal-like kinds is classified as `Null`,
      including NULL itself and every operator. */
  lemma OtherKindsAreNull(t: Token)
    requires t.kind !in {INTERGER, FLOAT, BOOL, CHAR, STRING, IDENT, TYPE}
    ensures OperandType(t) == Null
    ensures OperandToString(t) == "<null>"
  {
  }

  /** The rendering of a character and a string operand quotes the lexeme. */
  lemma QuotedRenderings(t: Token)
    ensures t.kind == CHAR ==> OperandToString(t) == "<'" + Text(t.lexeme) + "'>"
    ensures t.kind == STRING ==> OperandToString(t) == "<\"" + Text(t.lexeme) + "\">"
    ensures t.kind in {INTERGER, FLOAT, BOOL, IDENT, TYPE} ==> OperandToString(t) == "<" + Text(t.lexeme) + ">"
  {
  }
}
