/** Token kinds and tokens (XSS.Compiler/Token.cs). The kinds keep the declaration order of the
    C# enum, because the interpreters convert between the enum and its underlying `int`. The
    earlier calculator uses the same kind names for its smaller set, and the model gives it
    this numbering too, although its own Token.cs numbers its eleven kinds 0 to 10. */
module Tokens {
  import opened Wrappers

  datatype TokenKind =
    | INTERGER | FLOAT | BOOL | CHAR | STRING | IDENT | NULL
    | PLUS | MINUS | MULTIPLY | DIVIDE | MODULO | EXPONENT
    | AND | OR | XOR | NOT
    | ASSIGN
    | EQUAL | NOTEQUAL
    | LARGER | LARGEREQUAL | LESSER | LESSEREQUAL
    | LAMBDA
    | TYPE
    | IF | MATCH | ELSE | WHILE | VAR | FUN | RETURN | TYPEOF | IS
    | LPAREN | RPAREN | LBRACE | RBRACE | LBRACKET | RBRACKET
    | COMMA | SEMICOLON | COLON | UNDERSCORE | EOF

  /** A token: its kind and its lexeme, which is null (`None`) for EOF and for tokens the
      interpreter builds from a kind alone. */
  datatype Token = Token(kind: TokenKind, lexeme: Option<string>)

  /** The number of declared members. */
  const KindCount: nat := 46

  /** `(int)kind`: the member's position in the declaration. */
  function Ordinal(k: TokenKind): (n: nat)
    ensures n < KindCount
  {
    match k
    case INTERGER => 0 case FLOAT => 1 case BOOL => 2 case CHAR => 3 case STRING => 4
    case IDENT => 5 case NULL => 6 case PLUS => 7 case MINUS => 8 case MULTIPLY => 9
    case DIVIDE => 10 case MODULO => 11 case EXPONENT => 12 case AND => 13 case OR => 14
    case XOR => 15 case NOT => 16 case ASSIGN => 17 case EQUAL => 18 case NOTEQUAL => 19
    case LARGER => 20 case LARGEREQUAL => 21 case LESSER => 22 case LESSEREQUAL => 23
    case LAMBDA => 24 case TYPE => 25 case IF => 26 case MATCH => 27 case ELSE => 28
    case WHILE => 29 case VAR => 30 case FUN => 31 case RETURN => 32 case TYPEOF => 33
    case IS => 34 case LPAREN => 35 case RPAREN => 36 case LBRACE => 37 case RBRACE => 38
    case LBRACKET => 39 case RBRACKET => 40 case COMMA => 41 case SEMICOLON => 42
    case COLON => 43 case UNDERSCORE => 44 case EOF => 45
  }

  /** `(TokenType)n` for an `n` that names a declared member; `None` for any other `n`. */
  function FromOrdinal(n: int): (r: Option<TokenKind>)
    ensures r.Some? <==> 0 <= n < KindCount
  {
    match n
    case 0 => Some(INTERGER) case 1 => Some(FLOAT) case 2 => Some(BOOL) case 3 => Some(CHAR)
    case 4 => Some(STRING) case 5 => Some(IDENT) case 6 => Some(NULL) case 7 => Some(PLUS)
    case 8 => Some(MINUS) case 9 => Some(MULTIPLY) case 10 => Some(DIVIDE)
    case 11 => Some(MODULO) case 12 => Some(EXPONENT) case 13 => Some(AND) case 14 => Some(OR)
    case 15 => Some(XOR) case 16 => Some(NOT) case 17 => Some(ASSIGN) case 18 => Some(EQUAL)
    case 19 => Some(NOTEQUAL) case 20 => Some(LARGER) case 21 => Some(LARGEREQUAL)
    case 22 => Some(LESSER) case 23 => Some(LESSEREQUAL) case 24 => Some(LAMBDA)
    case 25 => Some(TYPE) case 26 => Some(IF) case 27 => Some(MATCH) case 28 => Some(ELSE)
    case 29 => Some(WHILE) case 30 => Some(VAR) case 31 => Some(FUN) case 32 => Some(RETURN)
    case 33 => Some(TYPEOF) case 34 => Some(IS) case 35 => Some(LPAREN) case 36 => Some(RPAREN)
    case 37 => Some(LBRACE) case 38 => Some(RBRACE) case 39 => Some(LBRACKET)
    case 40 => Some(RBRACKET) case 41 => Some(COMMA) case 42 => Some(SEMICOLON)
    case 43 => Some(COLON) case 44 => Some(UNDERSCORE) case 45 => Some(EOF)
    case _ => None
  }

  /** Converting a kind to its number and back is the identity. */
  lemma FromOrdinalOrdinal(k: TokenKind)
    ensures FromOrdinal(Ordinal(k)) == Some(k)
  {
  }

  /** The enum member's name, which is what `ToString()` of a boxed kind gives. */
  function KindName(k: TokenKind): string
  {
    match k
    case INTERGER => "INTERGER" case FLOAT => "FLOAT" case BOOL => "BOOL" case CHAR => "CHAR"
    case STRING => "STRING" case IDENT => "IDENT" case NULL => "NULL"
    case PLUS => "PLUS" case MINUS => "MINUS" case MULTIPLY => "MULTIPLY" case DIVIDE => "DIVIDE"
    case MODULO => "MODULO" case EXPONENT => "EXPONENT"
    case AND => "AND" case OR => "OR" case XOR => "XOR" case NOT => "NOT"
    case ASSIGN => "ASSIGN"
    case EQUAL => "EQUAL" case NOTEQUAL => "NOTEQUAL"
    case LARGER => "LARGER" case LARGEREQUAL => "LARGEREQUAL" case LESSER => "LESSER"
    case LESSEREQUAL => "LESSEREQUAL"
    case LAMBDA => "LAMBDA"
    case TYPE => "TYPE"
    case IF => "IF" case MATCH => "MATCH" case ELSE => "ELSE" case WHILE => "WHILE"
    case VAR => "VAR" case FUN => "FUN" case RETURN => "RETURN" case TYPEOF => "TYPEOF"
    case IS => "IS"
    case LPAREN => "LPAREN" case RPAREN => "RPAREN" case LBRACE => "LBRACE" case RBRACE => "RBRACE"
    case LBRACKET => "LBRACKET" case RBRACKET => "RBRACKET"
    case COMMA => "COMMA" case SEMICOLON => "SEMICOLON" case COLON => "COLON"
    case UNDERSCORE => "UNDERSCORE" case EOF => "EOF"
  }
}
