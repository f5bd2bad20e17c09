/** The grammar the XSS parser (XSS/Parser.cs) accepts, as pure functions over the lexed token
    stream. Position `i` is the index of the parser's `current_token`; a production returns the
    tree it builds and the position of the token after it, or the exception it raises. The
    class in XssParser follows these functions step by step. */
module XssGrammar {
  import opened Wrappers
  import opened Tokens
  import opened XssOperand
  import opened XssAst
  import opened XssLexer
  import XssExtension

  /** The exceptions the parser raises: `Error(expecting)`, `Error()` on the current token,
      the duplicate default case of a match, and any error of the lexer it reads from. */
  datatype ParseError =
    | Expecting(kind: TokenKind)
    | InvalidToken(token: Token)
    | MoreThanOneDefault
    | Lexing(error: LexError)

  /** A tree and the position after it. */
  type Parsed = Result<(Node, nat), ParseError>

  /** The stream ends with EOF or an error, as every stream the lexer gives does (the
      grammar needs no more of it). */
  predicate Terminated(items: seq<Item>)
  {
    |items| > 0 && (items[|items| - 1].LexFail? || items[|items| - 1].token.kind == EOF)
  }

  /** Position `i` holds a token of a terminated stream. */
  predicate At(items: seq<Item>, i: nat)
  {
    Terminated(items) && i < |items| && items[i].Tok?
  }

  /** `current_token` at position `i`. */
  function Cur(items: seq<Item>, i: nat): Token
    requires At(items, i)
  {
    items[i].token
  }

  /** Success moves forward to a token. */
  predicate Progress(items: seq<Item>, i: nat, r: Parsed)
  {
    r.Success? ==> i < r.value.1 && At(items, r.value.1)
  }

  /** `current_token = lexer.GetNextToken()`: the next item, which is a token or the lexer's
      exception; after EOF the lexer gives EOF again. */
  function Next(items: seq<Item>, i: nat): (r: Result<nat, ParseError>)
    requires At(items, i)
    ensures r.Success? ==> At(items, r.value) && (Cur(items, i).kind != EOF ==> r.value == i + 1)
    ensures r.Failure? ==> r.error.Lexing? && i + 1 < |items| && items[i + 1] == LexFail(r.error.error)
  {
    if i + 1 < |items| then
      match items[i + 1]
      case Tok(_) => Success(i + 1)
      case LexFail(e) => Failure(Lexing(e))
    else Success(i)
  }

  /** `Eat(k)`: the current token must be of kind `k`, and then the next one is read. */
  function Eat(items: seq<Item>, i: nat, k: TokenKind): (r: Result<nat, ParseError>)
    requires At(items, i)
    ensures Cur(items, i).kind != k <==> r == Failure(Expecting(k))
    ensures r.Success? ==> At(items, r.value) && (k != EOF ==> r.value == i + 1)
  {
    if Cur(items, i).kind == k then Next(items, i) else Failure(Expecting(k))
  }

  /** The kind of `lexer.PeekNextToken()`: the token after the current one, without moving. */
  function Peek(items: seq<Item>, i: nat): (r: Result<TokenKind, ParseError>)
    requires At(items, i)
    ensures r.Success? && Cur(items, i).kind != EOF ==> items[i + 1].Tok? && r.value == items[i + 1].token.kind
    ensures i + 1 == |items| ==> r == Success(EOF)
  {
    if i + 1 < |items| then
      match items[i + 1]
      case Tok(t) => Success(t.kind)
      case LexFail(e) => Failure(Lexing(e))
    else Success(EOF)
  }

  /** The tokens `Factor` turns into an operand. */
  const OperandKinds: set<TokenKind> := {INTERGER, FLOAT, BOOL, CHAR, STRING, IDENT, TYPE}

  /** The operands `-` and `!` take. */
  function UnaryOperandKinds(op: TokenKind): set<TokenKind>
  {
    if op == MINUS then {INTERGER, FLOAT, IDENT} else {BOOL, IDENT}
  }

  /** `Factor()`: a literal, a name or a type is an operand; a parenthesised expression is
      itself; anything else (`null` among them) is an invalid token. */
  function Factor(items: seq<Item>, i: nat): (r: Parsed)
    requires At(items, i)
    ensures Progress(items, i, r)
    ensures Cur(items, i).kind in OperandKinds && r.Success? ==> r.value == (Operand(Cur(items, i)), i + 1)
    ensures Cur(items, i).kind !in OperandKinds + {LPAREN} ==> r == Failure(InvalidToken(Cur(items, i)))
    decreases |items| - i, 0
  {
    var t := Cur(items, i);
    if t.kind in OperandKinds then
      var j :- Next(items, i);
      Success((Operand(t), j))
    else if t.kind == LPAREN then
      var j :- Next(items, i);
      var e :- Expression(items, j);
      var k :- Eat(items, e.1, RPAREN);
      Success((e.0, k))
    else Failure(InvalidToken(t))
  }

  /** `Unary()`: `-` takes a number or a name, `!` a bool or a name, `typeof` a factor;
      otherwise a factor, and an invalid token where no factor can start. */
  function Unary(items: seq<Item>, i: nat): (r: Parsed)
    requires At(items, i)
    ensures Progress(items, i, r)
    ensures (Cur(items, i).kind == MINUS || Cur(items, i).kind == NOT) && r.Success? ==>
              At(items, i + 1) && r.value.0 == UnaryOperation(Cur(items, i), Operand(Cur(items, i + 1)))
              && Cur(items, i + 1).kind in UnaryOperandKinds(Cur(items, i).kind)
              && r.value.1 == i + 2
    ensures Cur(items, i).kind == TYPEOF && r.Success? ==>
              r.value.0.UnaryOperation? && r.value.0.op == Cur(items, i)
    ensures Cur(items, i).kind !in OperandKinds + {LPAREN, MINUS, NOT, TYPEOF} ==>
              r == Failure(InvalidToken(Cur(items, i)))
    decreases |items| - i, 1
  {
    var t := Cur(items, i);
    if t.kind == MINUS || t.kind == NOT then
      var j :- Next(items, i);
      var op := Cur(items, j);
      if op.kind in UnaryOperandKinds(t.kind) then
        var k :- Next(items, j);
        Success((UnaryOperation(t, Operand(op)), k))
      else Failure(InvalidToken(op))
    else if t.kind == TYPEOF then
      var j :- Next(items, i);
      var f :- Factor(items, j);
      Success((UnaryOperation(t, f.0), f.1))
    else if t.kind in OperandKinds || t.kind == LPAREN then
      Factor(items, i)
    else Failure(InvalidToken(t))
  }

  /** The binary precedence levels, tightest first: `Exponent`, `Multiplication`, `Addition`,
      `Comparison`, `Equality`, `LogicXor`, `LogicAnd`, `LogicOr`. Level 0 is `Unary`. */
  const ExponentLevel: nat := 1
  const MultiplicationLevel: nat := 2
  const AdditionLevel: nat := 3
  const ComparisonLevel: nat := 4
  const EqualityLevel: nat := 5
  const XorLevel: nat := 6
  const AndLevel: nat := 7
  const OrLevel: nat := 8

  /** The operators of a level's `while` condition. */
  function LevelOperators(level: nat): set<TokenKind>
  {
    match level
    case 1 => {EXPONENT}
    case 2 => {MULTIPLY, DIVIDE, MODULO}
    case 3 => {PLUS, MINUS}
    case 4 => {LARGER, LARGEREQUAL, LESSER, LESSEREQUAL}
    case 5 => {NOTEQUAL, EQUAL}
    case 6 => {XOR}
    case 7 => {AND}
    case _ => {OR}
  }

  /** The level a level parses its right operands at: the next tighter one, except that
      `Multiplication` takes a bare `Unary` (so `2 * 3 ^ 2` stops before the `^`). */
  function RightLevel(level: nat): (l: nat)
    requires level >= 1
    ensures l < level
  {
    if level == MultiplicationLevel then 0 else level - 1
  }

  /** A level: its left operand at the next tighter level, then its operators. */
  function Level(items: seq<Item>, i: nat, level: nat): (r: Parsed)
    requires At(items, i) && level <= OrLevel
    ensures Progress(items, i, r)
    ensures level > 0 && r.Success? ==> Cur(items, r.value.1).kind !in LevelOperators(level)
    decreases |items| - i, 2 * level + 2
  {
    if level == 0 then Unary(items, i)
    else
      var left :- Level(items, i, level - 1);
      LevelTail(items, level, left.0, left.1)
  }

  /** The `while` loop of a level: while the current token is one of its operators, the tree
      so far becomes the left operand of a new binary node. */
  function LevelTail(items: seq<Item>, level: nat, node: Node, j: nat): (r: Parsed)
    requires At(items, j) && 1 <= level <= OrLevel
    ensures r.Success? ==> j <= r.value.1 && At(items, r.value.1) && Cur(items, r.value.1).kind !in LevelOperators(level)
    ensures Cur(items, j).kind !in LevelOperators(level) ==> r == Success((node, j))
    decreases |items| - j, 1
  {
    var t := Cur(items, j);
    if t.kind in LevelOperators(level) then
      var k :- Next(items, j);
      var right :- Level(items, k, RightLevel(level));
      LevelTail(items, level, BinaryOperation(node, t, right.0), right.1)
    else Success((node, j))
  }

  /** `TypeIdentify()`: an `or` expression and at most one `is` with another. */
  function TypeIdentify(items: seq<Item>, i: nat): (r: Parsed)
    requires At(items, i)
    ensures Progress(items, i, r)
    decreases |items| - i, 20
  {
    var left :- Level(items, i, OrLevel);
    var t := Cur(items, left.1);
    if t.kind == IS then
      var k :- Next(items, left.1);
      var right :- Level(items, k, OrLevel);
      Success((BinaryOperation(left.0, t, right.0), right.1))
    else Success(left)
  }

  /** `Assignment()`: a name, `=`, and an expression. */
  function AssignmentOf(items: seq<Item>, i: nat): (r: Parsed)
    requires At(items, i)
    ensures Progress(items, i, r)
    ensures r.Success? ==> r.value.0.Assignment? && r.value.0.ident == Cur(items, i)
    decreases |items| - i, 21
  {
    var t := Cur(items, i);
    var j :- Eat(items, i, IDENT);
    var k :- Eat(items, j, ASSIGN);
    var e :- Expression(items, k);
    Success((Assignment(t, e.0), e.1))
  }

  /** `Expression()`: an assignment exactly when the token after the current one is `=`. */
  function Expression(items: seq<Item>, i: nat): (r: Parsed)
    requires At(items, i)
    ensures Progress(items, i, r)
    ensures Peek(items, i) == Success(ASSIGN) ==> r == AssignmentOf(items, i)
    ensures Peek(items, i).Success? && Peek(items, i) != Success(ASSIGN) ==> r == TypeIdentify(items, i)
    ensures Peek(items, i).Failure? ==> r == Failure(Peek(items, i).error)
    decreases |items| - i, 22
  {
    var next :- Peek(items, i);
    if next == ASSIGN then AssignmentOf(items, i) else TypeIdentify(items, i)
  }

  /** `ExpressionStatement()`: an expression and a `;`. */
  function ExpressionStatementOf(items: seq<Item>, i: nat): (r: Parsed)
    requires At(items, i)
    ensures Progress(items, i, r)
    ensures r.Success? ==> r.value.0.ExpressionStatement?
  {
    var e :- Expression(items, i);
    var j :- Eat(items, e.1, SEMICOLON);
    Success((ExpressionStatement(e.0), j))
  }

  /** `VariableDeclare()`: `var`, a name, an optional `= expression`, and a `;`. */
  function VariableDeclareOf(items: seq<Item>, i: nat): (r: Parsed)
    requires At(items, i)
    ensures Progress(items, i, r)
    ensures r.Success? ==> Cur(items, i).kind == VAR && r.value.0.VariableDeclare?
                           && At(items, i + 1) && r.value.0.ident == Cur(items, i + 1)
  {
    var j :- Eat(items, i, VAR);
    var t := Cur(items, j);
    var k :- Eat(items, j, IDENT);
    var init :- Initializer(items, k);
    var m :- Eat(items, init.1, SEMICOLON);
    Success((VariableDeclare(t, init.0), m))
  }

  /** The optional `= expression` of a declaration: there is an initializer exactly when the
      token after the name is `=`. */
  function Initializer(items: seq<Item>, k: nat): (r: Result<(Option<Node>, nat), ParseError>)
    requires At(items, k)
    ensures r.Success? ==> k <= r.value.1 && At(items, r.value.1)
    ensures r.Success? ==> (r.value.0.None? <==> Cur(items, k).kind != ASSIGN)
    ensures Cur(items, k).kind != ASSIGN ==> r == Success((None, k))
  {
    if Cur(items, k).kind == ASSIGN then
      var k2 :- Next(items, k);
      var e :- Expression(items, k2);
      Success((Some(e.0), e.1))
    else Success((None, k))
  }

  /** `Statement()`: the current token chooses the statement. */
  function StatementOf(items: seq<Item>, i: nat): (r: Parsed)
    requires At(items, i)
    ensures Progress(items, i, r)
    decreases |items| - i, 3
  {
    var k := Cur(items, i).kind;
    if k == LBRACE then BlockOf(items, i)
    else if k == VAR then VariableDeclareOf(items, i)
    else if k == IF then IfOf(items, i)
    else if k == WHILE then WhileOf(items, i)
    else if k == MATCH then MatchOf(items, i)
    else ExpressionStatementOf(items, i)
  }

  /** `Block()`: `{`, statements until the `}`, and the `}`. */
  function BlockOf(items: seq<Item>, i: nat): (r: Parsed)
    requires At(items, i)
    ensures Progress(items, i, r)
    ensures r.Success? ==> r.value.0.Block?
    decreases |items| - i, 2
  {
    var j :- Eat(items, i, LBRACE);
    BlockItems(items, j, [])
  }

  /** The loop of `Block()`, with the statements read so far. */
  function BlockItems(items: seq<Item>, j: nat, done: seq<Node>): (r: Parsed)
    requires At(items, j)
    ensures r.Success? ==> j < r.value.1 && At(items, r.value.1)
    ensures r.Success? ==> r.value.0.Block?
    decreases |items| - j, 4
  {
    if Cur(items, j).kind == RBRACE then
      var k :- Next(items, j);
      Success((Block(done), k))
    else
      var s :- StatementOf(items, j);
      BlockItems(items, s.1, done + [s.0])
  }

  /** The head `keyword ( expression )` of an if, a while and a match: the condition or the
      subject, and the position after the `)`. */
  function Head(items: seq<Item>, i: nat, keyword: TokenKind): (r: Parsed)
    requires At(items, i)
    ensures Progress(items, i, r)
    ensures r.Success? ==> Cur(items, i).kind == keyword
  {
    var j :- Eat(items, i, keyword);
    var j2 :- Eat(items, j, LPAREN);
    var c :- Expression(items, j2);
    var k :- Eat(items, c.1, RPAREN);
    Success((c.0, k))
  }

  /** `IfStatement()`: `if ( expression ) statement`, and an `else statement` when one
      follows. */
  function IfOf(items: seq<Item>, i: nat): (r: Parsed)
    requires At(items, i)
    ensures Progress(items, i, r)
    ensures r.Success? ==> r.value.0.If?
    decreases |items| - i, 2
  {
    var c :- Head(items, i, IF);
    var body :- StatementOf(items, c.1);
    if Cur(items, body.1).kind == ELSE then
      var m :- Next(items, body.1);
      var e :- StatementOf(items, m);
      Success((If(c.0, body.0, Some(e.0)), e.1))
    else Success((If(c.0, body.0, None), body.1))
  }

  /** `WhileStatement()`: `while ( expression ) statement`. */
  function WhileOf(items: seq<Item>, i: nat): (r: Parsed)
    requires At(items, i)
    ensures Progress(items, i, r)
    ensures r.Success? ==> r.value.0.While?
    decreases |items| - i, 2
  {
    var c :- Head(items, i, WHILE);
    var body :- StatementOf(items, c.1);
    Success((While(c.0, body.0), body.1))
  }

  /** `MatchStatement()`: `match ( expression ) {`, its arms, and the `}`. */
  function MatchOf(items: seq<Item>, i: nat): (r: Parsed)
    requires At(items, i)
    ensures Progress(items, i, r)
    ensures r.Success? ==> r.value.0.Match?
    decreases |items| - i, 2
  {
    var e :- Head(items, i, MATCH);
    var k :- Eat(items, e.1, LBRACE);
    MatchArms(items, k, e.0, [], None)
  }

  /** The loop of `MatchStatement()` until `}` or EOF: `_ : statement` sets the default case
      (a second one is an error), `TYPE : statement` adds a case. */
  function MatchArms(items: seq<Item>, j: nat, subject: Node, cases: seq<MatchCase>, dflt: Option<Node>): (r: Parsed)
    requires At(items, j)
    ensures r.Success? ==> j < r.value.1 && At(items, r.value.1)
    ensures r.Success? ==> r.value.0.Match? && r.value.0.subject == subject
    ensures dflt.Some? && Cur(items, j).kind == UNDERSCORE ==> r == Failure(MoreThanOneDefault)
    decreases |items| - j, 4
  {
    var t := Cur(items, j);
    if t.kind == RBRACE || t.kind == EOF then
      var k :- Eat(items, j, RBRACE);
      Success((Match(subject, cases, dflt), k))
    else if t.kind == UNDERSCORE && dflt.Some? then Failure(MoreThanOneDefault)
    else
      var a :- ArmOf(items, j);
      if a.0.None? then MatchArms(items, a.2, subject, cases, Some(a.1))
      else MatchArms(items, a.2, subject, cases + [MatchCase(a.0.value, a.1)], dflt)
  }

  /** One arm of a match: `_ : statement`, which has no type, or `TYPE : statement`, whose
      type is the one the type token names. */
  function ArmOf(items: seq<Item>, j: nat): (r: Result<(Option<ValType>, Node, nat), ParseError>)
    requires At(items, j)
    ensures r.Success? ==> j < r.value.2 && At(items, r.value.2)
    ensures r.Success? ==> (r.value.0.None? <==> Cur(items, j).kind == UNDERSCORE)
    decreases |items| - j, 3
  {
    var t := Cur(items, j);
    var k :- if t.kind == UNDERSCORE then Next(items, j) else Eat(items, j, TYPE);
    var k2 :- Eat(items, k, COLON);
    var s :- StatementOf(items, k2);
    Success((if t.kind == UNDERSCORE then None else Some(XssExtension.ToValType(t.lexeme)), s.0, s.1))
  }

  /** A turn of the match loop that reads an arm goes on after it. */
  lemma ArmsContinue(items: seq<Item>, j: nat, subject: Node, cases: seq<MatchCase>, dflt: Option<Node>, a: (Option<ValType>, Node, nat))
    requires At(items, j) && Cur(items, j).kind != RBRACE && Cur(items, j).kind != EOF
    requires !(Cur(items, j).kind == UNDERSCORE && dflt.Some?) && ArmOf(items, j) == Success(a)
    ensures a.0.None? ==> MatchArms(items, j, subject, cases, dflt) == MatchArms(items, a.2, subject, cases, Some(a.1))
    ensures a.0.Some? ==> MatchArms(items, j, subject, cases, dflt) == MatchArms(items, a.2, subject, cases + [MatchCase(a.0.value, a.1)], dflt)
  {
  }

  /** A turn of the match loop whose arm fails raises what the arm raises. */
  lemma ArmsFail(items: seq<Item>, j: nat, subject: Node, cases: seq<MatchCase>, dflt: Option<Node>)
    requires At(items, j) && Cur(items, j).kind != RBRACE && Cur(items, j).kind != EOF
    requires !(Cur(items, j).kind == UNDERSCORE && dflt.Some?) && ArmOf(items, j).Failure?
    ensures MatchArms(items, j, subject, cases, dflt) == Failure(ArmOf(items, j).error)
  {
  }

  /** The loop of `Parse()`: statements while the token after the current one is not EOF. */
  function ProgramItems(items: seq<Item>, i: nat, done: seq<Node>): (r: Result<Node, ParseError>)
    requires At(items, i)
    ensures r.Success? ==> r.value.Block?
    decreases |items| - i
  {
    var next :- Peek(items, i);
    if next == EOF then Success(Block(done))
    else
      var s :- StatementOf(items, i);
      ProgramItems(items, s.1, done + [s.0])
  }

  /** `new Parser(lexer).Parse()`: the constructor reads the first token, then the program's
      statements are read into one block. */
  function Parse(items: seq<Item>): (r: Result<Node, ParseError>)
    requires Terminated(items)
    ensures items[0].LexFail? ==> r == Failure(Lexing(items[0].error))
    ensures r.Success? ==> r.value.Block?
  {
    match items[0]
    case LexFail(e) => Failure(Lexing(e))
    case Tok(_) => ProgramItems(items, 0, [])
  }
}
