/** The grammar the calculator's parser (simple_interpreter/Parser.cs) accepts, as pure
    functions over the lexed token stream. Position `i` is the index of the parser's
    `current_token`; a production returns the tree it builds and the position of the token
    after it, or the exception it raises. The calculator builds the same tree shapes as XSS,
    of which it uses operands, binary operations and assignments. The class in SimpleParser
    follows these functions step by step. */
module SimpleGrammar {
  import opened Wrappers
  import opened Tokens
  import opened XssAst
  import opened SimpleLexer

  /** The exceptions the parser raises: `Error()` ("Invalid syntax") on the current token,
      and any error of the lexer it reads from. */
  datatype ParseError = InvalidSyntax(token: Token) | Lexing(error: LexError)

  /** A tree and the position after it. */
  type Parsed = Result<(Node, nat), ParseError>

  /** The stream ends with EOF or an error, as every stream the lexer gives does. */
  predicate Terminated(items: seq<Item>)
  {
    |items| > 0 && (items[|items| - 1].LexFail? || items[|items| - 1].token.kind == EOF)
  }

  /** Position `i` holds a token of a terminated stream. */
  predicate At(items: seq<Item>, i: nat)
  {
    Terminated(items) && i < |items| && items[i].Tok?
  }

  /** `current_token` at position `i`. */
  function Cur(items: seq<Item>, i: nat): Token
    requires At(items, i)
  {
    items[i].token
  }

  /** Success moves forward to a token. */
  predicate Progress(items: seq<Item>, i: nat, r: Parsed)
  {
    r.Success? ==> i < r.value.1 && At(items, r.value.1)
  }

  /** `current_token = lexer.GetNextToken()`: the next item, which is a token or the lexer's
      exception; after EOF the lexer gives EOF again. */
  function Next(items: seq<Item>, i: nat): (r: Result<nat, ParseError>)
    requires At(items, i)
    ensures r.Success? ==> At(items, r.value) && (Cur(items, i).kind != EOF ==> r.value == i + 1)
    ensures r.Failure? ==> r.error.Lexing? && i + 1 < |items| && items[i + 1] == LexFail(r.error.error)
  {
    if i + 1 < |items| then
      match items[i + 1]
      case Tok(_) => Success(i + 1)
      case LexFail(e) => Failure(Lexing(e))
    else Success(i)
  }

  /** `Eat(k)`: the current token must be of kind `k`, and then exactly one more token is
      read; otherwise the error names the current token. */
  function Eat(items: seq<Item>, i: nat, k: TokenKind): (r: Result<nat, ParseError>)
    requires At(items, i)
    ensures Cur(items, i).kind != k <==> r == Failure(InvalidSyntax(Cur(items, i)))
    ensures r.Success? ==> At(items, r.value) && (k != EOF ==> r.value == i + 1)
  {
    if Cur(items, i).kind == k then Next(items, i) else Failure(InvalidSyntax(Cur(items, i)))
  }

  /** The kind of `lexer.PeekNextToken()`: the token after the current one, without moving. */
  function Peek(items: seq<Item>, i: nat): (r: Result<TokenKind, ParseError>)
    requires At(items, i)
    ensures r.Success? && Cur(items, i).kind != EOF ==> items[i + 1].Tok? && r.value == items[i + 1].token.kind
    ensures i + 1 == |items| ==> r == Success(EOF)
  {
    if i + 1 < |items| then
      match items[i + 1]
      case Tok(t) => Success(t.kind)
      case LexFail(e) => Failure(Lexing(e))
    else Success(EOF)
  }

  /** The precedence levels, tightest first: `^`, then `*` and `/`, then `+` and `-`.
      Level 0 is `Factor`. */
  const ExponentLevel: nat := 1
  const MultiplicationLevel: nat := 2
  const AdditionLevel: nat := 3

  /** The operators of a level's `while` condition. */
  function LevelOperators(level: nat): set<TokenKind>
  {
    if level == 1 then {EXPONENT} else if level == 2 then {MULTIPLY, DIVIDE} else {PLUS, MINUS}
  }

  /** The level a level parses its right operands at: a bare `Factor` for `^` and for `*`
      and `/` (so `2 * 3 ^ 2` stops before the `^`), level 2 for `+` and `-`. */
  function RightLevel(level: nat): (l: nat)
    requires level >= 1
    ensures l < level
  {
    if level == MultiplicationLevel then 0 else level - 1
  }

  /** `Factor()`: an integer or a name is an operand, a parenthesised level-3 expression is
      itself, and anything else is invalid syntax. */
  function Factor(items: seq<Item>, i: nat): (r: Parsed)
    requires At(items, i)
    ensures Progress(items, i, r)
    ensures Cur(items, i).kind in {INTERGER, IDENT} && r.Success? ==> r.value == (Operand(Cur(items, i)), i + 1)
    ensures Cur(items, i).kind !in {INTERGER, IDENT, LPAREN} ==> r == Failure(InvalidSyntax(Cur(items, i)))
    decreases |items| - i, 0
  {
    var t := Cur(items, i);
    if t.kind == INTERGER || t.kind == IDENT then
      var j :- Next(items, i);
      Success((Operand(t), j))
    else if t.kind == LPAREN then
      var j :- Next(items, i);
      var e :- Level(items, j, AdditionLevel);
      var k :- Eat(items, e.1, RPAREN);
      Success((e.0, k))
    else Failure(InvalidSyntax(t))
  }

  /** `PrecendenceLevel1`..`3`: the left operand at the next tighter level, then the level's
      operators. */
  function Level(items: seq<Item>, i: nat, level: nat): (r: Parsed)
    requires At(items, i) && level <= AdditionLevel
    ensures Progress(items, i, r)
    ensures level > 0 && r.Success? ==> Cur(items, r.value.1).kind !in LevelOperators(level)
    decreases |items| - i, 2 * level + 2
  {
    if level == 0 then Factor(items, i)
    else
      var left :- Level(items, i, level - 1);
      LevelTail(items, level, left.0, left.1)
  }

  /** The `while` loop of a level: while the current token is one of its operators, the tree
      so far becomes the left operand of a new binary node. */
  function LevelTail(items: seq<Item>, level: nat, node: Node, j: nat): (r: Parsed)
    requires At(items, j) && 1 <= level <= AdditionLevel
    ensures r.Success? ==> j <= r.value.1 && At(items, r.value.1) && Cur(items, r.value.1).kind !in LevelOperators(level)
    ensures Cur(items, j).kind !in LevelOperators(level) ==> r == Success((node, j))
    decreases |items| - j, 1
  {
    var t := Cur(items, j);
    if t.kind in LevelOperators(level) then
      var k :- Next(items, j);
      var right :- Level(items, k, RightLevel(level));
      LevelTail(items, level, BinaryOperation(node, t, right.0), right.1)
    else Success((node, j))
  }

  /** `Assignment()`: a name, `=`, and a level-3 expression (so a second `=` is not part of it). */
  function AssignmentOf(items: seq<Item>, i: nat): (r: Parsed)
    requires At(items, i)
    ensures Progress(items, i, r)
    ensures r.Success? ==> r.value.0.Assignment? && r.value.0.ident == Cur(items, i)
    decreases |items| - i, 9
  {
    var t := Cur(items, i);
    var j :- Eat(items, i, IDENT);
    var k :- Eat(items, j, ASSIGN);
    var e :- Level(items, k, AdditionLevel);
    Success((Assignment(t, e.0), e.1))
  }

  /** `Expression()`: an assignment exactly when the token after the current one is `=`. */
  function Expression(items: seq<Item>, i: nat): (r: Parsed)
    requires At(items, i)
    ensures Progress(items, i, r)
    ensures Peek(items, i) == Success(ASSIGN) ==> r == AssignmentOf(items, i)
    ensures Peek(items, i).Success? && Peek(items, i) != Success(ASSIGN) ==> r == Level(items, i, AdditionLevel)
    ensures Peek(items, i).Failure? ==> r == Failure(Peek(items, i).error)
    decreases |items| - i, 10
  {
    var next :- Peek(items, i);
    if next == ASSIGN then AssignmentOf(items, i) else Level(items, i, AdditionLevel)
  }

  /** `new Parser(lexer).Parse()`: the constructor reads the first token, and `Parse` returns
      one expression, whatever follows it. */
  function Parse(items: seq<Item>): (r: Result<Node, ParseError>)
    requires Terminated(items)
  {
    match items[0]
    case LexFail(e) => Failure(Lexing(e))
    case Tok(_) =>
      var e :- Expression(items, 0);
      Success(e.0)
  }
}
