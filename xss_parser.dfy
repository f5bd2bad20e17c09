/** The XSS parser object (XSS/Parser.cs). It reads the lexer's tokens one at a time into its
    `current_token` and builds the tree with one method per grammar rule; each method is
    proved to build the tree, raise the error and stop at the position the matching function
    of XssGrammar describes. The lexer's tokens are read ahead into `items`: `current_token`
    is `items[pos]`, and peeking reads `items[pos + 1]`. */
module XssParser {
  import opened Wrappers
  import opened Tokens
  import opened XssOperand
  import opened XssAst
  import opened XssLexer
  import opened XssGrammar
  import XssExtension

  class Parser {
    /** What the lexer gives, token by token, up to EOF or its first error. */
    const items: seq<Item>
    /** The index of `current_token`. */
    var pos: nat

    predicate Valid()
      reads this
    {
      At(items, pos)
    }

    /** `current_token`. */
    function Current(): Token
      reads this
      requires Valid()
    {
      Cur(items, pos)
    }

    /** The method's result and the parser's new position are those `spec` gives. */
    predicate Agrees(r: Result<Node, ParseError>, spec: Parsed)
      reads this
    {
      match spec
      case Success(p) => r == Success(p.0) && pos == p.1
      case Failure(e) => r == Failure(e)
    }

    /** A step that reads a token: on success the new position is the one `spec` gives; on an
        error the parser stays where it was. */
    predicate Moved(r: Outcome<ParseError>, spec: Result<nat, ParseError>, before: nat)
      reads this
    {
      match spec
      case Success(j) => r == Pass && pos == j
      case Failure(e) => r == Fail(e) && pos == before
    }

    /** `new Parser(lexer)`: the first token is read; a lexer that fails at once raises from
        the constructor, which `ParseItems` models. */
    constructor (items: seq<Item>)
      requires ValidStream(items) && items[0].Tok?
      ensures this.items == items && pos == 0 && Valid()
    {
      this.items := items;
      pos := 0;
    }

    /** `current_token = lexer.GetNextToken()`. */
    method ReadNext() returns (r: Outcome<ParseError>)
      requires Valid()
      modifies this
      ensures Valid() && Moved(r, Next(items, old(pos)), old(pos))
    {
      if pos + 1 < |items| {
        match items[pos + 1]
        case Tok(_) =>
          pos := pos + 1;
          r := Pass;
        case LexFail(e) =>
          r := Fail(Lexing(e));
      } else {
        r := Pass;
      }
    }

    /** `Eat(t)`. */
    method Eat(t: TokenKind) returns (r: Outcome<ParseError>)
      requires Valid()
      modifies this
      ensures Valid() && Moved(r, XssGrammar.Eat(items, old(pos), t), old(pos))
    {
      if Current().kind == t {
        r := ReadNext();
      } else {
        r := Fail(Expecting(t));
      }
    }

    /** The kind of `lexer.PeekNextToken()`. */
    method PeekNextToken() returns (r: Result<TokenKind, ParseError>)
      requires Valid()
      ensures r == Peek(items, pos)
    {
      if pos + 1 < |items| {
        match items[pos + 1]
        case Tok(t) => r := Success(t.kind);
        case LexFail(e) => r := Failure(Lexing(e));
      } else {
        r := Success(EOF);
      }
    }

    method Factor() returns (r: Result<Node, ParseError>)
      requires Valid()
      modifies this
      ensures Valid() && Agrees(r, XssGrammar.Factor(items, old(pos)))
      decreases |items| - pos, 0
    {
      var token := Current();
      if token.kind in OperandKinds {
        var e := Eat(token.kind);
        if e.Fail? { return Failure(e.error); }
        return Success(Operand(token));
      } else if token.kind == LPAREN {
        var e := Eat(LPAREN);
        if e.Fail? { return Failure(e.error); }
        var node :- Expression();
        e := Eat(RPAREN);
        if e.Fail? { return Failure(e.error); }
        return Success(node);
      }
      return Failure(InvalidToken(token));
    }

    method Unary() returns (r: Result<Node, ParseError>)
      requires Valid()
      modifies this
      ensures Valid() && Agrees(r, XssGrammar.Unary(items, old(pos)))
      decreases |items| - pos, 1
    {
      var token := Current();
      if token.kind == MINUS || token.kind == NOT {
        var e := Eat(token.kind);
        if e.Fail? { return Failure(e.error); }
        var op := Current();
        if op.kind !in UnaryOperandKinds(token.kind) {
          return Failure(InvalidToken(op));
        }
        e := Eat(op.kind);
        if e.Fail? { return Failure(e.error); }
        return Success(UnaryOperation(token, Operand(op)));
      } else if token.kind == TYPEOF {
        var e := Eat(TYPEOF);
        if e.Fail? { return Failure(e.error); }
        var operand :- Factor();
        return Success(UnaryOperation(token, operand));
      } else if token.kind in OperandKinds || token.kind == LPAREN {
        r := Factor();
        return;
      }
      return Failure(InvalidToken(token));
    }

    /** `Exponent()`, `Multiplication()`, `Addition()`, `Comparison()`, `Equality()`,
        `LogicXor()`, `LogicAnd()` and `LogicOr()`, by their level: the left operand, then a
        loop that makes the tree so far the left operand of each further operator. */
    method Level(level: nat) returns (r: Result<Node, ParseError>)
      requires Valid() && level <= OrLevel
      modifies this
      ensures Valid() && Agrees(r, XssGrammar.Level(items, old(pos), level))
      decreases |items| - pos, 2 * level + 2
    {
      if level == 0 {
        r := Unary();
        return;
      }
      var node :- Level(level - 1);
      while Current().kind in LevelOperators(level)
        invariant Valid() && old(pos) < pos
        invariant LevelTail(items, level, node, pos) == XssGrammar.Level(items, old(pos), level)
        decreases |items| - pos
      {
        var token := Current();
        var e := Eat(token.kind);
        if e.Fail? { return Failure(e.error); }
        var right :- Level(RightLevel(level));
        node := BinaryOperation(node, token, right);
      }
      return Success(node);
    }

    method TypeIdentify() returns (r: Result<Node, ParseError>)
      requires Valid()
      modifies this
      ensures Valid() && Agrees(r, XssGrammar.TypeIdentify(items, old(pos)))
      decreases |items| - pos, 20
    {
      var node :- Level(OrLevel);
      var token := Current();
      if token.kind == IS {
        var e := Eat(IS);
        if e.Fail? { return Failure(e.error); }
        var right :- Level(OrLevel);
        node := BinaryOperation(node, token, right);
      }
      return Success(node);
    }

    method Assignment() returns (r: Result<Node, ParseError>)
      requires Valid()
      modifies this
      ensures Valid() && Agrees(r, AssignmentOf(items, old(pos)))
      decreases |items| - pos, 21
    {
      var token := Current();
      var e := Eat(IDENT);
      if e.Fail? { return Failure(e.error); }
      e := Eat(ASSIGN);
      if e.Fail? { return Failure(e.error); }
      var expr :- Expression();
      return Success(Node.Assignment(token, expr));
    }

    method Expression() returns (r: Result<Node, ParseError>)
      requires Valid()
      modifies this
      ensures Valid() && Agrees(r, XssGrammar.Expression(items, old(pos)))
      decreases |items| - pos, 22
    {
      var next :- PeekNextToken();
      if next == ASSIGN {
        r := Assignment();
      } else {
        r := TypeIdentify();
      }
    }

    method ExpressionStatement() returns (r: Result<Node, ParseError>)
      requires Valid()
      modifies this
      ensures Valid() && Agrees(r, ExpressionStatementOf(items, old(pos)))
    {
      var expr :- Expression();
      var e := Eat(SEMICOLON);
      if e.Fail? { return Failure(e.error); }
      return Success(Node.ExpressionStatement(expr));
    }

    method VariableDeclare() returns (r: Result<Node, ParseError>)
      requires Valid()
      modifies this
      ensures Valid() && Agrees(r, VariableDeclareOf(items, old(pos)))
    {
      var e := Eat(VAR);
      if e.Fail? { return Failure(e.error); }
      var token := Current();
      e := Eat(IDENT);
      if e.Fail? { return Failure(e.error); }
      ghost var k := pos;
      var init: Option<Node> := None;
      if Current().kind == ASSIGN {
        e := Eat(ASSIGN);
        if e.Fail? { return Failure(e.error); }
        var expr :- Expression();
        init := Some(expr);
      }
      assert Initializer(items, k) == Success((init, pos));
      e := Eat(SEMICOLON);
      if e.Fail? { return Failure(e.error); }
      return Success(Node.VariableDeclare(token, init));
    }

    method Block() returns (r: Result<Node, ParseError>)
      requires Valid()
      modifies this
      ensures Valid() && Agrees(r, BlockOf(items, old(pos)))
      decreases |items| - pos, 2
    {
      var e := Eat(LBRACE);
      if e.Fail? { return Failure(e.error); }
      var statements := [];
      while Current().kind != RBRACE
        invariant Valid() && old(pos) < pos
        invariant BlockItems(items, pos, statements) == BlockOf(items, old(pos))
        decreases |items| - pos
      {
        var s :- Statement();
        statements := statements + [s];
      }
      e := Eat(RBRACE);
      if e.Fail? { return Failure(e.error); }
      return Success(Node.Block(statements));
    }

    /** `Eat(keyword); Eat(LPAREN); var x = Expression(); Eat(RPAREN);` */
    method Head(keyword: TokenKind) returns (r: Result<Node, ParseError>)
      requires Valid()
      modifies this
      ensures Valid() && Agrees(r, XssGrammar.Head(items, old(pos), keyword))
    {
      var e := Eat(keyword);
      if e.Fail? { return Failure(e.error); }
      e := Eat(LPAREN);
      if e.Fail? { return Failure(e.error); }
      var expr :- Expression();
      e := Eat(RPAREN);
      if e.Fail? { return Failure(e.error); }
      return Success(expr);
    }

    method IfStatement() returns (r: Result<Node, ParseError>)
      requires Valid()
      modifies this
      ensures Valid() && Agrees(r, IfOf(items, old(pos)))
      decreases |items| - pos, 2
    {
      var condition :- Head(IF);
      var ifBody :- Statement();
      if Current().kind == ELSE {
        var e := Eat(ELSE);
        if e.Fail? { return Failure(e.error); }
        var elseBody :- Statement();
        return Success(If(condition, ifBody, Some(elseBody)));
      }
      return Success(If(condition, ifBody, None));
    }

    method WhileStatement() returns (r: Result<Node, ParseError>)
      requires Valid()
      modifies this
      ensures Valid() && Agrees(r, WhileOf(items, old(pos)))
      decreases |items| - pos, 2
    {
      var condition :- Head(WHILE);
      var body :- Statement();
      return Success(While(condition, body));
    }

    method MatchStatement() returns (r: Result<Node, ParseError>)
      requires Valid()
      modifies this
      ensures Valid() && Agrees(r, MatchOf(items, old(pos)))
      decreases |items| - pos, 2
    {
      var expr :- Head(MATCH);
      var e := Eat(LBRACE);
      if e.Fail? { return Failure(e.error); }
      var matchCases: seq<MatchCase> := [];
      var defaultCase: Option<Node> := None;
      while Current().kind != RBRACE && Current().kind != EOF
        invariant Valid() && old(pos) < pos
        invariant MatchArms(items, pos, expr, matchCases, defaultCase) == MatchOf(items, old(pos))
        decreases |items| - pos
      {
        if Current().kind == UNDERSCORE && defaultCase.Some? {
          return Failure(MoreThanOneDefault);
        }
        ghost var start := pos;
        var arm := Arm();
        if arm.Failure? {
          ArmsFail(items, start, expr, matchCases, defaultCase);
          return Failure(arm.error);
        }
        ArmsContinue(items, start, expr, matchCases, defaultCase, (arm.value.0, arm.value.1, pos));
        if arm.value.0.None? {
          defaultCase := Some(arm.value.1);
        } else {
          matchCases := matchCases + [MatchCase(arm.value.0.value, arm.value.1)];
        }
      }
      e := Eat(RBRACE);
      if e.Fail? { return Failure(e.error); }
      return Success(Match(expr, matchCases, defaultCase));
    }

    /** One arm of the loop of `MatchStatement()`: `_` or a type, `:`, and a statement. */
    method Arm() returns (r: Result<(Option<ValType>, Node), ParseError>)
      requires Valid()
      modifies this
      ensures Valid()
      ensures var spec := ArmOf(items, old(pos));
              (spec.Success? ==> r == Success((spec.value.0, spec.value.1)) && pos == spec.value.2)
              && (spec.Failure? ==> r == Failure(spec.error))
      decreases |items| - pos, 1
    {
      var token := Current();
      var e: Outcome<ParseError>;
      if token.kind == UNDERSCORE {
        e := Eat(UNDERSCORE);
      } else {
        e := Eat(TYPE);
      }
      if e.Fail? { return Failure(e.error); }
      var caseType := if token.kind == UNDERSCORE then None else Some(XssExtension.ToValType(token.lexeme));
      e := Eat(COLON);
      if e.Fail? { return Failure(e.error); }
      var stmt := Statement();
      if stmt.Failure? { return Failure(stmt.error); }
      return Success((caseType, stmt.value));
    }

    method Statement() returns (r: Result<Node, ParseError>)
      requires Valid()
      modifies this
      ensures Valid() && Agrees(r, StatementOf(items, old(pos)))
      decreases |items| - pos, 3
    {
      var k := Current().kind;
      if k == LBRACE {
        r := Block();
      } else if k == VAR {
        r := VariableDeclare();
      } else if k == IF {
        r := IfStatement();
      } else if k == WHILE {
        r := WhileStatement();
      } else if k == MATCH {
        r := MatchStatement();
      } else {
        r := ExpressionStatement();
      }
    }

    /** `Parse()`: statements while the token after the current one is not EOF, as one
        block. */
    method Parse() returns (r: Result<Node, ParseError>)
      requires Valid()
      modifies this
      ensures Valid() && r == ProgramItems(items, old(pos), [])
    {
      var stmts := [];
      while true
        invariant Valid()
        invariant ProgramItems(items, pos, stmts) == ProgramItems(items, old(pos), [])
        decreases |items| - pos
      {
        var next :- PeekNextToken();
        if next == EOF {
          return Success(Node.Block(stmts));
        }
        var s :- Statement();
        stmts := stmts + [s];
      }
    }
  }

  /** `new Parser(new Lexer(text)).Parse()` on the lexer's token stream: a lexing error at the
      first token is raised by the constructor. */
  method ParseItems(items: seq<Item>) returns (r: Result<Node, ParseError>)
    requires ValidStream(items)
    ensures r == XssGrammar.Parse(items)
  {
    if items[0].LexFail? {
      return Failure(Lexing(items[0].error));
    }
    var parser := new Parser(items);
    r := parser.Parse();
  }
}
