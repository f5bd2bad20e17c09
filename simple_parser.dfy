/** The calculator's parser object (simple_interpreter/Parser.cs). It reads the lexer's tokens
    one at a time into its `current_token` and builds the tree with one method per grammar
    rule; each method is proved to build the tree, raise the error and stop at the position
    the matching function of SimpleGrammar describes. The lexer's tokens are read ahead into
    `items`: `current_token` is `items[pos]`, and peeking reads `items[pos + 1]`. */
module SimpleParser {
  import opened Wrappers
  import opened Tokens
  import opened XssAst
  import opened SimpleLexer
  import opened SimpleGrammar

  class Parser {
    /** What the lexer gives, token by token, up to EOF or its first error. */
    const items: seq<Item>
    /** The index of `current_token`. */
    var pos: nat

    predicate Valid()
      reads this
    {
      At(items, pos)
    }

    /** `current_token`. */
    function Current(): Token
      reads this
      requires Valid()
    {
      Cur(items, pos)
    }

    /** The method's result and the parser's new position are those `spec` gives. */
    predicate Agrees(r: Result<Node, ParseError>, spec: Parsed)
      reads this
    {
      match spec
      case Success(p) => r == Success(p.0) && pos == p.1
      case Failure(e) => r == Failure(e)
    }

    /** A step that reads a token: on success the new position is the one `spec` gives; on an
        error the parser stays where it was. */
    predicate Moved(r: Outcome<ParseError>, spec: Result<nat, ParseError>, before: nat)
      reads this
    {
      match spec
      case Success(j) => r == Pass && pos == j
      case Failure(e) => r == Fail(e) && pos == before
    }

    /** `new Parser(lexer)`: the first token is read; a lexer that fails at once raises from
        the constructor, which `ParseItems` models. */
    constructor (items: seq<Item>)
      requires Terminated(items) && items[0].Tok?
      ensures this.items == items && pos == 0 && Valid()
    {
      this.items := items;
      pos := 0;
    }

    /** `current_token = lexer.GetNextToken()`. */
    method ReadNext() returns (r: Outcome<ParseError>)
      requires Valid()
      modifies this
      ensures Valid() && Moved(r, Next(items, old(pos)), old(pos))
    {
      if pos + 1 < |items| {
        match items[pos + 1]
        case Tok(_) =>
          pos := pos + 1;
          r := Pass;
        case LexFail(e) =>
          r := Fail(Lexing(e));
      } else {
        r := Pass;
      }
    }

    /** `Eat(t)`. */
    method Eat(t: TokenKind) returns (r: Outcome<ParseError>)
      requires Valid()
      modifies this
      ensures Valid() && Moved(r, SimpleGrammar.Eat(items, old(pos), t), old(pos))
    {
      if Current().kind == t {
        r := ReadNext();
      } else {
        r := Fail(InvalidSyntax(Current()));
      }
    }

    /** The kind of `lexer.PeekNextToken()`. */
    method PeekNextToken() returns (r: Result<TokenKind, ParseError>)
      requires Valid()
      ensures r == Peek(items, pos)
    {
      if pos + 1 < |items| {
        match items[pos + 1]
        case Tok(t) => r := Success(t.kind);
        case LexFail(e) => r := Failure(Lexing(e));
      } else {
        r := Success(EOF);
      }
    }

    method Factor() returns (r: Result<Node, ParseError>)
      requires Valid()
      modifies this
      ensures Valid() && Agrees(r, SimpleGrammar.Factor(items, old(pos)))
      decreases |items| - pos, 0
    {
      var token := Current();
      if token.kind == INTERGER || token.kind == IDENT {
        var e := Eat(token.kind);
        if e.Fail? { return Failure(e.error); }
        return Success(Operand(token));
      } else if token.kind == LPAREN {
        var e := Eat(LPAREN);
        if e.Fail? { return Failure(e.error); }
        var node :- Level(AdditionLevel);
        e := Eat(RPAREN);
        if e.Fail? { return Failure(e.error); }
        return Success(node);
      }
      return Failure(InvalidSyntax(token));
    }

    /** `PrecendenceLevel1()`, `PrecendenceLevel2()` and `PrecendenceLevel3()`, by their
        level: the left operand, then a loop that makes the tree so far the left operand of
        each further operator. */
    method Level(level: nat) returns (r: Result<Node, ParseError>)
      requires Valid() && level <= AdditionLevel
      modifies this
      ensures Valid() && Agrees(r, SimpleGrammar.Level(items, old(pos), level))
      decreases |items| - pos, 2 * level + 2
    {
      if level == 0 {
        r := Factor();
        return;
      }
      var node :- Level(level - 1);
      while Current().kind in LevelOperators(level)
        invariant Valid() && old(pos) < pos
        invariant LevelTail(items, level, node, pos) == SimpleGrammar.Level(items, old(pos), level)
        decreases |items| - pos
      {
        var token := Current();
        var e := Eat(token.kind);
        if e.Fail? { return Failure(e.error); }
        var right :- Level(RightLevel(level));
        node := BinaryOperation(node, token, right);
      }
      return Success(node);
    }

    method Assignment() returns (r: Result<Node, ParseError>)
      requires Valid()
      modifies this
      ensures Valid() && Agrees(r, AssignmentOf(items, old(pos)))
      decreases |items| - pos, 9
    {
      var token := Current();
      var e := Eat(IDENT);
      if e.Fail? { return Failure(e.error); }
      e := Eat(ASSIGN);
      if e.Fail? { return Failure(e.error); }
      var expr :- Level(AdditionLevel);
      return Success(XssAst.Assignment(token, expr));
    }

    method Expression() returns (r: Result<Node, ParseError>)
      requires Valid()
      modifies this
      ensures Valid() && Agrees(r, SimpleGrammar.Expression(items, old(pos)))
      decreases |items| - pos, 10
    {
      var next :- PeekNextToken();
      if next == ASSIGN {
        r := Assignment();
      } else {
        r := Level(AdditionLevel);
      }
    }

    /** `Parse()`: one expression. */
    method Parse() returns (r: Result<Node, ParseError>)
      requires Valid()
      modifies this
      ensures Valid() && Agrees(r, SimpleGrammar.Expression(items, old(pos)))
    {
      r := Expression();
    }
  }

  /** `new Parser(lexer).Parse()` over a lexed stream. */
  method ParseItems(items: seq<Item>) returns (r: Result<Node, ParseError>)
    requires Terminated(items)
    ensures r == SimpleGrammar.Parse(items)
  {
    if items[0].LexFail? {
      return Failure(Lexing(items[0].error));
    }
    var p := new Parser(items);
    r := p.Parse();
  }
}
