/** What the XSS grammar does with particular token sequences: every binary level nests to the
    left, `*` takes a bare unary operand, one `is` at most, assignments nest to the right, a
    declaration without `=` has no initializer, and the statement loops keep what they read in
    order. */
module XssGrammarFacts {
  import opened Wrappers
  import opened Tokens
  import opened XssOperand
  import opened XssAst
  import opened XssLexer
  import opened XssGrammar
  import XssExtension

  // ---- Operands and levels ----

  /** No kind belongs to two levels. */
  lemma LevelsDisjoint(k: TokenKind, level: nat, l: nat)
    requires 1 <= level <= OrLevel && 1 <= l <= OrLevel && l != level
    requires k in LevelOperators(level)
    ensures k !in LevelOperators(l)
  {
  }

  /** No binary level knows `k`, up to `level`. */
  predicate NoOperatorUpTo(k: TokenKind, level: nat)
  {
    forall l :: 1 <= l <= level ==> k !in LevelOperators(l)
  }

  /** An operand that no operator up to `level` follows is parsed at `level` as itself. */
  lemma {:induction false} OperandClimbs(items: seq<Item>, i: nat, level: nat)
    requires At(items, i) && level <= OrLevel && Cur(items, i).kind in OperandKinds
    requires At(items, i + 1) && NoOperatorUpTo(Cur(items, i + 1).kind, level)
    ensures Level(items, i, level) == Success((Operand(Cur(items, i)), i + 1))
  {
    if level > 0 {
      OperandClimbs(items, i, level - 1);
      assert Cur(items, i + 1).kind !in LevelOperators(level);
    } else {
      assert Next(items, i) == Success(i + 1);
      assert Factor(items, i) == Success((Operand(Cur(items, i)), i + 1));
      assert Unary(items, i) == Factor(items, i);
    }
  }

  /** A tree a level has finished is left alone by the looser levels up to `top` when the
      token after it is none of their operators. */
  lemma {:induction false} LevelLift(items: seq<Item>, i: nat, level: nat, top: nat, n: Node, e: nat)
    requires At(items, i) && level <= top <= OrLevel
    requires Level(items, i, level) == Success((n, e)) && At(items, e)
    requires forall l :: level < l <= top ==> Cur(items, e).kind !in LevelOperators(l)
    ensures Level(items, i, top) == Success((n, e))
  {
    if top > level {
      LevelLift(items, i, level, top - 1, n, e);
    }
  }

  // ---- Left folds ----

  /** One further operator of a level and the operand after it, ending at `end`. */
  datatype Link = Link(op: Token, operand: Node, end: nat)

  /** The tree the loop of a level builds from `node` and the links read after it. */
  function Fold(node: Node, links: seq<Link>): Node
    decreases |links|
  {
    if links == [] then node else Fold(BinaryOperation(node, links[0].op, links[0].operand), links[1..])
  }

  /** Where the last link ends. */
  function EndOf(j: nat, links: seq<Link>): nat
    decreases |links|
  {
    if links == [] then j else EndOf(links[0].end, links[1..])
  }

  /** From `j` the stream holds the links: each an operator of the level and the right
      operand parsed right after it. */
  predicate Links(items: seq<Item>, level: nat, j: nat, links: seq<Link>)
    requires 1 <= level <= OrLevel
    decreases |links|
  {
    At(items, j)
    && (links != [] ==>
          Cur(items, j) == links[0].op && links[0].op.kind in LevelOperators(level)
          && At(items, j + 1)
          && Level(items, j + 1, RightLevel(level)) == Success((links[0].operand, links[0].end))
          && Links(items, level, links[0].end, links[1..]))
  }

  /** The loop of every level is a left fold: the links after `node` make it the innermost,
      leftmost operand. */
  lemma {:induction false} LevelTailFolds(items: seq<Item>, level: nat, node: Node, j: nat, links: seq<Link>)
    requires 1 <= level <= OrLevel && Links(items, level, j, links)
    requires At(items, EndOf(j, links)) && Cur(items, EndOf(j, links)).kind !in LevelOperators(level)
    ensures LevelTail(items, level, node, j) == Success((Fold(node, links), EndOf(j, links)))
    decreases |links|
  {
    if links != [] {
      var l, node' := links[0], BinaryOperation(node, links[0].op, links[0].operand);
      assert EndOf(j, links) == EndOf(l.end, links[1..]) && Fold(node, links) == Fold(node', links[1..]);
      LevelTailFolds(items, level, node', l.end, links[1..]);
      LevelTailStep(items, level, node, j, l);
    }
  }

  /** One turn of a level's loop: the operator and the operand after it join the tree. */
  lemma LevelTailStep(items: seq<Item>, level: nat, node: Node, j: nat, l: Link)
    requires 1 <= level <= OrLevel && At(items, j) && Cur(items, j) == l.op && l.op.kind in LevelOperators(level)
    requires At(items, j + 1) && Level(items, j + 1, RightLevel(level)) == Success((l.operand, l.end))
    ensures LevelTail(items, level, node, j) == LevelTail(items, level, BinaryOperation(node, l.op, l.operand), l.end)
  {
    assert Next(items, j) == Success(j + 1);
  }

  // ---- Statements of one expression ----

  /** An `or`-level tree with no `is` after it, not started by an assignment, is the
      expression. */
  lemma ExpressionOfTree(items: seq<Item>, i: nat, tree: Node, e: nat)
    requires At(items, i) && Peek(items, i).Success? && Peek(items, i) != Success(ASSIGN)
    requires Level(items, i, OrLevel) == Success((tree, e)) && Cur(items, e).kind != IS
    ensures Expression(items, i) == Success((tree, e))
  {
  }

  /** An expression that a `;` ends is an expression statement, when it does not start with a
      statement keyword. */
  lemma StatementOfExpression(items: seq<Item>, i: nat, tree: Node, e: nat)
    requires At(items, i) && Cur(items, i).kind !in {LBRACE, VAR, IF, WHILE, MATCH}
    requires Expression(items, i) == Success((tree, e)) && Cur(items, e).kind == SEMICOLON && At(items, e + 1)
    ensures StatementOf(items, i) == Success((ExpressionStatement(tree), e + 1))
  {
  }

  /** A program that is one statement followed by the last token before EOF. */
  lemma SingleStatementProgram(items: seq<Item>, s: Node, e: nat)
    requires At(items, 0) && Peek(items, 0).Success? && Peek(items, 0) != Success(EOF)
    requires StatementOf(items, 0) == Success((s, e)) && Peek(items, e) == Success(EOF)
    ensures Parse(items) == Success(Block([s]))
  {
    ProgramStep(items, 0, [], (s, e));
    assert [] + [s] == [s];
    LastTokenIgnored(items, e, [s]);
  }

  /** A program that is one expression and its `;`, followed by at most one token. */
  lemma OneExpressionProgram(items: seq<Item>, tree: Node, e: nat)
    requires At(items, 0) && Cur(items, 0).kind !in {LBRACE, VAR, IF, WHILE, MATCH}
    requires Peek(items, 0).Success? && Peek(items, 0) != Success(EOF)
    requires Expression(items, 0) == Success((tree, e)) && Cur(items, e).kind == SEMICOLON
    requires At(items, e + 1) && Peek(items, e + 1) == Success(EOF)
    ensures Parse(items) == Success(Block([ExpressionStatement(tree)]))
  {
    StatementOfExpression(items, 0, tree, e);
    SingleStatementProgram(items, ExpressionStatement(tree), e + 1);
  }

  /** A program that is one operand-led `or`-level tree and its `;`, followed by at most one
      token. */
  lemma OneTreeProgram(items: seq<Item>, tree: Node, e: nat)
    requires At(items, 0) && Cur(items, 0).kind in OperandKinds
    requires Peek(items, 0).Success? && Peek(items, 0) != Success(ASSIGN) && Peek(items, 0) != Success(EOF)
    requires Level(items, 0, OrLevel) == Success((tree, e)) && Cur(items, e).kind == SEMICOLON
    requires At(items, e + 1) && Peek(items, e + 1) == Success(EOF)
    ensures Parse(items) == Success(Block([ExpressionStatement(tree)]))
  {
    ExpressionOfTree(items, 0, tree, e);
    OneExpressionProgram(items, tree, e);
  }

  /** An operand-led `or`-level tree that is not followed by a `;` is a rejected program. */
  lemma TreeWithoutSemicolon(items: seq<Item>, tree: Node, e: nat)
    requires At(items, 0) && Cur(items, 0).kind in OperandKinds
    requires Peek(items, 0).Success? && Peek(items, 0) != Success(ASSIGN) && Peek(items, 0) != Success(EOF)
    requires Level(items, 0, OrLevel) == Success((tree, e)) && Cur(items, e).kind !in {IS, SEMICOLON}
    ensures Parse(items) == Failure(Expecting(SEMICOLON))
  {
    ExpressionOfTree(items, 0, tree, e);
    MissingSemicolon(items, tree, e);
  }

  /** A program whose first expression is not followed by its `;`. */
  lemma MissingSemicolon(items: seq<Item>, tree: Node, e: nat)
    requires At(items, 0) && Cur(items, 0).kind !in {LBRACE, VAR, IF, WHILE, MATCH}
    requires Peek(items, 0).Success? && Peek(items, 0) != Success(EOF)
    requires Expression(items, 0) == Success((tree, e)) && Cur(items, e).kind != SEMICOLON
    ensures Parse(items) == Failure(Expecting(SEMICOLON))
  {
    assert StatementOf(items, 0) == Failure(Expecting(SEMICOLON));
  }

  /** At its own level, `x o1 y o2 z` followed by a token that is no operator is the tree
      `(x o1 y) o2 z`. */
  lemma TwoOperatorsFold(items: seq<Item>, level: nat, x: Token, o1: Token, y: Token, o2: Token, z: Token)
    requires 1 <= level <= OrLevel && Terminated(items) && |items| > 5
    requires items[..5] == [Tok(x), Tok(o1), Tok(y), Tok(o2), Tok(z)] && items[5].Tok?
    requires x.kind in OperandKinds && y.kind in OperandKinds && z.kind in OperandKinds
    requires o1.kind in LevelOperators(level) && o2.kind in LevelOperators(level)
    requires NoOperatorUpTo(items[5].token.kind, OrLevel)
    ensures Level(items, 0, level) == Success((BinaryOperation(BinaryOperation(Operand(x), o1, Operand(y)), o2, Operand(z)), 5))
  {
    assert items[0] == Tok(x) && items[1] == Tok(o1) && items[2] == Tok(y) && items[3] == Tok(o2) && items[4] == Tok(z);
    forall l | 1 <= l <= OrLevel && l != level
      ensures o1.kind !in LevelOperators(l) && o2.kind !in LevelOperators(l)
    {
      LevelsDisjoint(o1.kind, level, l);
      LevelsDisjoint(o2.kind, level, l);
    }
    OperandClimbs(items, 0, level - 1);
    OperandClimbs(items, 2, RightLevel(level));
    OperandClimbs(items, 4, RightLevel(level));
    var links := [Link(o1, Operand(y), 3), Link(o2, Operand(z), 5)];
    assert links[1..] == [Link(o2, Operand(z), 5)] && links[1..][1..] == [];
    assert EndOf(3, links[1..]) == EndOf(5, []) == 5;
    LevelTailFolds(items, level, Operand(x), 1, links);
  }

  /** The statement `x o1 y o2 z ;`, with two operators of one binary level, parses as
      `(x o1 y) o2 z`, at every level. */
  lemma BinaryChainNestsLeft(items: seq<Item>, level: nat, x: Token, o1: Token, y: Token, o2: Token, z: Token, semi: Token, eof: Token)
    requires 1 <= level <= OrLevel
    requires items == [Tok(x), Tok(o1), Tok(y), Tok(o2), Tok(z), Tok(semi), Tok(eof)]
    requires x.kind in OperandKinds && y.kind in OperandKinds && z.kind in OperandKinds
    requires o1.kind in LevelOperators(level) && o2.kind in LevelOperators(level)
    requires semi.kind == SEMICOLON && eof.kind == EOF
    ensures Parse(items) == Success(Block([ExpressionStatement(
              BinaryOperation(BinaryOperation(Operand(x), o1, Operand(y)), o2, Operand(z)))]))
  {
    assert Terminated(items);
    assert items[..5] == [Tok(x), Tok(o1), Tok(y), Tok(o2), Tok(z)];
    assert NoOperatorUpTo(SEMICOLON, OrLevel);
    TwoOperatorsFold(items, level, x, o1, y, o2, z);
    var tree := BinaryOperation(BinaryOperation(Operand(x), o1, Operand(y)), o2, Operand(z));
    LevelLift(items, 0, level, OrLevel, tree, 5);
    assert Peek(items, 0) == Success(o1.kind) && o1.kind != ASSIGN;
    assert Peek(items, 6) == Success(EOF);
    OneTreeProgram(items, tree, 5);
  }

  /** `x * y ^ z ;` is rejected: `*` takes a bare unary operand, so the `^` is left for the
      looser levels, which do not know it, and the statement lacks its `;`. */
  lemma MultiplicationTakesUnary(items: seq<Item>, x: Token, star: Token, y: Token, hat: Token, z: Token, semi: Token, eof: Token)
    requires items == [Tok(x), Tok(star), Tok(y), Tok(hat), Tok(z), Tok(semi), Tok(eof)]
    requires x.kind in OperandKinds && y.kind in OperandKinds && z.kind in OperandKinds
    requires star.kind == MULTIPLY && hat.kind == EXPONENT && semi.kind == SEMICOLON && eof.kind == EOF
    ensures Parse(items) == Failure(Expecting(SEMICOLON))
  {
    assert Terminated(items);
    OperandClimbs(items, 0, ExponentLevel);
    OperandClimbs(items, 2, 0);
    var tree := BinaryOperation(Operand(x), star, Operand(y));
    assert LevelTail(items, MultiplicationLevel, Operand(x), 1) == Success((tree, 3));
    LevelLift(items, 0, MultiplicationLevel, OrLevel, tree, 3);
    TreeWithoutSemicolon(items, tree, 3);
  }

  /** `x is T1 is T2 ;` is rejected: one `is` is read, and the second is left before the
      `;` the statement expects. */
  lemma SecondIsRejected(items: seq<Item>, x: Token, is1: Token, t1: Token, is2: Token, t2: Token, semi: Token, eof: Token)
    requires items == [Tok(x), Tok(is1), Tok(t1), Tok(is2), Tok(t2), Tok(semi), Tok(eof)]
    requires x.kind in OperandKinds && t1.kind == TYPE && t2.kind == TYPE
    requires is1.kind == IS && is2.kind == IS && semi.kind == SEMICOLON && eof.kind == EOF
    ensures Parse(items) == Failure(Expecting(SEMICOLON))
  {
    assert Terminated(items);
    OperandClimbs(items, 0, OrLevel);
    OperandClimbs(items, 2, OrLevel);
    var tree := BinaryOperation(Operand(x), is1, Operand(t1));
    assert TypeIdentify(items, 0) == Success((tree, 3));
    MissingSemicolon(items, tree, 3);
  }

  // ---- Assignments and declarations ----

  /** `x = e` where the expression `e` starts two tokens on. */
  lemma AssignmentStep(items: seq<Item>, i: nat, rhs: Node, e: nat)
    requires At(items, i) && Cur(items, i).kind == IDENT && At(items, i + 1) && Cur(items, i + 1).kind == ASSIGN
    requires At(items, i + 2) && Expression(items, i + 2) == Success((rhs, e))
    ensures Expression(items, i) == Success((Assignment(Cur(items, i), rhs), e))
  {
    assert Peek(items, i) == Success(ASSIGN);
    assert Eat(items, i, IDENT) == Success(i + 1);
    assert Eat(items, i + 1, ASSIGN) == Success(i + 2);
  }

  /** `x = y = z ;` assigns `z` to `y` and that to `x`: assignments nest to the right. */
  lemma AssignmentNestsRight(items: seq<Item>, x: Token, eq1: Token, y: Token, eq2: Token, z: Token, semi: Token, eof: Token)
    requires items == [Tok(x), Tok(eq1), Tok(y), Tok(eq2), Tok(z), Tok(semi), Tok(eof)]
    requires x.kind == IDENT && y.kind == IDENT && z.kind in OperandKinds
    requires eq1.kind == ASSIGN && eq2.kind == ASSIGN && semi.kind == SEMICOLON && eof.kind == EOF
    ensures Parse(items) == Success(Block([ExpressionStatement(Assignment(x, Assignment(y, Operand(z))))]))
  {
    assert Terminated(items);
    OperandClimbs(items, 4, OrLevel);
    ExpressionOfTree(items, 4, Operand(z), 5);
    AssignmentStep(items, 2, Operand(z), 5);
    AssignmentStep(items, 0, Assignment(y, Operand(z)), 5);
    OneExpressionProgram(items, Assignment(x, Assignment(y, Operand(z))), 5);
  }

  /** `1 = x ;` is rejected: the `=` after the first token commits to an assignment, whose
      target must be a name. */
  lemma AssignmentNeedsName(items: seq<Item>, i: nat)
    requires At(items, i) && Cur(items, i).kind != IDENT && Peek(items, i) == Success(ASSIGN)
    ensures Expression(items, i) == Failure(Expecting(IDENT))
  {
  }

  /** `var x ;` declares `x` with no initializer. */
  lemma DeclarationWithoutInitializer(items: seq<Item>, v: Token, x: Token, semi: Token, eof: Token)
    requires items == [Tok(v), Tok(x), Tok(semi), Tok(eof)]
    requires v.kind == VAR && x.kind == IDENT && semi.kind == SEMICOLON && eof.kind == EOF
    ensures Parse(items) == Success(Block([VariableDeclare(x, None)]))
  {
    assert Terminated(items);
    assert Initializer(items, 2) == Success((None, 2));
    assert VariableDeclareOf(items, 0) == Success((VariableDeclare(x, None), 3));
    SingleStatementProgram(items, VariableDeclare(x, None), 3);
  }

  // ---- Statement loops ----

  /** A sequence that starts with `done + [x]` starts with `done`. */
  lemma PrefixOfPrefix<T>(all: seq<T>, done: seq<T>, x: T)
    requires |done| + 1 <= |all| && all[..|done| + 1] == done + [x]
    ensures |done| <= |all| && all[..|done|] == done
  {
    assert all[..|done|] == all[..|done| + 1][..|done|];
  }

  /** One turn of the block loop. */
  lemma BlockStep(items: seq<Item>, j: nat, done: seq<Node>, s: (Node, nat))
    requires At(items, j) && Cur(items, j).kind != RBRACE && StatementOf(items, j) == Success(s)
    ensures BlockItems(items, j, done) == BlockItems(items, s.1, done + [s.0])
  {
  }

  /** The statements of a block are kept in the order they are read. */
  lemma {:induction false} BlockKeepsOrder(items: seq<Item>, j: nat, done: seq<Node>, b: (Node, nat))
    requires At(items, j) && BlockItems(items, j, done) == Success(b)
    ensures |done| <= |b.0.statements| && b.0.statements[..|done|] == done
    decreases |items| - j
  {
    if Cur(items, j).kind != RBRACE {
      assert StatementOf(items, j).Success?;
      var s := StatementOf(items, j).value;
      BlockStep(items, j, done, s);
      BlockKeepsOrder(items, s.1, done + [s.0], b);
      PrefixOfPrefix(b.0.statements, done, s.0);
    }
  }

  /** The cases of a match are kept in the order they are read, and a default case once read
      stays (a second one is an error). */
  lemma {:induction false} MatchKeepsOrder(items: seq<Item>, j: nat, subject: Node, cases: seq<MatchCase>, dflt: Option<Node>, m: (Node, nat))
    requires At(items, j) && MatchArms(items, j, subject, cases, dflt) == Success(m)
    ensures |cases| <= |m.0.cases| && m.0.cases[..|cases|] == cases
    ensures dflt.Some? ==> m.0.defaultCase == dflt
    decreases |items| - j
  {
    var t := Cur(items, j);
    if t.kind == RBRACE || t.kind == EOF {
      assert m.0 == Match(subject, cases, dflt);
    } else {
      assert ArmOf(items, j).Success?;
      var a := ArmOf(items, j).value;
      ArmsContinue(items, j, subject, cases, dflt, a);
      if a.0.None? {
        MatchKeepsOrder(items, a.2, subject, cases, Some(a.1), m);
      } else {
        MatchKeepsOrder(items, a.2, subject, cases + [MatchCase(a.0.value, a.1)], dflt, m);
        PrefixOfPrefix(m.0.cases, cases, MatchCase(a.0.value, a.1));
      }
    }
  }

  /** One turn of the program loop. */
  lemma ProgramStep(items: seq<Item>, i: nat, done: seq<Node>, s: (Node, nat))
    requires At(items, i) && Peek(items, i).Success? && Peek(items, i) != Success(EOF)
    requires StatementOf(items, i) == Success(s)
    ensures ProgramItems(items, i, done) == ProgramItems(items, s.1, done + [s.0])
  {
  }

  /** The statements of a program are kept in the order they are read. */
  lemma {:induction false} ProgramKeepsOrder(items: seq<Item>, i: nat, done: seq<Node>, b: Node)
    requires At(items, i) && ProgramItems(items, i, done) == Success(b)
    ensures |done| <= |b.statements| && b.statements[..|done|] == done
    decreases |items| - i
  {
    if Peek(items, i) != Success(EOF) {
      assert StatementOf(items, i).Success?;
      var s := StatementOf(items, i).value;
      ProgramStep(items, i, done, s);
      ProgramKeepsOrder(items, s.1, done + [s.0], b);
      PrefixOfPrefix(b.statements, done, s.0);
    }
  }

  /** The program loop stops as soon as the token after the current one is EOF, so the last
      token of the stream before EOF is never read as a statement. */
  lemma LastTokenIgnored(items: seq<Item>, i: nat, done: seq<Node>)
    requires At(items, i) && Peek(items, i) == Success(EOF)
    ensures ProgramItems(items, i, done) == Success(Block(done))
  {
  }

  /** A program of one token (or none) is the empty block, whatever the token. */
  lemma OneTokenProgram(t: Token, eof: Token)
    requires t.kind != EOF && eof.kind == EOF
    ensures Parse([Tok(t), Tok(eof)]) == Success(Block([]))
    ensures Parse([Tok(eof)]) == Success(Block([]))
  {
    assert Terminated([Tok(t), Tok(eof)]);
    assert Terminated([Tok(eof)]);
  }

  /** `x ; y` reads `x ;` and drops the trailing `y`. */
  lemma TrailingTokenDropped(items: seq<Item>, x: Token, semi: Token, y: Token, eof: Token)
    requires items == [Tok(x), Tok(semi), Tok(y), Tok(eof)]
    requires x.kind in OperandKinds && semi.kind == SEMICOLON && y.kind != EOF && eof.kind == EOF
    ensures Parse(items) == Success(Block([ExpressionStatement(Operand(x))]))
  {
    assert Terminated(items);
    OperandClimbs(items, 0, OrLevel);
    OneTreeProgram(items, Operand(x), 1);
  }
}
