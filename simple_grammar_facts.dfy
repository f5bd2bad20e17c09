/** What the calculator's grammar does with particular token sequences: every level nests to
    the left, `*` and `/` take a bare factor so a following `^` is left unread, `+` binds
    looser than `*`, an assignment's right side is one level-3 expression, and whatever
    follows the expression is ignored. */
module SimpleGrammarFacts {
  import opened Wrappers
  import opened Tokens
  import opened XssAst
  import opened SimpleLexer
  import opened SimpleGrammar

  // ---- Operands and levels ----

  /** No binary level knows `k`, up to `level`. */
  predicate NoOperatorUpTo(k: TokenKind, level: nat)
  {
    forall l :: 1 <= l <= level ==> k !in LevelOperators(l)
  }

  /** An integer or name that no operator up to `level` follows is parsed at `level` as
      itself. */
  lemma {:induction false} OperandClimbs(items: seq<Item>, i: nat, level: nat)
    requires At(items, i) && level <= AdditionLevel && Cur(items, i).kind in {INTERGER, IDENT}
    requires At(items, i + 1) && NoOperatorUpTo(Cur(items, i + 1).kind, level)
    ensures Level(items, i, level) == Success((Operand(Cur(items, i)), i + 1))
  {
    if level > 0 {
      OperandClimbs(items, i, level - 1);
      assert Cur(items, i + 1).kind !in LevelOperators(level);
    } else {
      assert Next(items, i) == Success(i + 1);
    }
  }

  /** A tree a level has finished is left alone by the looser levels up to `top` when the
      token after it is none of their operators. */
  lemma {:induction false} LevelLift(items: seq<Item>, i: nat, level: nat, top: nat, n: Node, e: nat)
    requires At(items, i) && level <= top <= AdditionLevel
    requires Level(items, i, level) == Success((n, e)) && At(items, e)
    requires forall l :: level < l <= top ==> Cur(items, e).kind !in LevelOperators(l)
    ensures Level(items, i, top) == Success((n, e))
  {
    if top > level {
      LevelLift(items, i, level, top - 1, n, e);
    }
  }

  // ---- Left folds ----

  /** One further operator of a level and the operand after it, ending at `end`. */
  datatype Link = Link(op: Token, operand: Node, end: nat)

  /** The tree the loop of a level builds from `node` and the links read after it. */
  function Fold(node: Node, links: seq<Link>): Node
    decreases |links|
  {
    if links == [] then node else Fold(BinaryOperation(node, links[0].op, links[0].operand), links[1..])
  }

  /** Where the last link ends. */
  function EndOf(j: nat, links: seq<Link>): nat
    decreases |links|
  {
    if links == [] then j else EndOf(links[0].end, links[1..])
  }

  /** From `j` the stream holds the links: each an operator of the level and the right
      operand parsed right after it. */
  predicate Links(items: seq<Item>, level: nat, j: nat, links: seq<Link>)
    requires 1 <= level <= AdditionLevel
    decreases |links|
  {
    At(items, j)
    && (links != [] ==>
          Cur(items, j) == links[0].op && links[0].op.kind in LevelOperators(level)
          && At(items, j + 1)
          && Level(items, j + 1, RightLevel(level)) == Success((links[0].operand, links[0].end))
          && Links(items, level, links[0].end, links[1..]))
  }

  /** The loop of every level is a left fold: the links after `node` make it the innermost,
      leftmost operand. */
  lemma {:induction false} LevelTailFolds(items: seq<Item>, level: nat, node: Node, j: nat, links: seq<Link>)
    requires 1 <= level <= AdditionLevel && Links(items, level, j, links)
    requires At(items, EndOf(j, links)) && Cur(items, EndOf(j, links)).kind !in LevelOperators(level)
    ensures LevelTail(items, level, node, j) == Success((Fold(node, links), EndOf(j, links)))
    decreases |links|
  {
    if links != [] {
      var l, node' := links[0], BinaryOperation(node, links[0].op, links[0].operand);
      assert EndOf(j, links) == EndOf(l.end, links[1..]) && Fold(node, links) == Fold(node', links[1..]);
      LevelTailFolds(items, level, node', l.end, links[1..]);
      LevelTailStep(items, level, node, j, l);
    }
  }

  /** One turn of a level's loop: the operator and the operand after it join the tree. */
  lemma LevelTailStep(items: seq<Item>, level: nat, node: Node, j: nat, l: Link)
    requires 1 <= level <= AdditionLevel && At(items, j) && Cur(items, j) == l.op && l.op.kind in LevelOperators(level)
    requires At(items, j + 1) && Level(items, j + 1, RightLevel(level)) == Success((l.operand, l.end))
    ensures LevelTail(items, level, node, j) == LevelTail(items, level, BinaryOperation(node, l.op, l.operand), l.end)
  {
    assert Next(items, j) == Success(j + 1);
  }

  /** A level-3 expression not started by an assignment is the parse. */
  lemma ParseOfTree(items: seq<Item>, tree: Node, e: nat)
    requires At(items, 0) && Peek(items, 0).Success? && Peek(items, 0) != Success(ASSIGN)
    requires Level(items, 0, AdditionLevel) == Success((tree, e))
    ensures Parse(items) == Success(tree)
  {
  }

  /** At its own level, `x o1 y o2 z` followed by a token that is no operator is the tree
      `(x o1 y) o2 z`. */
  lemma TwoOperatorsFold(items: seq<Item>, level: nat, x: Token, o1: Token, y: Token, o2: Token, z: Token)
    requires 1 <= level <= AdditionLevel && Terminated(items) && |items| > 5
    requires items[..5] == [Tok(x), Tok(o1), Tok(y), Tok(o2), Tok(z)] && items[5].Tok?
    requires x.kind in {INTERGER, IDENT} && y.kind in {INTERGER, IDENT} && z.kind in {INTERGER, IDENT}
    requires o1.kind in LevelOperators(level) && o2.kind in LevelOperators(level)
    requires NoOperatorUpTo(items[5].token.kind, AdditionLevel)
    ensures Level(items, 0, level) == Success((BinaryOperation(BinaryOperation(Operand(x), o1, Operand(y)), o2, Operand(z)), 5))
  {
    assert items[0] == Tok(x) && items[1] == Tok(o1) && items[2] == Tok(y) && items[3] == Tok(o2) && items[4] == Tok(z);
    forall l | 1 <= l <= AdditionLevel && l != level
      ensures o1.kind !in LevelOperators(l) && o2.kind !in LevelOperators(l)
    {
    }
    OperandClimbs(items, 0, level - 1);
    OperandClimbs(items, 2, RightLevel(level));
    OperandClimbs(items, 4, RightLevel(level));
    var links := [Link(o1, Operand(y), 3), Link(o2, Operand(z), 5)];
    assert links[1..] == [Link(o2, Operand(z), 5)] && links[1..][1..] == [];
    assert EndOf(3, links[1..]) == EndOf(5, []) == 5;
    LevelTailFolds(items, level, Operand(x), 1, links);
  }

  /** `x o1 y o2 z`, with two operators of one level, parses as `(x o1 y) o2 z`, at every
      level. */
  lemma BinaryChainNestsLeft(items: seq<Item>, level: nat, x: Token, o1: Token, y: Token, o2: Token, z: Token, eof: Token)
    requires 1 <= level <= AdditionLevel
    requires items == [Tok(x), Tok(o1), Tok(y), Tok(o2), Tok(z), Tok(eof)]
    requires x.kind in {INTERGER, IDENT} && y.kind in {INTERGER, IDENT} && z.kind in {INTERGER, IDENT}
    requires o1.kind in LevelOperators(level) && o2.kind in LevelOperators(level) && eof.kind == EOF
    ensures Parse(items) == Success(BinaryOperation(BinaryOperation(Operand(x), o1, Operand(y)), o2, Operand(z)))
  {
    assert Terminated(items);
    assert items[..5] == [Tok(x), Tok(o1), Tok(y), Tok(o2), Tok(z)];
    assert NoOperatorUpTo(EOF, AdditionLevel);
    TwoOperatorsFold(items, level, x, o1, y, o2, z);
    var tree := BinaryOperation(BinaryOperation(Operand(x), o1, Operand(y)), o2, Operand(z));
    LevelLift(items, 0, level, AdditionLevel, tree, 5);
    ParseOfTree(items, tree, 5);
  }

  /** `x * y ^ z` parses as `x * y`: the right operand of `*` is a bare factor, so the `^` ends
      the expression and it and `z` are never read. */
  lemma MultiplicationLeavesExponent(items: seq<Item>, x: Token, star: Token, y: Token, hat: Token, z: Token, eof: Token)
    requires items == [Tok(x), Tok(star), Tok(y), Tok(hat), Tok(z), Tok(eof)]
    requires x.kind in {INTERGER, IDENT} && y.kind in {INTERGER, IDENT} && z.kind in {INTERGER, IDENT}
    requires star.kind == MULTIPLY && hat.kind == EXPONENT && eof.kind == EOF
    ensures Parse(items) == Success(BinaryOperation(Operand(x), star, Operand(y)))
  {
    assert Terminated(items);
    OperandClimbs(items, 0, ExponentLevel);
    OperandClimbs(items, 2, 0);
    var tree := BinaryOperation(Operand(x), star, Operand(y));
    assert LevelTail(items, MultiplicationLevel, Operand(x), 1) == Success((tree, 3));
    LevelLift(items, 0, MultiplicationLevel, AdditionLevel, tree, 3);
    ParseOfTree(items, tree, 3);
  }

  /** `x + y * z` parses as `x + (y * z)`: the right operand of `+` is a whole level-2 term. */
  lemma AdditionTakesTerm(items: seq<Item>, x: Token, plus: Token, y: Token, star: Token, z: Token, eof: Token)
    requires items == [Tok(x), Tok(plus), Tok(y), Tok(star), Tok(z), Tok(eof)]
    requires x.kind in {INTERGER, IDENT} && y.kind in {INTERGER, IDENT} && z.kind in {INTERGER, IDENT}
    requires plus.kind == PLUS && star.kind == MULTIPLY && eof.kind == EOF
    ensures Parse(items) == Success(BinaryOperation(Operand(x), plus, BinaryOperation(Operand(y), star, Operand(z))))
  {
    assert Terminated(items);
    assert NoOperatorUpTo(EOF, AdditionLevel);
    OperandClimbs(items, 0, MultiplicationLevel);
    OperandClimbs(items, 2, ExponentLevel);
    OperandClimbs(items, 4, 0);
    var term := BinaryOperation(Operand(y), star, Operand(z));
    assert LevelTail(items, MultiplicationLevel, Operand(y), 3) == Success((term, 5));
    assert Level(items, 2, MultiplicationLevel) == Success((term, 5));
    var tree := BinaryOperation(Operand(x), plus, term);
    assert LevelTail(items, AdditionLevel, tree, 5) == Success((tree, 5));
    assert LevelTail(items, AdditionLevel, Operand(x), 1) == Success((tree, 5));
    ParseOfTree(items, tree, 5);
  }

  /** `x = y = z` parses as `x = y`: the right side of an assignment is a level-3 expression,
      which stops at the second `=`, and the rest is ignored. */
  lemma AssignmentsDoNotChain(items: seq<Item>, x: Token, eq1: Token, y: Token, eq2: Token, z: Token, eof: Token)
    requires items == [Tok(x), Tok(eq1), Tok(y), Tok(eq2), Tok(z), Tok(eof)]
    requires x.kind == IDENT && y.kind in {INTERGER, IDENT}
    requires eq1.kind == ASSIGN && eq2.kind == ASSIGN && eof.kind == EOF
    ensures Parse(items) == Success(Assignment(x, Operand(y)))
  {
    assert Terminated(items);
    OperandClimbs(items, 2, AdditionLevel);
    assert Peek(items, 0) == Success(ASSIGN);
    assert Eat(items, 0, IDENT) == Success(1);
    assert Eat(items, 1, ASSIGN) == Success(2);
    assert AssignmentOf(items, 0) == Success((Assignment(x, Operand(y)), 3));
  }

  /** `x y` parses as `x`: `Parse` does not ask for EOF after the expression. */
  lemma TrailingTokensIgnored(items: seq<Item>, x: Token, y: Token, eof: Token)
    requires items == [Tok(x), Tok(y), Tok(eof)]
    requires x.kind in {INTERGER, IDENT} && y.kind in {INTERGER, IDENT} && eof.kind == EOF
    ensures Parse(items) == Success(Operand(x))
  {
    assert Terminated(items);
    OperandClimbs(items, 0, AdditionLevel);
    ParseOfTree(items, Operand(x), 1);
  }
}
