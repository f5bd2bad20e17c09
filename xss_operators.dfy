/** The operator semantics of the XSS interpreter (XSS/Visitor/Interpreter.cs): resolving an
    identifier against the current scope, the helpers inside `Evaluate` (`IntegerOperation`,
    `IntComparison`, `CharComparison`, `StringComparison`, `BoolOperation`, `BoolComparison`,
    `StringOperation`, `Comparison`, `TypeTesting`), the kind-directed tables of
    `EvaluateBinaryOperation` and `EvaluateUnaryOperation`, and `Truthify`. Every float
    computation is `FloatNotModelled`. */
module XssOperators {
  import opened Wrappers
  import opened Int32
  import opened Tokens
  import opened XssOperand
  import opened XssValues
  import opened XssScope

  /** What an operator does to the evaluation stack: push one value, or nothing. */
  datatype Effect = Push(value: StackValue) | NoPush

  function IntV(i: int32): StackValue { StackValue(Integer, BInt(i)) }
  function BoolV(b: bool): StackValue { StackValue(Bool, BBool(b)) }
  function CharV(c: char): StackValue { StackValue(Char, BChar(c)) }
  function StrV(s: string): StackValue { StackValue(String, BString(s)) }
  function TypeV(t: ValType): StackValue { StackValue(Type, BValType(t)) }

  predicate IsArithmetic(op: TokenKind) { op in {PLUS, MINUS, MULTIPLY, DIVIDE, MODULO} }

  predicate IsComparison(op: TokenKind)
  {
    op in {EQUAL, NOTEQUAL, LARGER, LARGEREQUAL, LESSER, LESSEREQUAL}
  }

  /** `ResolveStackValue`: an identifier must be bound in the current scope itself, and its
      value is classified by its run-time type; any other value is already resolved. */
  function Resolve(frames: Frames, sv: StackValue): (r: Result<StackValue, RuntimeError>)
    requires |frames| > 0
    ensures sv.kind != Identifier ==> r == Success(sv)
    ensures r.Success? ==> r.value.kind != Identifier
    ensures r.Success? && sv.kind != ValType.FunctionCall ==> r.value.kind != ValType.FunctionCall
    ensures sv.kind == Identifier && sv.value.BString? && sv.value.s !in frames[0] ==>
              r == Failure(NotDefined(sv.value.s))
  {
    if sv.kind != Identifier then Success(sv)
    else match sv.value
      case BNull => Failure(ArgumentNull)
      case BString(name) =>
        if !BoundLocally(frames, name) then Failure(NotDefined(name))
        else Classify(Lookup(frames, name))
      case _ => Failure(InvalidCast)
  }

  /** A name bound in the current scope resolves to its own value, whatever the outer scopes
      hold; a name bound only in an outer scope cannot be read. */
  lemma ResolveIsLocal(frames: Frames, name: string)
    requires |frames| > 0
    ensures name in frames[0] ==>
              Resolve(frames, StackValue(Identifier, BString(name))) == Classify(frames[0][name])
    ensures name !in frames[0] ==>
              Resolve(frames, StackValue(Identifier, BString(name))) == Failure(NotDefined(name))
  {
    if name in frames[0] {
      assert NearestAt(frames, name, 0);
    }
  }

  /** `(int)value`. */
  function UnboxInt(b: Boxed): (r: Result<int32, RuntimeError>)
    ensures r.Success? <==> b.BInt?
  {
    match b
    case BInt(i) => Success(i)
    case BNull => Failure(NullReference)
    case _ => Failure(InvalidCast)
  }

  /** `(bool)value`. */
  function UnboxBool(b: Boxed): (r: Result<bool, RuntimeError>)
    ensures r.Success? <==> b.BBool?
  {
    match b
    case BBool(v) => Success(v)
    case BNull => Failure(NullReference)
    case _ => Failure(InvalidCast)
  }

  /** `(char)value`. */
  function UnboxChar(b: Boxed): (r: Result<char, RuntimeError>)
    ensures r.Success? <==> b.BChar?
  {
    match b
    case BChar(c) => Success(c)
    case BNull => Failure(NullReference)
    case _ => Failure(InvalidCast)
  }

  /** `(string)value`: a null reference casts to a null string. */
  function UnboxString(b: Boxed): (r: Result<Option<string>, RuntimeError>)
    ensures r.Success? <==> b.BString? || b.BNull?
  {
    match b
    case BString(s) => Success(Some(s))
    case BNull => Success(None)
    case _ => Failure(InvalidCast)
  }

  /** The float helpers unbox a float, or an int as a float, and then compute in floating point. */
  function FloatOperation(v1: StackValue, v2: StackValue): (r: Result<Effect, RuntimeError>)
    ensures r.Failure?
  {
    if !(v1.value.BFloat? || v1.value.BInt?) then Failure(if v1.value.BNull? then NullReference else InvalidCast)
    else if !(v2.value.BFloat? || v2.value.BInt?) then Failure(if v2.value.BNull? then NullReference else InvalidCast)
    else Failure(FloatNotModelled)
  }

  /** `IntegerOperation`: C# `int` arithmetic, wrapping around; `/` and `%` truncate toward zero,
      raise on a zero divisor and overflow on `int.MinValue` and -1. */
  function IntegerOperation(v1: StackValue, v2: StackValue, op: TokenKind): (r: Result<int32, RuntimeError>)
  {
    var i1 :- UnboxInt(v1.value);
    var i2 :- UnboxInt(v2.value);
    match op
    case PLUS => Success(Add(i1, i2))
    case MINUS => Success(Sub(i1, i2))
    case MULTIPLY => Success(Mul(i1, i2))
    case DIVIDE => (match Div(i1, i2) case Success(q) => Success(q) case Failure(e) => Failure(FromArith(e)))
    case MODULO => (match Rem(i1, i2) case Success(q) => Success(q) case Failure(e) => Failure(FromArith(e)))
    case _ => Success(0)
  }

  /** The six comparisons over numbers; any other operator gives `other`. */
  function CompareBy(x: int, y: int, op: TokenKind, other: bool): bool
  {
    match op
    case EQUAL => x == y
    case NOTEQUAL => x != y
    case LARGER => x > y
    case LARGEREQUAL => x >= y
    case LESSER => x < y
    case LESSEREQUAL => x <= y
    case _ => other
  }

  /** `IntComparison`. */
  function IntComparison(v1: StackValue, v2: StackValue, op: TokenKind): (r: Result<bool, RuntimeError>)
  {
    var i1 :- UnboxInt(v1.value);
    var i2 :- UnboxInt(v2.value);
    Success(CompareBy(i1 as int, i2 as int, op, false))
  }

  /** `CharComparison`: by code point. */
  function CharComparison(v1: StackValue, v2: StackValue, op: TokenKind): (r: Result<bool, RuntimeError>)
  {
    var c1 :- UnboxChar(v1.value);
    var c2 :- UnboxChar(v2.value);
    Success(CompareBy(c1 as int, c2 as int, op, false))
  }

  /** The ordinal order of strings: the first differing character decides, and a proper prefix
      comes first. */
  function OrdinalCompare(a: string, b: string): (c: int)
    ensures c in {-1, 0, 1}
    ensures c == 0 <==> a == b
  {
    if a == [] then (if b == [] then 0 else -1)
    else if b == [] then 1
    else if a[0] < b[0] then -1
    else if a[0] > b[0] then 1
    else
      var c := OrdinalCompare(a[1..], b[1..]);
      assert a == [a[0]] + a[1..] && b == [b[0]] + b[1..];
      c
  }

  /** The ordinal order is antisymmetric. */
  lemma {:induction false} OrdinalCompareAntisymmetric(a: string, b: string)
    ensures OrdinalCompare(a, b) == -OrdinalCompare(b, a)
  {
    if a != [] && b != [] && a[0] == b[0] {
      OrdinalCompareAntisymmetric(a[1..], b[1..]);
    }
  }

  /** `StringComparison`: exact equality for `==` and `!=`, `CompareTo` for the order (taken as
      the ordinal order); a null left string raises, and every string is after null. */
  function StringComparison(v1: StackValue, v2: StackValue, op: TokenKind): (r: Result<bool, RuntimeError>)
  {
    var s1 :- UnboxString(v1.value);
    var s2 :- UnboxString(v2.value);
    if s1.None? then Failure(NullReference)
    else
      var cmp := if s2.None? then 1 else OrdinalCompare(s1.value, s2.value);
      match op
      case EQUAL => Success(s2 == s1)
      case NOTEQUAL => Success(s2 != s1)
      case _ => Success(CompareBy(cmp, 0, op, false))
  }

  /** `BoolOperation` for `and`, `or` and `xor`; both operands are already evaluated. */
  function BoolOperation(v1: StackValue, v2: StackValue, op: TokenKind): (r: Result<bool, RuntimeError>)
  {
    var b1 :- UnboxBool(v1.value);
    var b2 :- if op == NOT then Success(true) else UnboxBool(v2.value);
    match op
    case AND => Success(b1 && b2)
    case OR => Success(b1 || b2)
    case XOR => Success(b1 != b2)
    case NOT => Success(!b1)
    case _ => Success(false)
  }

  /** `BoolComparison`. */
  function BoolComparison(v1: StackValue, v2: StackValue, op: TokenKind): (r: Result<bool, RuntimeError>)
  {
    var b1 :- UnboxBool(v1.value);
    var b2 :- UnboxBool(v2.value);
    match op
    case EQUAL => Success(b1 == b2)
    case NOTEQUAL => Success(b1 != b2)
    case _ => Success(false)
  }

  /** `StringOperation` for `+`: the two objects' texts, concatenated. */
  function StringOperation(v1: StackValue, v2: StackValue): (r: Result<string, RuntimeError>)
  {
    var s1 :- BoxedToString(v1.value);
    var s2 :- BoxedToString(v2.value);
    Success(s1 + s2)
  }

  /** `TypeTesting`: the right operand is unboxed as a `ValType` first; `==` and `!=` compare two
      type tags (a left operand that is no tag gives false), and `is` compares the left
      operand's kind with the tag. */
  function TypeTesting(v1: StackValue, v2: StackValue, op: TokenKind): (r: Result<bool, RuntimeError>)
  {
    var t :- UnboxEnum(v2.value);
    match op
    case EQUAL | NOTEQUAL =>
      if v1.kind != Type then Success(false)
      else
        var t2 :- UnboxEnum(v1.value);
        Success(if op == EQUAL then t == t2 else t != t2)
    case IS => Success(ValOrdinal(v1.kind) == t)
    case _ => Success(false)
  }

  /** `Comparison`, used for the mixed-kind comparisons: an int with a char compares the int
      with the code point; a char with an int unboxes the int as a char, which raises; the
      float pairings are not modelled; other pairings are undefined behaviour. */
  function Comparison(v1: StackValue, v2: StackValue, op: TokenKind): (r: Result<bool, RuntimeError>)
  {
    match v1.kind
    case Integer =>
      var i1 :- UnboxInt(v1.value);
      if v2.kind == Float then Failure(FloatNotModelled)
      else if v2.kind == Char then
        var c2 :- UnboxChar(v2.value);
        Success(CompareBy(i1 as int, c2 as int, op, true))
      else Failure(Undefined)
    case Float =>
      if !v1.value.BFloat? then Failure(if v1.value.BNull? then NullReference else InvalidCast)
      else if v2.kind == Integer then Failure(FloatNotModelled)
      else Failure(Undefined)
    case Char =>
      var c1 :- UnboxChar(v1.value);
      if v2.kind == Integer then
        var c2 :- UnboxChar(v2.value);
        Success(CompareBy(c1 as int, c2 as int, op, true))
      else Failure(Undefined)
    case Bool => Failure(Undefined)
    case String => Failure(Undefined)
    case Null => Failure(Undefined)
    case _ => Success(true)
  }

  function PushBool(r: Result<bool, RuntimeError>): Result<Effect, RuntimeError>
  {
    match r
    case Success(b) => Success(Push(BoolV(b)))
    case Failure(e) => Failure(e)
  }

  function PushInt(r: Result<int32, RuntimeError>): Result<Effect, RuntimeError>
  {
    match r
    case Success(i) => Success(Push(IntV(i)))
    case Failure(e) => Failure(e)
  }

  function PushString(r: Result<string, RuntimeError>): Result<Effect, RuntimeError>
  {
    match r
    case Success(s) => Success(Push(StrV(s)))
    case Failure(e) => Failure(e)
  }

  /** The first half of `EvaluateBinaryOperation`: two resolved operands of the same kind. */
  function SameKind(v1: StackValue, v2: StackValue, op: TokenKind): Result<Effect, RuntimeError>
  {
    match v1.kind
    case Integer =>
      if IsArithmetic(op) then PushInt(IntegerOperation(v1, v2, op))
      else if op == EXPONENT then FloatOperation(v1, v2)
      else if IsComparison(op) then PushBool(IntComparison(v1, v2, op))
      else Failure(Undefined)
    case Float =>
      if op in {PLUS, MINUS, MULTIPLY, DIVIDE, EXPONENT} || IsComparison(op) then FloatOperation(v1, v2)
      else Failure(Undefined)
    case Bool =>
      if op in {AND, OR, XOR} then PushBool(BoolOperation(v1, v2, op))
      else if op in {EQUAL, NOTEQUAL} then PushBool(BoolComparison(v1, v2, op))
      else Failure(Undefined)
    case Char =>
      if op == PLUS then PushString(StringOperation(v1, v2))
      else if IsComparison(op) then PushBool(CharComparison(v1, v2, op))
      else Failure(Undefined)
    case String =>
      if op == PLUS then PushString(StringOperation(v1, v2))
      else if IsComparison(op) then PushBool(StringComparison(v1, v2, op))
      else Failure(Undefined)
    case Null => Failure(Undefined)
    case Type =>
      if op in {EQUAL, NOTEQUAL} then PushBool(TypeTesting(v1, v2, op)) else Failure(Undefined)
    case _ =>
      if op == IS then PushBool(TypeTesting(v1, v2, op)) else Failure(Undefined)
  }

  /** The second half of `EvaluateBinaryOperation`: two resolved operands of different kinds.
      An int with a float or a char, and a float with an int, have switches without a default,
      so an operator they do not list pushes nothing. */
  function MixedKind(v1: StackValue, v2: StackValue, op: TokenKind): Result<Effect, RuntimeError>
  {
    match v1.kind
    case Integer =>
      if v2.kind == Float then
        if op in {PLUS, MINUS, MULTIPLY, DIVIDE, EXPONENT} then FloatOperation(v1, v2)
        else if IsComparison(op) then PushBool(Comparison(v1, v2, op))
        else Success(NoPush)
      else if v2.kind == Char then
        if op in {PLUS, MINUS, MULTIPLY, DIVIDE} then PushInt(IntegerOperation(v1, v2, op))
        else if op == EXPONENT then FloatOperation(v1, v2)
        else if IsComparison(op) then PushBool(Comparison(v1, v2, op))
        else Success(NoPush)
      else if op == IS then PushBool(TypeTesting(v1, v2, op))
      else Failure(Undefined)
    case Float =>
      if v2.kind == Integer then
        if op in {PLUS, MINUS, MULTIPLY, DIVIDE, EXPONENT} then FloatOperation(v1, v2)
        else if IsComparison(op) then PushBool(Comparison(v1, v2, op))
        else Success(NoPush)
      else if op == IS then PushBool(TypeTesting(v1, v2, op))
      else Failure(Undefined)
    case Char =>
      if IsComparison(op) then PushBool(Comparison(v1, v2, op))
      else if op == IS then PushBool(TypeTesting(v1, v2, op))
      else Failure(Undefined)
    case Bool =>
      if op == IS then PushBool(TypeTesting(v1, v2, op)) else Failure(Undefined)
    case String =>
      if op == PLUS then PushString(StringOperation(v1, v2))
      else if op == IS then PushBool(TypeTesting(v1, v2, op))
      else Failure(Undefined)
    case _ =>
      if op == IS then PushBool(TypeTesting(v1, v2, op)) else Failure(Undefined)
  }

  /** `EvaluateBinaryOperation` on two resolved operands. */
  function Binary(v1: StackValue, v2: StackValue, op: TokenKind): (r: Result<Effect, RuntimeError>)
    ensures r.Success? && r.value.Push? ==> r.value.value.kind in {Integer, Bool, String}
  {
    if v1.kind == v2.kind then SameKind(v1, v2, op) else MixedKind(v1, v2, op)
  }

  /** `EvaluateBinaryOperation`: both operands are resolved first, left then right. */
  function EvaluateBinary(frames: Frames, o1: StackValue, o2: StackValue, op: TokenKind): (r: Result<Effect, RuntimeError>)
    requires |frames| > 0
    ensures o1.kind != Identifier && o2.kind != Identifier ==> r == Binary(o1, o2, op)
    ensures r.Success? && r.value.Push? ==> r.value.value.kind in {Integer, Bool, String}
  {
    var v1 :- Resolve(frames, o1);
    var v2 :- Resolve(frames, o2);
    Binary(v1, v2, op)
  }

  /** `EvaluateUnaryOperation` on a resolved operand: `-` negates an int (wrapping around) and
      rejects what is not a number; `not` negates a bool and ignores anything else; `typeof`
      gives the operand's kind as a type tag; any other operator does nothing. */
  function Unary(v: StackValue, op: TokenKind): (r: Result<Effect, RuntimeError>)
    ensures r.Success? && r.value.Push? ==> r.value.value.kind in {Integer, Bool, Type}
  {
    match op
    case MINUS =>
      if v.kind == Integer then
        var i :- UnboxInt(v.value);
        Success(Push(IntV(Neg(i))))
      else if v.kind == Float then Failure(FloatNotModelled)
      else Failure(Undefined)
    case NOT =>
      if v.kind == Bool then
        var b :- UnboxBool(v.value);
        Success(Push(BoolV(!b)))
      else Success(NoPush)
    case TYPEOF => Success(Push(TypeV(v.kind)))
    case _ => Success(NoPush)
  }

  /** `EvaluateUnaryOperation`: the operand is resolved first. */
  function EvaluateUnary(frames: Frames, o: StackValue, op: TokenKind): (r: Result<Effect, RuntimeError>)
    requires |frames| > 0
    ensures o.kind != Identifier ==> r == Unary(o, op)
    ensures r.Success? && r.value.Push? ==> r.value.value.kind in {Integer, Bool, Type}
  {
    var v :- Resolve(frames, o);
    Unary(v, op)
  }

  /** `Truthify`: null is false, a bool is itself, an identifier is the truth of its value, and
      every other value is true. */
  function Truthify(frames: Frames, v: StackValue): (r: Result<bool, RuntimeError>)
    requires |frames| > 0
    decreases if v.kind == Identifier then 1 else 0
  {
    match v.kind
    case Null => Success(false)
    case Bool => UnboxBool(v.value)
    case Identifier =>
      var w :- Resolve(frames, v);
      Truthify(frames, w)
    case _ => Success(true)
  }

  // ---- Properties of the tables ----

  /** Two ints under the arithmetic operators give the C# 32-bit results. */
  lemma IntegerArithmetic(a: int32, b: int32)
    ensures Binary(IntV(a), IntV(b), PLUS) == Success(Push(IntV(Add(a, b))))
    ensures Binary(IntV(a), IntV(b), MINUS) == Success(Push(IntV(Sub(a, b))))
    ensures Binary(IntV(a), IntV(b), MULTIPLY) == Success(Push(IntV(Mul(a, b))))
    ensures b == 0 ==> Binary(IntV(a), IntV(b), DIVIDE) == Failure(RuntimeError.DivideByZero)
    ensures b == 0 ==> Binary(IntV(a), IntV(b), MODULO) == Failure(RuntimeError.DivideByZero)
    ensures a as int == MIN && b == -1 ==> Binary(IntV(a), IntV(b), DIVIDE) == Failure(ArithmeticOverflow)
    ensures b != 0 && !(a as int == MIN && b == -1) ==>
              Div(a, b).Success? && Div(a, b).value as int == TruncQuot(a as int, b as int)
              && Binary(IntV(a), IntV(b), DIVIDE) == Success(Push(IntV(Div(a, b).value)))
    ensures b != 0 && !(a as int == MIN && b == -1) ==>
              Rem(a, b).Success? && Rem(a, b).value as int == TruncRem(a as int, b as int)
              && Binary(IntV(a), IntV(b), MODULO) == Success(Push(IntV(Rem(a, b).value)))
  {
  }

  /** Two ints under a comparison give the comparison of the numbers. */
  lemma IntegerComparison(a: int32, b: int32, op: TokenKind)
    requires IsComparison(op)
    ensures Binary(IntV(a), IntV(b), op) == Success(Push(BoolV(CompareBy(a as int, b as int, op, false))))
  {
    assert Binary(IntV(a), IntV(b), op) == PushBool(IntComparison(IntV(a), IntV(b), op));
  }

  /** Two ints under `==` and `!=` give whether they are equal. */
  lemma IntegerEquality(a: int32, b: int32)
    ensures Binary(IntV(a), IntV(b), EQUAL) == Success(Push(BoolV(a == b)))
    ensures Binary(IntV(a), IntV(b), NOTEQUAL) == Success(Push(BoolV(a != b)))
  {
    IntegerComparison(a, b, EQUAL);
    IntegerComparison(a, b, NOTEQUAL);
  }

  /** Two ints are ordered as numbers. */
  lemma IntegerOrder(a: int32, b: int32)
    ensures Binary(IntV(a), IntV(b), LARGER) == Success(Push(BoolV(a > b)))
    ensures Binary(IntV(a), IntV(b), LARGEREQUAL) == Success(Push(BoolV(a >= b)))
    ensures Binary(IntV(a), IntV(b), LESSER) == Success(Push(BoolV(a < b)))
    ensures Binary(IntV(a), IntV(b), LESSEREQUAL) == Success(Push(BoolV(a <= b)))
  {
    IntegerComparison(a, b, LARGER);
    IntegerComparison(a, b, LARGEREQUAL);
    IntegerComparison(a, b, LESSER);
    IntegerComparison(a, b, LESSEREQUAL);
  }

  /** Int operators outside the table are undefined behaviour. */
  lemma IntegerOtherOperators(a: int32, b: int32, op: TokenKind)
    requires !IsArithmetic(op) && !IsComparison(op) && op != EXPONENT
    ensures Binary(IntV(a), IntV(b), op) == Failure(Undefined)
  {
  }

  /** Two bools support exactly `and`, `or`, `xor`, `==` and `!=`, from both values. */
  lemma BoolTable(a: bool, b: bool, op: TokenKind)
    ensures op == AND ==> Binary(BoolV(a), BoolV(b), op) == Success(Push(BoolV(a && b)))
    ensures op == OR ==> Binary(BoolV(a), BoolV(b), op) == Success(Push(BoolV(a || b)))
    ensures op == XOR ==> Binary(BoolV(a), BoolV(b), op) == Success(Push(BoolV(a != b)))
    ensures op == EQUAL ==> Binary(BoolV(a), BoolV(b), op) == Success(Push(BoolV(a == b)))
    ensures op == NOTEQUAL ==> Binary(BoolV(a), BoolV(b), op) == Success(Push(BoolV(a != b)))
    ensures op !in {AND, OR, XOR, EQUAL, NOTEQUAL} ==> Binary(BoolV(a), BoolV(b), op) == Failure(Undefined)
  {
    assert Binary(BoolV(a), BoolV(b), op) == SameKind(BoolV(a), BoolV(b), op);
    if op in {AND, OR, XOR} {
      assert Binary(BoolV(a), BoolV(b), op) == PushBool(BoolOperation(BoolV(a), BoolV(b), op));
    } else if op in {EQUAL, NOTEQUAL} {
      assert Binary(BoolV(a), BoolV(b), op) == PushBool(BoolComparison(BoolV(a), BoolV(b), op));
    }
  }

  /** Two chars compare by code point. */
  lemma CharComparisons(a: char, b: char, op: TokenKind)
    ensures IsComparison(op) ==> Binary(CharV(a), CharV(b), op) == Success(Push(BoolV(CompareBy(a as int, b as int, op, false))))
    ensures Binary(CharV(a), CharV(b), LESSER) == Success(Push(BoolV(a < b)))
  {
    if IsComparison(op) {
      CharCompared(a, b, op);
    }
    CharCompared(a, b, LESSER);
  }

  /** Two chars under one comparison. */
  lemma CharCompared(a: char, b: char, op: TokenKind)
    requires IsComparison(op)
    ensures Binary(CharV(a), CharV(b), op) == Success(Push(BoolV(CompareBy(a as int, b as int, op, false))))
  {
    assert Binary(CharV(a), CharV(b), op) == PushBool(CharComparison(CharV(a), CharV(b), op));
  }

  /** Two chars: `+` makes a two-character string, and no operator but `+` and the
      comparisons is defined. */
  lemma CharOtherOperators(a: char, b: char, op: TokenKind)
    ensures Binary(CharV(a), CharV(b), PLUS) == Success(Push(StrV([a, b])))
    ensures op != PLUS && !IsComparison(op) ==> Binary(CharV(a), CharV(b), op) == Failure(Undefined)
  {
    assert [a] + [b] == [a, b];
  }

  /** Two strings: `+` concatenates. */
  lemma StringConcatenation(a: string, b: string)
    ensures Binary(StrV(a), StrV(b), PLUS) == Success(Push(StrV(a + b)))
  {
  }

  /** Two strings: `==` and `!=` are exact equality. */
  lemma StringEquality(a: string, b: string)
    ensures Binary(StrV(a), StrV(b), EQUAL) == Success(Push(BoolV(a == b)))
    ensures Binary(StrV(a), StrV(b), NOTEQUAL) == Success(Push(BoolV(a != b)))
  {
  }

  /** Two strings: the order is ordinal. */
  lemma StringOrder(a: string, b: string)
    ensures Binary(StrV(a), StrV(b), LESSER) == Success(Push(BoolV(OrdinalCompare(a, b) < 0)))
  {
  }

  /** Two strings: every operator but `+` and the comparisons is undefined behaviour. */
  lemma StringOtherOperators(a: string, b: string, op: TokenKind)
    ensures op != PLUS && !IsComparison(op) ==> Binary(StrV(a), StrV(b), op) == Failure(Undefined)
  {
  }

  /** Any operator on two nulls is undefined behaviour. */
  lemma NullTable(v1: StackValue, v2: StackValue, op: TokenKind)
    requires v1.kind == Null && v2.kind == Null
    ensures Binary(v1, v2, op) == Failure(Undefined)
  {
  }

  /** Two type tags: `==` and `!=` compare the tags. */
  lemma TypeTagEquality(s: ValType, t: ValType)
    ensures Binary(TypeV(s), TypeV(t), EQUAL) == Success(Push(BoolV(s == t)))
    ensures Binary(TypeV(s), TypeV(t), NOTEQUAL) == Success(Push(BoolV(s != t)))
  {
    OrdinalsDiffer(s, t);
    TagsCompared(s, t, EQUAL);
    TagsCompared(s, t, NOTEQUAL);
  }

  /** `==` and `!=` on two type tags compare their numbers. */
  lemma TagsCompared(s: ValType, t: ValType, op: TokenKind)
    requires op == EQUAL || op == NOTEQUAL
    ensures Binary(TypeV(s), TypeV(t), op)
            == Success(Push(BoolV(if op == EQUAL then ValOrdinal(t) == ValOrdinal(s) else ValOrdinal(t) != ValOrdinal(s))))
  {
    assert TypeTesting(TypeV(s), TypeV(t), op) == Success(if op == EQUAL then ValOrdinal(t) == ValOrdinal(s) else ValOrdinal(t) != ValOrdinal(s));
  }

  /** Two type tags support no other operator. */
  lemma TypeTagOtherOperators(s: ValType, t: ValType, op: TokenKind)
    ensures op !in {EQUAL, NOTEQUAL} ==> Binary(TypeV(s), TypeV(t), op) == Failure(Undefined)
  {
  }

  lemma OrdinalsDiffer(s: ValType, t: ValType)
    ensures ValOrdinal(s) == ValOrdinal(t) <==> s == t
  {
  }

  /** `v is T` for a value that is not itself a type tag gives whether its kind is T. */
  lemma IsTest(v: StackValue, t: ValType)
    requires v.kind != Type
    ensures Binary(v, TypeV(t), IS) == Success(Push(BoolV(v.kind == t)))
  {
    OrdinalsDiffer(v.kind, t);
  }

  /** Apart from an int with a float, a float with an int, an int with a char, a char with an
      int under a comparison, a string on the left of `+`, and `is`, every mixed pairing is
      undefined behaviour; in particular a string on the right of `+` with anything else on
      the left. */
  lemma MixedKindsAreUndefined(v1: StackValue, v2: StackValue, op: TokenKind)
    requires v1.kind != v2.kind && op != IS
    requires !(v1.kind in {Integer, Float} && v2.kind in {Integer, Float})
    requires !(v1.kind == Integer && v2.kind == Char)
    requires !(v1.kind == Char && v2.kind == Integer && IsComparison(op))
    requires !(v1.kind == String && op == PLUS)
    requires v1.kind == Char ==> v1.value.BChar?
    ensures Binary(v1, v2, op) == Failure(Undefined)
  {
  }

  /** A string on the left of `+` takes the other operand's text. */
  lemma StringLeftPlus(s: string, v2: StackValue)
    requires v2.kind != String && BoxedToString(v2.value).Success?
    ensures Binary(StrV(s), v2, PLUS) == Success(Push(StrV(s + BoxedToString(v2.value).value)))
  {
  }

  /** An int with a char: the comparisons use the code point; arithmetic unboxes the char as an
      int and raises; `%` is not listed and pushes nothing. */
  lemma IntegerWithChar(a: int32, c: char, op: TokenKind)
    ensures IsComparison(op) ==> Binary(IntV(a), CharV(c), op) == Success(Push(BoolV(CompareBy(a as int, c as int, op, true))))
    ensures op in {PLUS, MINUS, MULTIPLY, DIVIDE} ==> Binary(IntV(a), CharV(c), op) == Failure(InvalidCast)
    ensures Binary(IntV(a), CharV(c), MODULO) == Success(NoPush)
  {
  }

  /** A char with an int under a comparison unboxes the int as a char, which raises. */
  lemma CharWithInteger(c: char, a: int32, op: TokenKind)
    requires IsComparison(op)
    ensures Binary(CharV(c), IntV(a), op) == Failure(InvalidCast)
  {
  }

  /** The unary operators: `-` negates an int with wrap-around and rejects non-numbers; `not`
      negates a bool and does nothing to other kinds; `typeof` never fails and tags the kind. */
  lemma UnaryTable(v: StackValue, a: int32, b: bool)
    ensures Unary(IntV(a), MINUS) == Success(Push(IntV(Neg(a))))
    ensures v.kind !in {Integer, Float} ==> Unary(v, MINUS) == Failure(Undefined)
    ensures Unary(BoolV(b), NOT) == Success(Push(BoolV(!b)))
    ensures v.kind != Bool ==> Unary(v, NOT) == Success(NoPush)
    ensures Unary(v, TYPEOF) == Success(Push(TypeV(v.kind)))
  {
  }

  /** Only null and false are false: 0 and the empty string are true. */
  lemma TruthTable(frames: Frames, v: StackValue, b: bool)
    requires |frames| > 0
    ensures v.kind == Null ==> Truthify(frames, v) == Success(false)
    ensures Truthify(frames, BoolV(b)) == Success(b)
    ensures v.kind !in {Null, Bool, Identifier} ==> Truthify(frames, v) == Success(true)
    ensures Truthify(frames, IntV(0)) == Success(true) && Truthify(frames, StrV("")) == Success(true)
  {
  }

  /** An identifier is as true as the value it is bound to in the current scope. */
  lemma TruthOfIdentifier(frames: Frames, name: string)
    requires |frames| > 0 && name in frames[0] && Classify(frames[0][name]).Success?
    ensures Truthify(frames, StackValue(Identifier, BString(name))) == Truthify(frames, Classify(frames[0][name]).value)
  {
    ResolveIsLocal(frames, name);
  }
}
