/** C# `int` arithmetic as both interpreters perform it: the default unchecked context, so
    `+ - *` and negation wrap around modulo 2^32, `/` and `%` truncate toward zero, a zero
    divisor raises DivideByZeroException and `int.MinValue / -1` (and `% -1`) raises
    OverflowException, as the .NET runtime does on its supported platforms. */
module Int32 {
  import opened Wrappers

  const MIN: int := -0x8000_0000
  const MAX: int := 0x7FFF_FFFF
  const MODULUS: int := 0x1_0000_0000

  newtype int32 = x: int | -0x8000_0000 <= x < 0x8000_0000

  datatype ArithError = DivideByZero | Overflow

  /** Two's-complement reduction: the unique int32 congruent to `x` modulo 2^32. */
  function Wrap(x: int): (r: int32)
    ensures (r as int - x) % MODULUS == 0
    ensures MIN <= x <= MAX ==> r as int == x
  {
    var m := (x - MIN) % MODULUS;
    assert (m - (x - MIN)) % MODULUS == 0;
    (m + MIN) as int32
  }

  function Add(a: int32, b: int32): int32 { Wrap(a as int + b as int) }
  function Sub(a: int32, b: int32): int32 { Wrap(a as int - b as int) }
  function Mul(a: int32, b: int32): int32 { Wrap(a as int * b as int) }
  function Neg(a: int32): int32 { Wrap(-(a as int)) }

  function Abs(x: int): nat { if x < 0 then -x else x }

  /** The quotient rounded toward zero, as C# computes it. */
  function TruncQuot(a: int, b: int): int
    requires b != 0
  {
    if a >= 0 && b > 0 then a / b
    else if a >= 0 then -(a / -b)
    else if b > 0 then -((-a) / b)
    else (-a) / (-b)
  }

  /** The remainder that goes with `TruncQuot`: it takes the sign of the dividend. */
  function TruncRem(a: int, b: int): int
    requires b != 0
  {
    if a >= 0 then a % Abs(b) else -((-a) % Abs(b))
  }

  /** `TruncQuot` and `TruncRem` are C#'s division: they recombine into the dividend, the
      remainder is smaller than the divisor and never has the opposite sign of the dividend. */
  lemma TruncDivision(a: int, b: int)
    requires b != 0
    ensures a == b * TruncQuot(a, b) + TruncRem(a, b)
    ensures Abs(TruncRem(a, b)) < Abs(b)
    ensures a >= 0 ==> TruncRem(a, b) >= 0
    ensures a < 0 ==> TruncRem(a, b) <= 0
    ensures Abs(TruncQuot(a, b)) == Abs(a) / Abs(b)
  {
    var x: int, d: int := Abs(a), Abs(b);
    EuclidNat(x, d);
    if a >= 0 && b > 0 {
    } else if a >= 0 {
      MulSigns(d, x / d);
    } else if b > 0 {
      MulSigns(d, x / d);
    } else {
      MulSigns(d, x / d);
    }
  }

  lemma EuclidNat(x: int, d: int)
    requires x >= 0 && d > 0
    ensures x == d * (x / d) + x % d && 0 <= x % d < d && x / d >= 0
  {
  }

  lemma MulSigns(x: int, y: int)
    ensures (-x) * (-y) == x * y
    ensures x * (-y) == -(x * y)
    ensures (-x) * y == -(x * y)
  {
  }

  lemma DivBound(x: nat, d: nat)
    requires d >= 1
    ensures x / d <= x
    ensures d == 1 ==> x / d == x
    ensures d >= 2 ==> x / d < 0x8000_0000 || x >= 0x1_0000_0000
  {
    assert x == d * (x / d) + x % d;
    if d >= 2 {
      assert d * (x / d) >= 2 * (x / d);
    }
  }

  /** C# `a / b` on two ints. */
  function Div(a: int32, b: int32): (r: Result<int32, ArithError>)
    ensures b == 0 <==> r == Failure(DivideByZero)
    ensures r == Failure(Overflow) <==> (a as int == MIN && b == -1)
    ensures r.Success? ==> r.value as int == TruncQuot(a as int, b as int)
  {
    if b == 0 then Failure(DivideByZero)
    else if a as int == MIN && b == -1 then Failure(Overflow)
    else
      var q := TruncQuot(a as int, b as int);
      assert MIN <= q <= MAX by {
        TruncDivision(a as int, b as int);
        DivBound(Abs(a as int), Abs(b as int));
      }
      Success(q as int32)
  }

  /** C# `a % b` on two ints. */
  function Rem(a: int32, b: int32): (r: Result<int32, ArithError>)
    ensures b == 0 <==> r == Failure(DivideByZero)
    ensures r == Failure(Overflow) <==> (a as int == MIN && b == -1)
    ensures r.Success? ==> r.value as int == TruncRem(a as int, b as int)
  {
    if b == 0 then Failure(DivideByZero)
    else if a as int == MIN && b == -1 then Failure(Overflow)
    else
      var r := TruncRem(a as int, b as int);
      assert MIN <= r <= MAX by {
        TruncDivision(a as int, b as int);
      }
      Success(r as int32)
  }

  /** Division and remainder always recombine into the dividend. */
  lemma DivRemRecombine(a: int32, b: int32)
    requires Div(a, b).Success?
    ensures Rem(a, b).Success?
    ensures a as int == b as int * Div(a, b).value as int + Rem(a, b).value as int
  {
    TruncDivision(a as int, b as int);
  }

  /** Wrapping arithmetic is addition modulo 2^32: it agrees with exact arithmetic whenever
      the exact result fits, and wraps `MAX + 1` to `MIN`. */
  lemma AddWraps(a: int32, b: int32)
    ensures MIN <= a as int + b as int <= MAX ==> Add(a, b) as int == a as int + b as int
    ensures a as int == MAX && b == 1 ==> Add(a, b) as int == MIN
  {
  }

  /** Negating `MIN` gives `MIN` back (unchecked). */
  lemma NegMin()
    ensures Neg(MIN as int32) as int == MIN
  {
  }
}
