/** Python's built-in round(x, ndigits), stated on exact real numbers.
    Python 3 rounds to the nearest multiple of 10^-ndigits and breaks ties
    towards the even neighbour ("banker's rounding"). The core only ever
    rounds to one or two decimals: Round1 and Round2. */
module Rounding {

  function Abs(x: real): real { if x < 0.0 then -x else x }

  /** round(y): the nearest integer, the even one on a tie. */
  function RoundHalfEven(y: real): (k: int)
    ensures y - 0.5 <= k as real <= y + 0.5
    ensures (k as real - y == 0.5 || y - k as real == 0.5) ==> k % 2 == 0
  {
    var f := y.Floor;
    var frac := y - f as real;
    if frac < 0.5 then f
    else if frac > 0.5 then f + 1
    else if f % 2 == 0 then f
    else f + 1
  }

  /** Rounding to the nearest multiple of 1/scale, ties to even. */
  function RoundToScale(x: real, scale: real): (r: real)
    requires scale >= 1.0
    ensures Abs(r - x) <= 0.5 / scale
    ensures x >= 0.0 ==> r >= 0.0
    ensures x <= 0.0 ==> r <= 0.0
  {
    ScaledError(x, scale);
    RoundHalfEven(x * scale) as real / scale
  }

  /** round(x, 1). */
  function Round1(x: real): (r: real)
    ensures Abs(r - x) <= 0.05
    ensures x >= 0.0 ==> r >= 0.0
    ensures x <= 0.0 ==> r <= 0.0
  {
    RoundToScale(x, 10.0)
  }

  /** round(x, 2). */
  function Round2(x: real): (r: real)
    ensures Abs(r - x) <= 0.005
    ensures x >= 0.0 ==> r >= 0.0
    ensures x <= 0.0 ==> r <= 0.0
  {
    RoundToScale(x, 100.0)
  }

  lemma ScaledError(x: real, scale: real)
    requires scale >= 1.0
    ensures Abs(RoundHalfEven(x * scale) as real / scale - x) <= 0.5 / scale
  {
    var k := RoundHalfEven(x * scale);
    DivBound(k as real - x * scale, scale);
    assert k as real / scale - x == (k as real - x * scale) / scale;
  }

  /** Dividing a difference of at most one half by a positive scale. */
  lemma DivBound(d: real, s: real)
    requires s >= 1.0 && -0.5 <= d <= 0.5
    ensures -0.5 / s <= d / s <= 0.5 / s
  {
  }

  lemma ScaleMonotone(a: real, b: real, s: real)
    requires a <= b && s > 0.0
    ensures a * s <= b * s && a / s <= b / s
  {
  }

  lemma MulMonotone(a: real, b: real, s: real)
    requires a <= b && s >= 0.0
    ensures s * a <= s * b && a * s <= b * s
  {
  }

  lemma ProductQuotientMonotone(a: real, b: real, x: real, s: real)
    requires a <= b && x >= 0.0 && s > 0.0
    ensures a * x / s <= b * x / s
  {
    MulMonotone(a, b, x);
    ScaleMonotone(a * x, b * x, s);
  }

  lemma NonNegativeProduct(a: real, b: real)
    ensures a >= 0.0 && b >= 0.0 ==> a * b >= 0.0
  {
    if a >= 0.0 && b >= 0.0 {
      MulMonotone(0.0, b, a);
    }
  }

  /** A product of positive factors is strictly smaller when one factor is strictly
      smaller and the other no larger. */
  lemma ProductBelow(a: real, b: real, c: real, d: real)
    requires 0.0 < a < b && 0.0 < c <= d
    ensures 0.0 < a * c < b * d
  {
    MulMonotone(c, d, b);
    assert (b - a) * c > 0.0;
  }

  lemma DivMulCancel(k: real, s: real)
    requires s > 0.0
    ensures k / s * s == k
  {
  }

  lemma DivAtMostIff(a: real, b: real, s: real)
    requires s > 0.0
    ensures a / s <= b / s <==> a <= b
  {
    if a / s <= b / s {
      ScaleMonotone(a / s, b / s, s);
      DivMulCancel(a, s);
      DivMulCancel(b, s);
    }
  }

  lemma {:induction false} RoundHalfEvenMonotone(a: real, b: real)
    requires a <= b
    ensures RoundHalfEven(a) <= RoundHalfEven(b)
  {
    var fa, fb := a.Floor, b.Floor;
    if fa < fb {
      // RoundHalfEven(a) <= fa + 1 <= fb <= RoundHalfEven(b)
      assert RoundHalfEven(a) <= fa + 1;
      assert fb <= RoundHalfEven(b);
    } else {
      assert fa == fb;
    }
  }

  lemma RoundToScaleIs(x: real, s: real)
    requires s >= 1.0
    ensures RoundToScale(x, s) == RoundHalfEven(x * s) as real / s
  {
  }

  /** Rounding never turns a smaller value into a larger one. */
  lemma RoundToScaleMonotone(x: real, y: real, s: real)
    requires x <= y && s >= 1.0
    ensures RoundToScale(x, s) <= RoundToScale(y, s)
  {
    ScaleMonotone(x, y, s);
    RoundHalfEvenMonotone(x * s, y * s);
    ScaleMonotone(RoundHalfEven(x * s) as real, RoundHalfEven(y * s) as real, s);
    RoundToScaleIs(x, s);
    RoundToScaleIs(y, s);
  }

  /** A figure no larger than one that rounds within a limit also rounds within it. */
  lemma RoundWithinLimitMonotone(x: real, y: real, s: real, limit: real)
    requires s >= 1.0 && x <= y && RoundToScale(y, s) <= limit
    ensures RoundToScale(x, s) <= limit
  {
    RoundToScaleMonotone(x, y, s);
  }

  /** A value that is already a multiple of 1/scale is left unchanged. */
  lemma RoundToScaleExact(k: int, s: real)
    requires s >= 1.0
    ensures RoundToScale(k as real / s, s) == k as real / s
  {
    var x := k as real / s;
    DivMulCancel(k as real, s);
    assert x * s == k as real;
    assert (k as real).Floor == k;
    RoundToScaleIs(x, s);
  }

  /** An integer K is an upper bound of round(y) exactly when y lies below K + 1/2,
      or on that tie when K is even. */
  lemma RoundHalfEvenAtMost(y: real, bound: int)
    ensures RoundHalfEven(y) <= bound <==> (y < bound as real + 0.5 || (y == bound as real + 0.5 && bound % 2 == 0))
  {
    if y == bound as real + 0.5 {
      assert y.Floor == bound;
    }
  }

  /** Comparing a rounded figure with a limit L whose scaled value L * scale is an
      even integer: the comparison passes exactly when the figure exceeds L by at most
      half a unit of the last kept digit. */
  lemma {:induction false} RoundToScaleAtMost(x: real, s: real, limit: real, scaled: int)
    requires s >= 1.0 && limit * s == scaled as real && scaled % 2 == 0
    ensures RoundToScale(x, s) <= limit <==> x <= limit + 0.5 / s
  {
    var y := x * s;
    var k := RoundHalfEven(y);
    RoundHalfEvenAtMost(y, scaled);
    assert k <= scaled <==> y <= scaled as real + 0.5;
    RoundedAtMost(x, s, limit, scaled);
    assert x <= limit + 0.5 / s <==> y <= scaled as real + 0.5 by {
      assert limit + 0.5 / s == (scaled as real + 0.5) / s;
      ScaledAtMost(x, scaled as real + 0.5, s);
    }
  }

  lemma RoundedAtMost(x: real, s: real, limit: real, scaled: int)
    requires s >= 1.0 && limit * s == scaled as real
    ensures RoundToScale(x, s) <= limit <==> RoundHalfEven(x * s) <= scaled
  {
    RoundToScaleIs(x, s);
    DivMulCancel(limit, s);
    assert limit == scaled as real / s;
    DivAtMostIff(RoundHalfEven(x * s) as real, scaled as real, s);
  }

  lemma ScaledAtMost(a: real, b: real, s: real)
    requires s > 0.0
    ensures a <= b / s <==> a * s <= b
  {
    DivMulCancel(a * s, s);
    assert a * s / s == a;
    DivAtMostIff(a * s, b, s);
  }
}
