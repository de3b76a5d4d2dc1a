/** `np.rint`: round to the nearest integer, ties to the even integer
    (the IEEE 754 default rounding mode), over exact reals; and Python's
    `int()` on a float, which truncates toward zero. */
module Rounding {

  /** The fractional part of `x` is exactly one half. */
  predicate IsHalf(x: real) {
    x - x.Floor as real == 1.0 / 2.0
  }

  /** Independent statement of round-half-to-even: `n` is within one half of
      `x`, and a tie goes to the even neighbour. */
  predicate RoundsHalfEven(x: real, n: int) {
    var e := x - n as real;
    (-1.0 / 2.0 < e < 1.0 / 2.0) || ((e == 1.0 / 2.0 || e == -1.0 / 2.0) && n % 2 == 0)
  }

  /** `np.rint(x)`, computed from the floor and the fractional part. */
  function Rint(x: real): (n: int)
    ensures -1.0 / 2.0 <= x - n as real <= 1.0 / 2.0
  {
    var f := x.Floor;
    var d := x - f as real;
    if d < 1.0 / 2.0 then f
    else if d > 1.0 / 2.0 then f + 1
    else if f % 2 == 0 then f
    else f + 1
  }

  /** `Rint` is exactly round-half-to-even: it satisfies the definition, and
      it is the only integer that does. */
  lemma RintIsHalfEven(x: real, n: int)
    ensures RoundsHalfEven(x, n) <==> n == Rint(x)
  {
  }

  /** Rounding is monotone. */
  lemma RintMonotone(a: real, b: real)
    requires a <= b
    ensures Rint(a) <= Rint(b)
  {
    var fa, fb := a.Floor, b.Floor;
    if fa < fb {
      assert Rint(a) <= fa + 1 <= fb <= Rint(b);
    }
  }

  /** Shifting by an integer `k` shifts the rounded value by `k`, except when
      `x` is a tie and `k` is odd: then the tie-break flips to the other side,
      up by one when `x.Floor` is even and down by one when it is odd. */
  lemma RintShift(x: real, k: int)
    ensures IsHalf(x + k as real) <==> IsHalf(x)
    ensures !IsHalf(x) || k % 2 == 0 ==> Rint(x + k as real) == Rint(x) + k
    ensures IsHalf(x) && k % 2 != 0 && x.Floor % 2 == 0 ==> Rint(x + k as real) == Rint(x) + k + 1
    ensures IsHalf(x) && k % 2 != 0 && x.Floor % 2 != 0 ==> Rint(x + k as real) == Rint(x) + k - 1
  {
    var y := x + k as real;
    assert y.Floor == x.Floor + k by {
      assert (x.Floor + k) as real <= y < (x.Floor + k) as real + 1.0;
    }
    assert y - y.Floor as real == x - x.Floor as real;
    if k % 2 != 0 {
      assert (x.Floor + k) % 2 == 0 <==> x.Floor % 2 != 0;
    } else {
      assert (x.Floor + k) % 2 == 0 <==> x.Floor % 2 == 0;
    }
  }

  /** Python `int(x)` on a float: truncation toward zero. */
  function Trunc(x: real): (t: int)
    ensures 0.0 <= x ==> 0 <= t && t as real <= x < t as real + 1.0
    ensures x < 0.0 ==> t <= 0 && t as real - 1.0 < x <= t as real
  {
    if x >= 0.0 then x.Floor else -((-x).Floor)
  }

  /** `int()` leaves an integral value unchanged. */
  lemma TruncIntegral(n: int)
    ensures Trunc(n as real) == n
  {
  }
}
