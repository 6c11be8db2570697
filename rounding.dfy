/**
 * Python's `round(x, 1)`: to one decimal place, a tie going to the even
 * neighbour. Taken on exact reals, not on binary floating point.
 */
module Rounding {

  /** The integer nearest to `y`; of two equally near, the even one. */
  function RoundHalfEven(y: real): (n: int)
    ensures y - 0.5 <= n as real <= y + 0.5
    ensures y.Floor <= n <= y.Floor + 1
    ensures n as real - y == 0.5 ==> n % 2 == 0
    ensures y - n as real == 0.5 ==> n % 2 == 0
  {
    var f := y.Floor;
    var frac := y - f as real;
    if frac > 0.5 then f + 1
    else if frac < 0.5 then f
    else if f % 2 == 0 then f
    else f + 1
  }

  /** `round(x, 1)`. */
  function Round1(x: real): real {
    RoundHalfEven(x * 10.0) as real / 10.0
  }

  /** Rounding moves a value by at most half a tenth. */
  lemma Round1Close(x: real)
    ensures x - 0.05 <= Round1(x) <= x + 0.05
  {
    var n := RoundHalfEven(x * 10.0);
    assert x * 10.0 - 0.5 <= n as real <= x * 10.0 + 0.5;
  }

  lemma RoundHalfEvenMonotone(y: real, z: real)
    requires y <= z
    ensures RoundHalfEven(y) <= RoundHalfEven(z)
  {
    var fy, fz := y.Floor, z.Floor;
    if fy == fz {
      assert y - fy as real <= z - fz as real;
    }
  }

  /** Rounding keeps order. */
  lemma Round1Monotone(x: real, y: real)
    requires x <= y
    ensures Round1(x) <= Round1(y)
  {
    RoundHalfEvenMonotone(x * 10.0, y * 10.0);
  }

  /** A value with one decimal place is its own rounding. */
  lemma Round1Tenths(k: int)
    ensures Round1(k as real / 10.0) == k as real / 10.0
  {
    assert (k as real / 10.0) * 10.0 == k as real;
    assert (k as real).Floor == k;
  }

  /** Rounding twice is rounding once. */
  lemma Round1Idempotent(x: real)
    ensures Round1(Round1(x)) == Round1(x)
  {
    Round1Tenths(RoundHalfEven(x * 10.0));
  }

  /** A value between two one-decimal bounds rounds to a value between them. */
  lemma Round1Between(x: real, lo: int, hi: int)
    requires lo as real / 10.0 <= x <= hi as real / 10.0
    ensures lo as real / 10.0 <= Round1(x) <= hi as real / 10.0
  {
    Round1Monotone(lo as real / 10.0, x);
    Round1Monotone(x, hi as real / 10.0);
    Round1Tenths(lo);
    Round1Tenths(hi);
  }

  /** A one-decimal upper bound survives rounding. */
  lemma Round1KeepsUpperBound(x: real, k: int)
    ensures x <= k as real / 10.0 ==> Round1(x) <= k as real / 10.0
  {
    if x <= k as real / 10.0 {
      Round1Monotone(x, k as real / 10.0);
      Round1Tenths(k);
    }
  }

  /** A percentage stays a percentage once rounded. */
  lemma Round1Percentage(x: real)
    requires 0.0 <= x <= 100.0
    ensures 0.0 <= Round1(x) <= 100.0
  {
    Round1Between(x, 0, 1000);
  }
}
