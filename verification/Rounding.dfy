/** `round(x, 2)` on exact reals: half-to-even on the 0.01 grid. */
module Rounding {
  function RoundHalfEven(y: real): int {
    var below := y.Floor;
    var excess := y - below as real;
    if excess < 0.5 then below
    else if excess > 0.5 then below + 1
    else if below % 2 == 0 then below
    else below + 1
  }

  function Round2(x: real): real {
    RoundHalfEven(x * 100.0) as real / 100.0
  }

  /** A whole number of hundredths. */
  predicate OnGrid(x: real) {
    (x * 100.0).Floor as real == x * 100.0
  }

  lemma HundredthsOnGrid(k: int)
    ensures OnGrid(k as real / 100.0)
  {
    assert k as real / 100.0 * 100.0 == k as real;
  }

  lemma GridSum(x: real, y: real)
    requires OnGrid(x) && OnGrid(y)
    ensures OnGrid(x + y)
  {
    var k := (x * 100.0).Floor + (y * 100.0).Floor;
    assert (x + y) * 100.0 == k as real;
  }

  /** The rounded value is on the grid, and no grid point is closer to `x`. */
  lemma Round2Nearest(x: real, k: int)
    ensures OnGrid(Round2(x))
    ensures x - 0.005 <= Round2(x) <= x + 0.005
    ensures var g := k as real / 100.0; (if Round2(x) < x then x - Round2(x) else Round2(x) - x) <= (if g < x then x - g else g - x)
  {
    HundredthsOnGrid(RoundHalfEven(x * 100.0));
    var y, r := x * 100.0, RoundHalfEven(x * 100.0);
    assert y - 0.5 <= r as real <= y + 0.5;
    if k < r {
      assert k as real <= (r - 1) as real;
    } else if k > r {
      assert k as real >= (r + 1) as real;
    }
    assert Round2(x) == r as real / 100.0;
  }

  /** A value halfway between two hundredths goes to the even one. */
  lemma HalvesGoToEven(k: int)
    ensures Round2((2 * k) as real / 100.0 + 0.005) == (2 * k) as real / 100.0
    ensures Round2((2 * k + 1) as real / 100.0 + 0.005) == (2 * k + 2) as real / 100.0
  {
    var low, high := (2 * k) as real / 100.0 + 0.005, (2 * k + 1) as real / 100.0 + 0.005;
    assert low * 100.0 == (2 * k) as real + 0.5;
    assert high * 100.0 == (2 * k + 1) as real + 0.5;
    assert (low * 100.0).Floor == 2 * k && (high * 100.0).Floor == 2 * k + 1;
  }

  lemma Round2Monotone(x: real, y: real)
    requires x <= y
    ensures Round2(x) <= Round2(y)
  {
    var a, b := x * 100.0, y * 100.0;
    assert a <= b;
    assert a.Floor <= b.Floor;
    assert RoundHalfEven(a) <= RoundHalfEven(b);
  }

  /** Exactly the grid points are left alone by rounding. */
  lemma Round2Fixed(x: real)
    ensures Round2(x) == x <==> OnGrid(x)
  {
    if OnGrid(x) {
      assert RoundHalfEven(x * 100.0) == (x * 100.0).Floor;
      assert Round2(x) == x;
    } else if Round2(x) == x {
      HundredthsOnGrid(RoundHalfEven(x * 100.0));
      assert false;
    }
  }

  /** Rounding keeps a value between bounds that rounding leaves alone. */
  lemma Round2Between(lo: real, x: real, hi: real)
    requires lo <= x <= hi && OnGrid(lo) && OnGrid(hi)
    ensures lo <= Round2(x) <= hi
  {
    Round2Monotone(lo, x);
    Round2Monotone(x, hi);
    Round2Fixed(lo);
    Round2Fixed(hi);
  }

  lemma QuotientTimes(a: real, b: real)
    requires b != 0.0
    ensures a / b * b == a
  {
  }

  /** `round(weight * ratio, 2)` */
  function Scaled(weight: real, ratio: real): real {
    Round2(weight * ratio)
  }

  /** A share of a weight is reported as a whole number of hundredths, at most half of one away. */
  lemma ScaledNearest(weight: real, ratio: real)
    ensures OnGrid(Scaled(weight, ratio))
    ensures weight * ratio - 0.005 <= Scaled(weight, ratio) <= weight * ratio + 0.005
  {
    hide Round2, OnGrid;
    Round2Nearest(weight * ratio, 0);
  }

  lemma ScaledMonotone(weight: real, low: real, high: real)
    requires weight >= 0.0 && low <= high
    ensures Scaled(weight, low) <= Scaled(weight, high)
  {
    assert weight * low <= weight * high;
    Round2Monotone(weight * low, weight * high);
  }

  /** A share of a whole number of hundredths stays between zero and the whole. */
  lemma ScaledWithin(weight: real, ratio: real)
    requires weight >= 0.0 && OnGrid(weight) && 0.0 <= ratio <= 1.0
    ensures 0.0 <= Scaled(weight, ratio) <= weight
  {
    assert 0.0 <= weight * ratio <= weight;
    HundredthsOnGrid(0);
    Round2Between(0.0, weight * ratio, weight);
  }
}
