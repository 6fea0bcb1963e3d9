/** Non-negative IEEE 754 binary64 numbers as reals, and rounding to the nearest of them, ties to even
    (section 4.3.1 of IEEE 754-2008). */
module Doubles {

  /** 2 to the power of `e`. */
  function Pow2(e: int): (p: real)
    ensures p > 0.0
    decreases if e < 0 then -e else e
  {
    if e == 0 then 1.0 else if e > 0 then 2.0 * Pow2(e - 1) else Pow2(e + 1) / 2.0
  }

  const PRECISION := 53
  const MIN_EXPONENT := -1074
  const MAX_EXPONENT := 971

  /** The least exponent from `e` on with which `x` has at most 53 digits. */
  function Exponent(x: real, e: int): (r: int)
    requires e <= MAX_EXPONENT
    ensures e <= r <= MAX_EXPONENT
    decreases MAX_EXPONENT - e
  {
    if e == MAX_EXPONENT || x < Pow2(e + PRECISION) then e else Exponent(x, e + 1)
  }

  /** The unit in the last place of the doubles near `x`. */
  function Unit(x: real): (u: real)
    ensures u > 0.0
  {
    Pow2(Exponent(x, MIN_EXPONENT))
  }

  /** The nearest integer, ties to even. */
  function Nearest(x: real): (n: int)
    ensures x.Floor <= n <= x.Floor + 1
    ensures x - x.Floor as real > 0.5 ==> n == x.Floor + 1
    ensures x - x.Floor as real < 0.5 ==> n == x.Floor
  {
    var d := x - x.Floor as real;
    if d < 0.5 || (d == 0.5 && x.Floor % 2 == 0) then x.Floor else x.Floor + 1
  }

  function Times(x: real, y: real): real {
    x * y
  }

  function Over(x: real, y: real): real
    requires y > 0.0
  {
    x / y
  }

  /** The double nearest to `x`, for `x` within the range of doubles. */
  function Round(x: real): real
    requires x >= 0.0
  {
    Times(Nearest(Over(x, Unit(x))) as real, Unit(x))
  }

  // ----- products and quotients ---------------------------------------------------------------

  lemma TimesMonotone(x: real, y: real, z: real)
    requires z > 0.0
    ensures x <= y <==> Times(x, z) <= Times(y, z)
    ensures x < y <==> Times(x, z) < Times(y, z)
  {}

  lemma TimesNested(x: real, y: real, z: real)
    ensures Times(Times(x, y), z) == Times(x, Times(y, z))
  {}

  lemma TimesOne(x: real)
    ensures Times(x, 1.0) == x && Times(1.0, x) == x && Times(0.0, x) == 0.0
  {}

  lemma TimesSum(x: real, y: real, z: real)
    ensures Times(x + y, z) == Times(x, z) + Times(y, z)
    ensures Times(2.0 * x, z) == 2.0 * Times(x, z) && Times(x, 2.0 * z) == 2.0 * Times(x, z)
    ensures Times(x, z) == Times(z, x)
  {}

  lemma OverTimes(x: real, y: real)
    requires y > 0.0
    ensures Times(Over(x, y), y) == x
  {}

  lemma TimesWhole(x: int, y: int)
    ensures Times(x as real, y as real) == (x * y) as real
  {}

  // ----- powers --------------------------------------------------------------------------------

  lemma Pow2Step(e: int)
    ensures Pow2(e + 1) == 2.0 * Pow2(e)
  {}

  lemma {:induction false} Pow2Monotone(x: int, y: int)
    requires x <= y
    ensures Pow2(x) <= Pow2(y)
    decreases y - x
  {
    if x < y {
      Pow2Monotone(x, y - 1);
      Pow2Step(y - 1);
    }
  }

  lemma {:induction false} Pow2Add(x: int, y: nat)
    ensures Pow2(x + y) == Times(Pow2(x), Pow2(y))
    decreases y
  {
    if y > 0 {
      Pow2Add(x, y - 1);
      Pow2Step(x + (y - 1));
      Pow2Step(y - 1);
      TimesSum(Pow2(x), 0.0, Pow2(y - 1));
    }
    TimesOne(Pow2(x));
    hide Times;
  }

  lemma {:induction false} Pow2Whole(k: nat)
    ensures Pow2(k) == Pow2(k).Floor as real && Pow2(k) >= 1.0
  {
    if k > 0 {
      Pow2Whole(k - 1);
      var n := Pow2(k - 1).Floor;
      assert Pow2(k) == (2 * n) as real;
    }
  }

  /** A power of two is a multiple of every smaller one. */
  lemma Pow2Multiple(k: int, e: int)
    requires e <= k
    ensures Pow2(k) == Times(Pow2(k - e).Floor as real, Pow2(e))
  {
    hide Times, Pow2;
    Pow2Add(e, k - e);
    Pow2Whole(k - e);
    TimesSum(Pow2(e), 0.0, Pow2(k - e));
  }

  /** `n` in units of 2^e, for `e` at most zero. */
  function Units(n: nat, e: int): (m: int)
    requires e <= 0
  {
    n * Pow2(0 - e).Floor
  }

  lemma WholeMultiple(n: nat, e: int)
    requires e <= 0
    ensures n as real == Times(Units(n, e) as real, Pow2(e))
  {
    var scale := Pow2(0 - e);
    Pow2Whole(0 - e);
    Pow2Multiple(0, e);
    TimesWhole(n, scale.Floor);
    TimesNested(n as real, scale, Pow2(e));
    TimesOne(n as real);
    assert Pow2(0) == 1.0;
    hide Times, Pow2;
  }

  // ----- the unit -----------------------------------------------------------------------------------

  /** The exponent is at most any with which `x` fits, and below it `x` does not fit. */
  lemma {:induction false} ExponentIsLeast(x: real, e: int, fits: int)
    requires e <= fits <= MAX_EXPONENT && x < Pow2(fits + PRECISION)
    ensures Exponent(x, e) <= fits && x < Pow2(Exponent(x, e) + PRECISION)
    ensures Exponent(x, e) > e ==> x >= Pow2(Exponent(x, e) + PRECISION - 1)
    decreases MAX_EXPONENT - e
  {
    hide Pow2;
    if !(x < Pow2(e + PRECISION)) {
      ExponentIsLeast(x, e + 1, fits);
    }
  }

  // ----- rounding between bounds -------------------------------------------------------------------

  lemma NearestWithin(x: real, low: int, high: int)
    requires low as real <= x <= high as real
    ensures low <= Nearest(x) <= high
  {
    if x == high as real {
      assert x.Floor == high;
    }
  }

  /** Multiples of the unit of `x` bound its rounding as they bound `x`. */
  lemma RoundWithin(x: real, low: int, high: int)
    requires x >= 0.0
    requires Times(low as real, Unit(x)) <= x <= Times(high as real, Unit(x))
    ensures Times(low as real, Unit(x)) <= Round(x) <= Times(high as real, Unit(x))
  {
    hide Times, Over, Nearest, Unit;
    var unit := Unit(x);
    var s := Over(x, unit);
    OverTimes(x, unit);
    TimesMonotone(low as real, s, unit);
    TimesMonotone(s, high as real, unit);
    NearestWithin(s, low, high);
    TimesMonotone(low as real, Nearest(s) as real, unit);
    TimesMonotone(Nearest(s) as real, high as real, unit);
  }

  /** A number more than half a unit above a multiple of the unit does not round down to it. */
  lemma RoundAbove(x: real, low: int)
    requires x >= 0.0
    requires Times(low as real, Unit(x)) + 0.5 * Unit(x) < x
    ensures Round(x) > Times(low as real, Unit(x))
  {
    hide Times, Over, Unit;
    var unit := Unit(x);
    var s := Over(x, unit);
    OverTimes(x, unit);
    TimesSum(low as real, 0.5, unit);
    TimesSum(0.25, 0.0, unit);
    HalfTimes(unit);
    TimesMonotone(low as real + 0.5, s, unit);
    assert Nearest(s) >= low + 1;
    TimesMonotone(low as real, Nearest(s) as real, unit);
  }

  lemma HalfTimes(x: real)
    ensures Times(0.5, x) == 0.5 * x
  {}

  /** Whole numbers bound the rounding of what lies between them, below 2^53. */
  lemma RoundBetweenWholes(x: real, low: nat, high: nat)
    requires low as real <= x <= high as real && x < Pow2(PRECISION)
    ensures low as real <= Round(x) <= high as real
  {
    hide Times, Pow2, Round, Exponent;
    ExponentIsLeast(x, MIN_EXPONENT, 0);
    var e := Exponent(x, MIN_EXPONENT);
    WholeMultiple(low, e);
    WholeMultiple(high, e);
    RoundWithin(x, Units(low, e), Units(high, e));
  }

  /** Whole numbers below 2^53 are doubles. */
  lemma WholeIsExact(n: nat)
    requires n as real < Pow2(PRECISION)
    ensures Round(n as real) == n as real
  {
    RoundBetweenWholes(n as real, n, n);
  }

  /** Powers of two from 2^53 on bound the rounding of what lies between them. */
  lemma RoundBetweenPowers(x: real, low: int, high: int)
    requires PRECISION <= low <= high <= MAX_EXPONENT && Pow2(low) <= x < Pow2(high)
    ensures Pow2(low) <= Round(x) <= Pow2(high)
  {
    hide Times, Pow2, Round, Exponent;
    var e := Exponent(x, MIN_EXPONENT);
    ExponentIsLeast(x, MIN_EXPONENT, high - PRECISION);
    Pow2Multiple(high, e);
    if e <= low {
      Pow2Multiple(low, e);
      RoundWithin(x, Pow2(low - e).Floor, Pow2(high - e).Floor);
    } else {
      Pow2Monotone(low, e);
      Pow2Monotone(e, e + PRECISION - 1);
      TimesOne(Pow2(e));
      RoundWithin(x, 1, Pow2(high - e).Floor);
    }
  }
}
