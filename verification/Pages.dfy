/** Offset pagination: Result.Offset and Result.Meta of runtime/query/query.go. */
module Pages {
  import opened Numbers
  import opened Doubles
  import opened Query
  import Sql

  datatype Meta = Meta(page: int64, perPage: int64, total: int64, totalPages: int)

  /** math.Ceil, as an integer. */
  function Ceil(x: real): int {
    -((-x).Floor)
  }

  /** float64 of a positive integer is positive. */
  lemma FloatPositive(n: int64)
    requires n >= 1
    ensures Round(n as real) >= 1.0
    ensures n as real < Pow2(PRECISION) ==> Round(n as real) == n as real
    ensures n as real >= Pow2(PRECISION) ==> Pow2(PRECISION) <= Round(n as real) <= Pow2(63)
  {
    if n as real < Pow2(PRECISION) {
      WholeIsExact(n);
    } else {
      PowersOfTwo();
      RoundBetweenPowers(n as real, PRECISION, 63);
      Pow2Monotone(0, PRECISION);
      hide Pow2, Round;
    }
  }

  lemma PowersOfTwo()
    ensures Pow2(52) == 4503599627370496.0 && Pow2(53) == 9007199254740992.0 && Pow2(63) == 9223372036854775808.0
  {
    assert Pow2(8) == 256.0;
    Pow2Add(8, 8);
    Pow2Add(16, 16);
    Pow2Add(32, 16);
    Pow2Add(48, 8);
    assert Pow2(56) == 72057594037927936.0;
    hide Times;
  }

  lemma FloatAtLeastOne(n: int64)
    requires n >= 1
    ensures Round(n as real) >= 1.0
  {
    hide Pow2, Round;
    FloatPositive(n);
  }

  /** float64(n). */
  function Float(n: int64): (x: real)
    requires n >= 1
    ensures x >= 1.0
  {
    FloatAtLeastOne(n);
    Round(n as real)
  }

  /** Meta's page count: the division of the two numbers as doubles, rounded up. */
  function TotalPages(total: int64, perPage: int64): int
    requires perPage >= 1
  {
    if total > 0 then Ceil(Round(Quotient(Float(total), Float(perPage)))) else 0
  }

  function Quotient(x: real, y: real): (q: real)
    requires x >= 0.0 && y > 0.0
    ensures q >= 0.0
  {
    Over(x, y)
  }

  function MetaOf(r: Result, total: int64): Meta
    requires r.perPage >= 1
  {
    Meta(r.page, r.perPage, total, TotalPages(total, r.perPage))
  }

  function CeilDiv(total: nat, perPage: nat): nat
    requires perPage >= 1
  {
    (total + perPage - 1) / perPage
  }

  // ----- the double quotient rounds up to the whole one ----------------------------------------------

  /** A number between two whole ones rounds to above the lower one if it is more than half a unit away. */
  lemma RoundsUpTo(q: real, n: nat)
    requires n as real < q <= n as real + 1.0 && q < Pow2(PRECISION)
    requires n as real + 0.5 * Unit(q) < q
    ensures n as real < Round(q) <= n as real + 1.0
    ensures Ceil(Round(q)) == n + 1
  {
    RoundBetweenWholes(q, n, n + 1);
    ExponentIsLeast(q, MIN_EXPONENT, 0);
    var e := Exponent(q, MIN_EXPONENT);
    WholeMultiple(n, e);
    assert Unit(q) == Pow2(e);
    hide Pow2, Round, Exponent, Unit, Times;
    RoundAbove(q, Units(n, e));
  }

  /** The unit of a quotient, times the divisor: less than two, for a dividend below 2^53. */
  lemma UnitOfQuotient(total: nat, perPage: nat, q: real)
    requires 0 < total && 0 < perPage && q >= 0.0 && Times(q, perPage as real) == total as real
    requires total as real < Pow2(PRECISION) && perPage as real < Pow2(PRECISION) && q < Pow2(PRECISION)
    ensures Times(Unit(q), perPage as real) < 2.0
  {
    var e, per := Exponent(q, MIN_EXPONENT), perPage as real;
    assert Unit(q) == Pow2(e);
    ExponentIsLeast(q, MIN_EXPONENT, 0);
    if e > MIN_EXPONENT {
      UnitBelow(q, e, per, total);
    } else {
      TinyUnit(per);
    }
  }

  lemma UnitBelow(q: real, e: int, per: real, total: nat)
    requires q >= Pow2(e + PRECISION - 1) && per > 0.0 && Times(q, per) == total as real <= Pow2(PRECISION)
    requires q > Pow2(e + PRECISION - 1) || total as real < Pow2(PRECISION)
    ensures Times(Pow2(e), per) < 2.0
  {
    Pow2Step(52);
    Pow2Add(e, 52);
    hide Pow2, Times;
    var unit, big := Pow2(e), Pow2(52);
    TimesMonotone(Times(unit, big), q, per);
    TimesSum(unit, 0.0, big);
    TimesNested(big, unit, per);
    TimesSum(big, 0.0, Times(unit, per));
    TimesSum(2.0, 0.0, big);
    TimesMonotone(Times(unit, per), 2.0, big);
    TwoTimes(big);
  }

  lemma TwoTimes(x: real)
    ensures Times(2.0, x) == 2.0 * x
  {}

  lemma TinyUnit(per: real)
    requires 0.0 < per < Pow2(63)
    ensures Times(Pow2(MIN_EXPONENT), per) < 1.0
  {
    hide Pow2, Times;
    Pow2Add(MIN_EXPONENT, 63);
    Pow2Monotone(MIN_EXPONENT + 63, 0);
    TimesSum(Pow2(MIN_EXPONENT), 0.0, per);
    TimesSum(Pow2(MIN_EXPONENT), 0.0, Pow2(63));
    TimesMonotone(per, Pow2(63), Pow2(MIN_EXPONENT));
    assert Pow2(0) == 1.0 by {
      PowerZero();
    }
  }

  lemma PowerZero()
    ensures Pow2(0) == 1.0
  {}

  /** The exact quotient lies between its floor and the dividend. */
  lemma QuotientBounds(total: nat, perPage: nat, q: real, n: nat)
    requires 0 < total && 0 < perPage && Times(q, perPage as real) == total as real
    requires n * perPage <= total
    ensures n as real <= q <= total as real
  {
    var per := perPage as real;
    TimesWhole(n, perPage);
    TimesWhole(total, perPage);
    TimesLe(1, perPage, total);
    hide Times;
    TimesMonotone(n as real, q, per);
    TimesMonotone(q, total as real, per);
  }

  lemma ExactQuotient(total: nat, perPage: nat, q: real, n: nat)
    requires 0 < perPage && Times(q, perPage as real) == total as real
    requires total == n * perPage
    ensures q == n as real
  {
    TimesWhole(n, perPage);
    hide Times;
    TimesMonotone(n as real, q, perPage as real);
    TimesMonotone(q, n as real, perPage as real);
  }

  lemma QuotientBelow(total: nat, perPage: nat, q: real, n: nat)
    requires 0 < perPage && Times(q, perPage as real) == total as real
    requires total <= n * perPage
    ensures q <= n as real
  {
    TimesWhole(n, perPage);
    hide Times;
    TimesMonotone(q, n as real, perPage as real);
  }

  /** Page sizes below 2^53: both numbers are exact doubles. */
  lemma SmallPages(total: nat, perPage: nat, q: real)
    requires 0 < total && 0 < perPage && q >= 0.0 && Times(q, perPage as real) == total as real
    requires total as real < Pow2(PRECISION) && perPage as real < Pow2(PRECISION)
    ensures Ceil(Round(q)) == CeilDiv(total, perPage)
  {
    hide Pow2, Times, Round, Unit, CeilDiv;
    var n, rem := total / perPage, total % perPage;
    CeilDivIs(total, perPage, n, rem);
    QuotientBounds(total, perPage, q, n);
    if rem == 0 {
      ExactQuotient(total, perPage, q, n);
      RoundBetweenWholes(q, n, n);
    } else {
      NextWhole(n, perPage);
      QuotientBelow(total, perPage, q, n + 1);
      UnitOfQuotient(total, perPage, q);
      HalfUnitBelow(n, perPage, total, q, Unit(q));
      RoundsUpTo(q, n);
    }
  }

  lemma NextWhole(n: int, per: int)
    ensures (n + 1) * per == n * per + per && (n - 1) * per == n * per - per
  {}

  lemma CeilDivIs(total: nat, perPage: nat, n: nat, rem: nat)
    requires perPage > 0 && n == total / perPage && rem == total % perPage
    ensures total == n * perPage + rem
    ensures CeilDiv(total, perPage) == if rem == 0 then n else n + 1
  {
    var t := total + perPage - 1;
    if rem == 0 {
      DivisionIs(t, perPage, n, perPage - 1);
    } else {
      DivisionIs(t, perPage, n + 1, rem - 1);
    }
  }

  lemma DivisionIs(t: nat, d: nat, q: nat, r: nat)
    requires d > 0 && t == q * d + r && r < d
    ensures t / d == q
  {
    var k := t / d;
    NextWhole(k, d);
    NextWhole(q, d);
    if k < q {
      TimesLe(k + 1, q, d);
    }
    if k > q {
      TimesLe(q + 1, k, d);
    }
  }

  lemma HalfUnitBelow(n: nat, perPage: nat, total: nat, q: real, unit: real)
    requires 0 < perPage && total >= n * perPage + 1 && unit > 0.0
    requires Times(q, perPage as real) == total as real && Times(unit, perPage as real) < 2.0
    ensures n as real + 0.5 * unit < q
  {
    var per := perPage as real;
    TimesWhole(n, perPage);
    HalfTimesUnit(n as real, unit, per);
    hide Times;
    TimesMonotone(n as real + 0.5 * unit, q, per);
  }

  lemma HalfTimesUnit(n: real, unit: real, per: real)
    ensures Times(n + 0.5 * unit, per) == Times(n, per) + 0.5 * Times(unit, per)
  {}

  // ----- 2^53 rows ---------------------------------------------------------------------------------------

  /** Between 2^53 and 2^54 the doubles are the even numbers. */
  lemma UnitIsTwo(x: real)
    requires Pow2(PRECISION) <= x < Pow2(PRECISION + 1)
    ensures Unit(x) == 2.0
  {
    ExponentIsLeast(x, MIN_EXPONENT, 1);
    var e := Exponent(x, MIN_EXPONENT);
    assert Unit(x) == Pow2(e);
    assert Pow2(1) == 2.0;
    hide Pow2, Exponent, Unit;
    if e < 1 {
      Pow2Monotone(e + PRECISION, PRECISION);
    }
  }

  lemma RoundHalves(x: real)
    requires Pow2(PRECISION) <= x < Pow2(PRECISION + 1)
    ensures Round(x) == 2.0 * Nearest(x / 2.0) as real
  {
    UnitIsTwo(x);
    hide Pow2, Unit, Nearest;
  }

  /** The number of rows up to which the page count is right. */
  const LIMIT := 0x20_0000_0000_0000

  lemma LimitIsDouble()
    ensures LIMIT as real == Pow2(PRECISION) && Round(LIMIT as real) == LIMIT as real
  {
    PowersOfTwo();
    Pow2Step(53);
    hide Pow2, Round;
    RoundHalves(LIMIT as real);
  }

  /** A quotient with a remainder is no whole number. */
  lemma NotWhole(total: nat, perPage: nat, q: real, m: int)
    requires perPage > 0 && Times(q, perPage as real) == total as real && total % perPage != 0
    ensures q != m as real
  {
    if q == m as real {
      TimesWhole(m, perPage);
      WholeMultipleHasNoRemainder(total, m, perPage);
    }
    hide Times;
  }

  lemma WholeMultipleHasNoRemainder(total: nat, m: int, d: nat)
    requires d > 0 && total == m * d
    ensures total % d == 0
  {
    var k, rem := total / d, total % d;
    assert (m - k) * d == rem;
    if m - k >= 1 {
      TimesLe(1, m - k, d);
    } else {
      TimesLe(0, k - m, d);
    }
  }

  /** The unit of such a quotient of 2^53, times the divisor: still less than two. */
  lemma UnitOfEdge(perPage: nat, q: real)
    requires 0 < perPage < LIMIT && LIMIT % perPage != 0 && 1.0 <= q < Pow2(PRECISION)
    requires Times(q, perPage as real) == LIMIT as real
    ensures Times(Unit(q), perPage as real) < 2.0
  {
    LimitIsDouble();
    var e := Exponent(q, MIN_EXPONENT);
    assert Unit(q) == Pow2(e);
    ExponentIsLeast(q, MIN_EXPONENT, 0);
    hide Pow2, Times, Round, Exponent, Unit;
    if e > MIN_EXPONENT {
      if q == Pow2(e + PRECISION - 1) {
        PowerAboveOne(e + PRECISION - 1, q);
        NotWhole(LIMIT, perPage, q, q.Floor);
      }
      UnitBelow(q, e, perPage as real, LIMIT);
    } else {
      PowersOfTwoOrder();
      TinyUnit(perPage as real);
    }
  }

  lemma PowerAboveOne(k: int, q: real)
    requires q == Pow2(k) >= 1.0
    ensures q == q.Floor as real
  {
    if k >= 0 {
      Pow2Whole(k);
    } else {
      Pow2Monotone(k, -1);
      PowerHalf();
    }
    hide Pow2;
  }

  lemma PowerHalf()
    ensures Pow2(-1) == 0.5
  {}

  /** 2^53 rows, on pages below 2^53. */
  lemma EdgePages(perPage: nat, q: real)
    requires 0 < perPage < LIMIT && q >= 0.0 && Times(q, perPage as real) == LIMIT as real
    ensures Ceil(Round(q)) == CeilDiv(LIMIT, perPage)
  {
    var n, rem := LIMIT / perPage, LIMIT % perPage;
    CeilDivIs(LIMIT, perPage, n, rem);
    LimitIsDouble();
    hide Pow2, Times, Round, Unit, CeilDiv;
    QuotientBounds(LIMIT, perPage, q, n);
    if rem == 0 {
      ExactQuotient(LIMIT, perPage, q, n);
      if n < LIMIT {
        RoundBetweenWholes(q, n, n);
      }
    } else {
      EdgeQuotient(perPage, q, n);
      NextWhole(n, perPage);
      QuotientBelow(LIMIT, perPage, q, n + 1);
      UnitOfEdge(perPage, q);
      HalfUnitBelow(n, perPage, LIMIT, q, Unit(q));
      RoundsUpTo(q, n);
    }
  }

  /** With a remainder, there are at least two rows a page, and more than one page. */
  lemma EdgeQuotient(perPage: nat, q: real, n: nat)
    requires 0 < perPage < LIMIT && n == LIMIT / perPage && LIMIT % perPage != 0
    requires Times(q, perPage as real) == LIMIT as real && n as real <= q <= LIMIT as real
    ensures 1.0 <= q < LIMIT as real
  {
    NotWhole(LIMIT, perPage, q, LIMIT);
    AtLeastOne(LIMIT, perPage);
    hide Times;
  }

  lemma AtLeastOne(t: nat, d: nat)
    requires 0 < d <= t
    ensures t / d >= 1
  {
    DivisionIs(t, d, t / d, t % d);
  }

  /** Page sizes from 2^53 on: everything is on one page. */
  lemma LargePages(total: nat, per: real, q: real)
    requires 0 < total && q >= 0.0 && Times(q, per) == total as real
    requires total as real <= Pow2(PRECISION) <= per <= Pow2(63)
    ensures Ceil(Round(q)) == 1
  {
    hide Pow2, Times, Round, Exponent;
    TimesOne(per);
    TimesMonotone(0.0, q, per);
    TimesMonotone(q, 1.0, per);
    PowersOfTwoOrder();
    ExponentIsLeast(q, MIN_EXPONENT, 0);
    var e := Exponent(q, MIN_EXPONENT);
    assert Unit(q) == Pow2(e);
    hide Unit;
    assert Pow2(e) <= q by {
      if e > MIN_EXPONENT {
        Pow2Monotone(e, e + PRECISION - 1);
      } else {
        TinyIsBelow(q, per, total);
      }
    }
    RoundsUpTo(q, 0);
  }

  lemma PowersOfTwoOrder()
    ensures 1.0 < Pow2(PRECISION) < Pow2(63) < Pow2(64)
  {
    PowersOfTwo();
    Pow2Step(63);
    hide Pow2;
  }

  lemma TinyIsBelow(q: real, per: real, total: nat)
    requires 0 < total && Times(q, per) == total as real && 0.0 < per <= Pow2(63)
    ensures Pow2(MIN_EXPONENT) <= q
  {
    hide Pow2, Times;
    TinyUnit'(per);
    TimesMonotone(Pow2(MIN_EXPONENT), q, per);
  }

  lemma TinyUnit'(per: real)
    requires 0.0 < per <= Pow2(63)
    ensures Times(Pow2(MIN_EXPONENT), per) <= 1.0
  {
    hide Pow2, Times;
    Pow2Add(MIN_EXPONENT, 63);
    Pow2Monotone(MIN_EXPONENT + 63, 0);
    TimesSum(Pow2(MIN_EXPONENT), 0.0, per);
    TimesSum(Pow2(MIN_EXPONENT), 0.0, Pow2(63));
    TimesMonotone(per, Pow2(63), Pow2(MIN_EXPONENT));
    PowerZero();
  }

  /** For every total up to 2^53 and every page size, the page count computed in doubles is the whole
      number of pages. */
  lemma TotalPagesIsCeiling(total: int64, perPage: int64)
    requires perPage >= 1 && 0 <= total <= LIMIT
    ensures TotalPages(total, perPage) == CeilDiv(total, perPage)
  {
    if total > 0 {
      LimitIsDouble();
      hide Pow2, Round, Times;
      FloatPositive(total);
      FloatPositive(perPage);
      var per := Float(perPage);
      var q := Quotient(total as real, per);
      OverTimes(total as real, per);
      if perPage >= LIMIT {
        PowersOfTwoOrder();
        LargePages(total, per, q);
        DivisionIs(total + perPage - 1, perPage, 1, total - 1);
      } else if total < LIMIT {
        SmallPages(total, perPage, q);
      } else {
        EdgePages(perPage, q);
      }
    } else {
      DivisionIs(perPage - 1, perPage, 0, perPage - 1);
    }
  }

  /** At 2^53 + 1 rows, one to a page, the last page is not counted. */
  lemma CeilingFailsAbove()
    ensures TotalPages(LIMIT + 1, 1) == LIMIT && CeilDiv(LIMIT + 1, 1) == LIMIT + 1
  {
    LimitIsDouble();
    Pow2Step(53);
    PowersOfTwo();
    hide Pow2, Round;
    WholeIsExact(1);
    RoundHalves((LIMIT + 1) as real);
  }

  /** The page count is right for every page size and every total up to a bound, exactly if the bound is
      at most 2^53. */
  lemma CeilingHoldsExactlyUpTo(bound: int)
    ensures (forall total: int64, perPage: int64 :: 0 <= total <= bound && perPage >= 1 ==>
              TotalPages(total, perPage) == CeilDiv(total, perPage))
            <==> bound <= LIMIT
  {
    hide TotalPages, CeilDiv;
    if bound <= LIMIT {
      forall total: int64, perPage: int64 | 0 <= total <= bound && perPage >= 1
        ensures TotalPages(total, perPage) == CeilDiv(total, perPage)
      {
        TotalPagesIsCeiling(total, perPage);
      }
    } else {
      CeilingFailsAbove();
    }
  }

  // ----- the windows partition the rows -----------------------------------------------------------------

  /** Row `i` is in the window of page `page`. */
  predicate InWindow(r: Result, page: int64, i: nat) {
    Sql.Offset(r.(page := page)) <= i < Sql.Offset(r.(page := page)) + r.perPage
  }

  /** Up to the last page, every window starts before the end of the rows. */
  lemma WindowStart(total: nat, per: nat, page: nat)
    requires per >= 1 && 1 <= page <= CeilDiv(total, per)
    ensures 0 <= (page - 1) * per < total
  {
    var n := CeilDiv(total, per);
    assert n * per <= total + per - 1;
    NextWhole(n, per);
    TimesLe(page - 1, n - 1, per);
  }

  lemma TimesLe(x: nat, y: nat, z: nat)
    requires x <= y
    ensures x * z <= y * z
  {}

  /** So no offset overflows. */
  lemma OffsetIs(r: Result, total: int64, page: int64)
    requires r.perPage >= 1 && total >= 0 && 1 <= page <= CeilDiv(total, r.perPage)
    ensures Sql.Offset(r.(page := page)) == (page - 1) * r.perPage
  {
    WindowStart(total, r.perPage, page);
    hide CeilDiv;
  }

  /** The page a row is on. */
  function PageOf(r: Result, i: nat): int
    requires r.perPage >= 1
  {
    i / r.perPage + 1
  }

  /** Every row is in the window of exactly one of the pages 1 .. TotalPages, no offset overflows, and
      the last window is not empty. */
  lemma WindowsPartition(r: Result, total: int64)
    requires r.perPage >= 1 && 0 <= total <= LIMIT
    ensures var pages := MetaOf(r, total).totalPages;
      && pages <= MAX_INT64
      && (forall i: nat, page: int64 :: i < total && 1 <= page <= pages ==>
            (InWindow(r, page, i) <==> page == PageOf(r, i)))
      && (forall i: nat :: i < total ==> 1 <= PageOf(r, i) <= pages)
      && (total > 0 ==> pages >= 1 && InWindow(r, pages, total - 1))
      && (total == 0 ==> pages == 0)
    ensures var meta := MetaOf(r, total); meta.page == r.page && meta.perPage == r.perPage && meta.total == total
  {
    hide TotalPages, CeilDiv, InWindow, PageOf;
    TotalPagesIsCeiling(total, r.perPage);
    CeilDivAtMost(total, r.perPage);
    forall i: nat, page: int64 | i < total && 1 <= page <= CeilDiv(total, r.perPage)
      ensures InWindow(r, page, i) <==> page == PageOf(r, i)
    {
      RowWindow(r, total, page, i);
    }
    forall i: nat | i < total
      ensures 1 <= PageOf(r, i) <= CeilDiv(total, r.perPage)
    {
      PageOfWithin(r, total, i);
    }
    if total > 0 {
      PageOfWithin(r, total, total - 1);
      LastPageOf(r, total);
      RowWindow(r, total, CeilDiv(total, r.perPage), total - 1);
    } else {
      NoPages(r.perPage);
    }
  }

  lemma NoPages(per: nat)
    requires per >= 1
    ensures CeilDiv(0, per) == 0
  {
    DivisionIs(per - 1, per, 0, per - 1);
  }

  lemma RowWindow(r: Result, total: int64, page: int64, i: nat)
    requires r.perPage >= 1 && i < total && 1 <= page <= CeilDiv(total, r.perPage)
    ensures InWindow(r, page, i) <==> page == PageOf(r, i)
  {
    OffsetIs(r, total, page);
    WindowHolds(r.perPage, page, i);
    hide CeilDiv, Sql.Offset;
  }

  lemma PageOfWithin(r: Result, total: int64, i: nat)
    requires r.perPage >= 1 && i < total
    ensures 1 <= PageOf(r, i) <= CeilDiv(total, r.perPage)
  {
    PageWithin(total, r.perPage, i);
    hide CeilDiv;
    DivisionNotNegative(i, r.perPage);
  }

  lemma DivisionNotNegative(t: nat, d: nat)
    requires d > 0
    ensures t / d >= 0
  {}

  lemma LastPageOf(r: Result, total: int64)
    requires r.perPage >= 1 && total > 0
    ensures PageOf(r, total - 1) == CeilDiv(total, r.perPage)
  {
    LastPage(total, r.perPage);
  }

  lemma CeilDivAtMost(total: nat, per: nat)
    requires per >= 1
    ensures CeilDiv(total, per) <= total
  {
    var n := CeilDiv(total, per);
    if n > total {
      TimesLe(total + 1, n, per);
      assert n * per <= total + per - 1;
      assert (total + 1) * per == total * per + per;
      TimesLe(1, per, total);
    }
  }

  lemma WindowHolds(per: nat, page: nat, i: nat)
    requires per >= 1 && page >= 1
    ensures (page - 1) * per <= i < (page - 1) * per + per <==> page == i / per + 1
  {
    if (page - 1) * per <= i < (page - 1) * per + per {
      DivisionIs(i, per, page - 1, i - (page - 1) * per);
    }
  }

  lemma PageWithin(total: nat, per: nat, i: nat)
    requires per >= 1 && i < total
    ensures i / per + 1 <= CeilDiv(total, per)
  {
    var k, n := i / per, CeilDiv(total, per);
    assert k * per <= i && total + per - 1 < n * per + per;
    if n <= k {
      TimesLe(n, k, per);
    }
  }

  lemma LastPage(total: nat, per: nat)
    requires per >= 1 && total > 0
    ensures CeilDiv(total, per) == (total - 1) / per + 1
  {
    var k, r := (total - 1) / per, (total - 1) % per;
    assert total - 1 == k * per + r;
    assert (k + 1) * per == k * per + per;
    DivisionIs(total + per - 1, per, k + 1, r);
  }
}
