/** The dashboard's month-over-month growth figure: how much the number
    of items grew this month relative to the number that existed before
    it, as a rounded percentage. */
module Metrics {
  import opened JsBuiltins

  /** `calculateMonthlyGrowth(data)`. `inCurrentMonth` stands for
      `isSameMonth(parseISO(item.createdAt), now)`, with the clock read
      inside it. The division is done over the exact rationals. */
  function CalculateMonthlyGrowth<T>(data: seq<T>, inCurrentMonth: T -> bool): (growth: int)
    ensures growth >= 0
    ensures |data| == 0 ==> growth == 0
  {
    var totalNow := |data|;
    var newThisMonth := |Filter(data, inCurrentMonth)|;
    var totalLastMonth := totalNow - newThisMonth;
    if totalLastMonth == 0 then (if totalNow > 0 then 100 else 0)
    else
      assert (totalNow - totalLastMonth) as real / totalLastMonth as real >= 0.0;
      MathRound(((totalNow - totalLastMonth) as real / totalLastMonth as real) * 100.0)
  }

  /** `Math.round(100 * num / den)` for a non-negative quotient is the
      integer `(200 * num + den) div (2 * den)`. */
  lemma RoundPercentage(num: int, den: int)
    requires num >= 0 && den > 0
    ensures MathRound((num as real / den as real) * 100.0) == (200 * num + den) / (2 * den)
  {
    var q := (200 * num + den) / (2 * den);
    var x := (num as real / den as real) * 100.0;
    assert 2 * den * q <= 200 * num + den < 2 * den * q + 2 * den;
    var d := den as real;
    assert x * d == 100.0 * num as real;
    assert (q as real) * (2.0 * d) <= 200.0 * num as real + d;
    assert 200.0 * num as real + d < (q as real) * (2.0 * d) + 2.0 * d;
    var qd := (q as real) * d;
    assert (q as real) * (2.0 * d) == 2.0 * qd;
    assert (q as real - 0.5) * d == qd - 0.5 * d;
    assert (q as real + 0.5) * d == qd + 0.5 * d;
    var xd, m := x * d, num as real;
    assert 2.0 * qd <= 200.0 * m + d && 200.0 * m + d < 2.0 * qd + 2.0 * d && xd == 100.0 * m;
    assert qd - 0.5 * d <= xd < qd + 0.5 * d;
    DivideOutPositive(q as real - 0.5, x, d);
    DivideOutPositiveStrict(x, q as real + 0.5, d);
    var n := MathRound(x);
    assert n as real - 0.5 <= x < n as real + 0.5;
  }

  lemma DivideOutPositive(a: real, b: real, d: real)
    requires d > 0.0 && a * d <= b * d
    ensures a <= b
  {
  }

  lemma DivideOutPositiveStrict(a: real, b: real, d: real)
    requires d > 0.0 && a * d < b * d
    ensures a < b
  {
  }

  /** The three cases of the metric, in terms of the two counts: nothing
      gives 0; items that all arrived this month give 100; otherwise the
      rounded percentage that this month's items make of the earlier ones
      (the difference `totalNow - totalLastMonth` is this month's count). */
  lemma GrowthCases<T>(data: seq<T>, inCurrentMonth: T -> bool)
    ensures var total, recent := |data|, |Filter(data, inCurrentMonth)|;
      var growth := CalculateMonthlyGrowth(data, inCurrentMonth);
      && 0 <= recent <= total
      && (total == 0 ==> growth == 0)
      && (total > 0 && recent == total ==> growth == 100)
      && (recent < total ==> growth == (200 * recent + (total - recent)) / (2 * (total - recent)))
  {
    var total, recent := |data|, |Filter(data, inCurrentMonth)|;
    if recent < total {
      RoundPercentage(recent, total - recent);
    }
  }

  /** A non-empty list with nothing from this month shows no growth. */
  lemma NoNewItemsNoGrowth<T>(data: seq<T>, inCurrentMonth: T -> bool)
    requires |data| > 0
    requires forall i :: 0 <= i < |data| ==> !inCurrentMonth(data[i])
    ensures CalculateMonthlyGrowth(data, inCurrentMonth) == 0
  {
    FilterNone(data, inCurrentMonth);
    GrowthCases(data, inCurrentMonth);
  }

  /** The metric depends on the items only through the two counts, so
      it does not depend on their order. */
  lemma GrowthIgnoresOrder<T>(a: seq<T>, b: seq<T>, inCurrentMonth: T -> bool)
    requires multiset(a) == multiset(b)
    ensures CalculateMonthlyGrowth(a, inCurrentMonth) == CalculateMonthlyGrowth(b, inCurrentMonth)
  {
    FilterCountPermutation(a, b, inCurrentMonth);
    assert |a| == |multiset(a)| == |multiset(b)| == |b|;
  }
}
