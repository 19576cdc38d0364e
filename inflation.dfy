/** apply_inflation_adjustment: nominal values deflated into today's money by
    the inflation rate compounded over each value's cumulative years. */
module Inflation {
  import opened Growth

  /** The cumulative years to deflate by: one per value, or one for all values. */
  datatype YearIndex = PerValue(years: seq<nat>) | Broadcast(year: nat)

  /** A per-value year list must have an entry for each of the first n values. */
  predicate Covers(ix: YearIndex, n: nat)
  {
    ix.PerValue? ==> |ix.years| >= n
  }

  /** The cumulative year of value i. */
  function YearAt(ix: YearIndex, i: nat): nat
    requires Covers(ix, i + 1)
  {
    match ix
    case PerValue(ys) => ys[i]
    case Broadcast(y) => y
  }

  /** The divisor of a value deflated over `year` years. */
  function Deflator(inflationRate: real, year: nat): (d: real)
    ensures inflationRate > 0.0 ==> d >= 1.0
  {
    var g := AnnualFactor(inflationRate);
    if inflationRate > 0.0 then PowAtLeastOne(g, year); Pow(g, year) else Pow(g, year)
  }

  /** A rate that is not positive returns the values as they are; otherwise
      each value is divided by the deflator of its year. */
  function AdjustForInflation(nominal: seq<real>, inflationRate: real, ix: YearIndex): (r: seq<real>)
    requires inflationRate > 0.0 ==> Covers(ix, |nominal|)
    ensures |r| == |nominal|
    ensures inflationRate <= 0.0 ==> r == nominal
  {
    if inflationRate <= 0.0 then nominal
    else seq(|nominal|, i requires 0 <= i < |nominal| => nominal[i] / Deflator(inflationRate, YearAt(ix, i)))
  }

  /** A positive rate gives a deflator above one after at least one year and
      exactly one at year 0. */
  lemma DeflatorBounds(inflationRate: real, year: nat)
    requires inflationRate > 0.0
    ensures Deflator(inflationRate, year) >= 1.0
    ensures year > 0 <==> Deflator(inflationRate, year) > 1.0
  {
    var g := AnnualFactor(inflationRate);
    PowAtLeastOne(g, year);
    if year > 0 {
      PowAboveOne(g, year);
    }
  }

  /** Inflating a real value back over its years gives the nominal value. */
  lemma Reinflated(nominal: seq<real>, inflationRate: real, ix: YearIndex, i: nat)
    requires inflationRate > 0.0 && Covers(ix, |nominal|) && i < |nominal|
    ensures AdjustForInflation(nominal, inflationRate, ix)[i] * Deflator(inflationRate, YearAt(ix, i)) == nominal[i]
  {
    DeflatorBounds(inflationRate, YearAt(ix, i));
    DividedBack(nominal[i], Deflator(inflationRate, YearAt(ix, i)));
  }

  lemma DividedBack(n: real, d: real)
    requires d != 0.0
    ensures n / d * d == n
  {
  }

  /** A positive value loses purchasing power over at least one year, keeps it
      at year 0, and a value that is not negative stays so. */
  lemma BelowNominal(nominal: seq<real>, inflationRate: real, ix: YearIndex, i: nat)
    requires inflationRate > 0.0 && Covers(ix, |nominal|) && i < |nominal|
    ensures var r := AdjustForInflation(nominal, inflationRate, ix);
            (nominal[i] > 0.0 && YearAt(ix, i) > 0 ==> 0.0 < r[i] < nominal[i])
            && (YearAt(ix, i) == 0 ==> r[i] == nominal[i])
            && (nominal[i] >= 0.0 ==> r[i] >= 0.0)
  {
    var d := Deflator(inflationRate, YearAt(ix, i));
    DeflatorBounds(inflationRate, YearAt(ix, i));
    DivisionBounds(nominal[i], d);
  }

  lemma DivisionBounds(n: real, d: real)
    requires d >= 1.0
    ensures n > 0.0 && d > 1.0 ==> 0.0 < n / d < n
    ensures d == 1.0 ==> n / d == n
    ensures n >= 0.0 ==> n / d >= 0.0
  {
    if n > 0.0 && d > 1.0 {
      var q := n / d;
      assert q * d == n;
      assert q > 0.0;
      assert n - q == q * (d - 1.0);
      ProductPositive(q, d - 1.0);
    }
  }

  /** A single year for all values is the same as a list repeating it. */
  lemma BroadcastIsRepeatedList(nominal: seq<real>, inflationRate: real, year: nat)
    ensures AdjustForInflation(nominal, inflationRate, Broadcast(year))
            == AdjustForInflation(nominal, inflationRate, PerValue(seq(|nominal|, _ => year)))
  {
  }

  /** The longer a value is deflated, the less it is worth. */
  lemma LaterIsLower(n: real, inflationRate: real, early: nat, late: nat)
    requires n > 0.0 && inflationRate > 0.0 && early < late
    ensures n / Deflator(inflationRate, late) < n / Deflator(inflationRate, early)
  {
    var g := AnnualFactor(inflationRate);
    PowStrictlyIncreasing(g, early, late);
    PowAtLeastOne(g, early);
    DivideByLarger(n, Pow(g, early), Pow(g, late));
  }

  lemma DivideByLarger(n: real, a: real, b: real)
    requires n > 0.0 && 0.0 < a < b
    ensures n / b < n / a
  {
    var qa, qb := n / a, n / b;
    assert qa * a == n && qb * b == n;
    assert qb > 0.0;
    assert qb * b - qb * a == qb * (b - a);
    ProductPositive(qb, b - a);
    assert (qa - qb) * a == qa * a - qb * a;
    ProductPositiveFactor(qa - qb, a);
  }

  lemma ProductPositiveFactor(x: real, y: real)
    requires x * y > 0.0 && y > 0.0
    ensures x > 0.0
  {
  }
}
