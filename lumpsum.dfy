/** calculate_lumpsum: one amount compounded once a year at the annual rate,
    with a row for each year-end. */
module Lumpsum {
  import opened Growth

  /** One year-end row: what was invested, what it is worth, and the difference. */
  datatype LumpsumRow = LumpsumRow(year: nat, amountInvested: real, currentValue: real, yearReturns: real)

  /** The final amount, the amount invested and the year-end rows. */
  datatype LumpsumResult = LumpsumResult(finalAmount: real, totalInvested: real, rows: seq<LumpsumRow>)

  /** The row of one year-end. */
  function YearRow(totalPrincipal: real, annualRate: real, year: nat): LumpsumRow
  {
    var value := Compounded(totalPrincipal, annualRate, year);
    LumpsumRow(year, totalPrincipal, value, value - totalPrincipal)
  }

  /** The lumpsum principal plus the initial amount compounded for `years` years. */
  function CalculateLumpsum(principal: real, annualRate: real, years: nat, initialAmount: real): (r: LumpsumResult)
    ensures r.totalInvested == principal + initialAmount
    ensures |r.rows| == years
    ensures forall i :: 0 <= i < years ==>
              r.rows[i].year == i + 1 && r.rows[i].amountInvested == r.totalInvested
              && r.rows[i].yearReturns == r.rows[i].currentValue - r.rows[i].amountInvested
    ensures years > 0 ==> r.rows[years - 1].currentValue == r.finalAmount
    ensures years == 0 ==> r.finalAmount == r.totalInvested
  {
    var totalPrincipal := principal + initialAmount;
    var rows := seq(years, i requires 0 <= i < years => YearRow(totalPrincipal, annualRate, i + 1));
    LumpsumResult(Compounded(totalPrincipal, annualRate, years), totalPrincipal, rows)
  }

  /** Each year-end value is the previous one grown by one year's rate; the
      first is the invested amount grown once. */
  lemma YearOverYear(principal: real, annualRate: real, years: nat, initialAmount: real)
    ensures var r := CalculateLumpsum(principal, annualRate, years, initialAmount);
            (years > 0 ==> r.rows[0].currentValue == r.totalInvested * AnnualFactor(annualRate))
            && forall i :: 0 < i < years ==>
                 r.rows[i].currentValue == r.rows[i - 1].currentValue * AnnualFactor(annualRate)
  {
    var r := CalculateLumpsum(principal, annualRate, years, initialAmount);
    var p := principal + initialAmount;
    if years > 0 {
      CompoundedStep(p, annualRate, 0);
    }
    forall i | 0 < i < years
      ensures r.rows[i].currentValue == r.rows[i - 1].currentValue * AnnualFactor(annualRate)
    {
      CompoundedStep(p, annualRate, i);
    }
  }

  /** One more year multiplies the value by the annual factor. */
  lemma CompoundedStep(p: real, annualRate: real, n: nat)
    ensures Compounded(p, annualRate, n + 1) == Compounded(p, annualRate, n) * AnnualFactor(annualRate)
  {
    var g, q := AnnualFactor(annualRate), Pow(AnnualFactor(annualRate), n);
    assert Pow(g, n + 1) == g * q;
    MulShift(p, q, g);
  }

  lemma MulShift(p: real, q: real, g: real)
    ensures p * (g * q) == p * q * g
  {
  }

  /** At a 0% rate nothing grows: every row and the final amount equal the
      amount invested. */
  lemma AtZeroRate(principal: real, years: nat, initialAmount: real)
    ensures var r := CalculateLumpsum(principal, 0.0, years, initialAmount);
            r.finalAmount == r.totalInvested
            && forall i :: 0 <= i < years ==> r.rows[i].currentValue == r.totalInvested && r.rows[i].yearReturns == 0.0
  {
    var r := CalculateLumpsum(principal, 0.0, years, initialAmount);
    assert AnnualFactor(0.0) == 1.0;
    PowOfOne(years);
    forall i | 0 <= i < years
      ensures r.rows[i].currentValue == r.totalInvested
    {
      PowOfOne(i + 1);
    }
  }

  /** At a positive rate a positive investment gains every year: every row
      is worth more than the amount invested. */
  lemma AboveInvestedAtPositiveRate(principal: real, annualRate: real, years: nat, initialAmount: real)
    requires annualRate > 0.0 && principal + initialAmount > 0.0
    ensures var r := CalculateLumpsum(principal, annualRate, years, initialAmount);
            forall i :: 0 <= i < years ==> r.rows[i].currentValue > r.totalInvested
  {
    var r := CalculateLumpsum(principal, annualRate, years, initialAmount);
    var p, g := principal + initialAmount, AnnualFactor(annualRate);
    assert g > 1.0;
    forall i | 0 <= i < years
      ensures r.rows[i].currentValue > p
    {
      GrownAbove(p, g, i + 1, r.rows[i].currentValue);
    }
  }

  /** At a positive rate the rows of a positive investment strictly increase. */
  lemma IncreasingAtPositiveRate(principal: real, annualRate: real, years: nat, initialAmount: real)
    requires annualRate > 0.0 && principal + initialAmount > 0.0
    ensures var r := CalculateLumpsum(principal, annualRate, years, initialAmount);
            forall i, j :: 0 <= i < j < years ==> r.rows[i].currentValue < r.rows[j].currentValue
  {
    var r := CalculateLumpsum(principal, annualRate, years, initialAmount);
    var p, g := principal + initialAmount, AnnualFactor(annualRate);
    assert g > 1.0;
    forall i, j | 0 <= i < j < years
      ensures r.rows[i].currentValue < r.rows[j].currentValue
    {
      GrownFurther(p, g, i + 1, j + 1, r.rows[i].currentValue, r.rows[j].currentValue);
    }
  }

  lemma GrownAbove(p: real, g: real, n: nat, v: real)
    requires p > 0.0 && g > 1.0 && n > 0 && v == p * Pow(g, n)
    ensures v > p
  {
    PowAboveOne(g, n);
    MulAbove(p, Pow(g, n));
  }

  lemma GrownFurther(p: real, g: real, m: nat, n: nat, u: real, v: real)
    requires p > 0.0 && g > 1.0 && m < n && u == p * Pow(g, m) && v == p * Pow(g, n)
    ensures u < v
  {
    PowStrictlyIncreasing(g, m, n);
    MulIncreasing(p, Pow(g, m), Pow(g, n));
  }

  lemma MulIncreasing(p: real, a: real, b: real)
    requires p > 0.0 && a < b
    ensures p * a < p * b
  {
    assert p * b - p * a == p * (b - a);
  }

  /** Row `year` of a longer projection is the final amount of a projection
      that stops at that year. */
  lemma RowIsShorterFinal(principal: real, annualRate: real, years: nat, initialAmount: real, i: nat)
    requires i < years
    ensures CalculateLumpsum(principal, annualRate, years, initialAmount).rows[i].currentValue
            == CalculateLumpsum(principal, annualRate, i + 1, initialAmount).finalAmount
  {
  }
}
