/** The regression test of cumulative inflation across phases: its own copy
    of apply_inflation_adjustment, and the two-phase arithmetic it checks
    (phase 1's nominal value rolled into phase 2 at the same return, real
    values deflated over the years since the very start). */
module CumulativeInflationTest {
  import opened Growth
  import Lumpsum
  import Inflation
  import Portfolio

  /** The test's copy of apply_inflation_adjustment, as an append loop. */
  method ApplyInflationAdjustment(nominalValues: seq<real>, inflationRate: real, cumulativeYears: Inflation.YearIndex)
    returns (realValues: seq<real>)
    requires inflationRate > 0.0 ==> Inflation.Covers(cumulativeYears, |nominalValues|)
    ensures realValues == Inflation.AdjustForInflation(nominalValues, inflationRate, cumulativeYears)
  {
    if inflationRate <= 0.0 {
      return nominalValues;
    }
    realValues := [];
    for i := 0 to |nominalValues|
      invariant |realValues| == i
      invariant forall j :: 0 <= j < i ==>
                  realValues[j] == Inflation.AdjustForInflation(nominalValues, inflationRate, cumulativeYears)[j]
    {
      var cumulativeYear := if cumulativeYears.PerValue? then cumulativeYears.years[i] else cumulativeYears.year;
      var realValue := nominalValues[i] / Inflation.Deflator(inflationRate, cumulativeYear);
      realValues := realValues + [realValue];
    }
  }

  /** Rolling a lumpsum's final value into a second lumpsum at the same
      return is one lumpsum over both periods. */
  lemma RolloverIsOneCompounding(principal: real, roi: real, years1: nat, years2: nat)
    ensures Lumpsum.CalculateLumpsum(Lumpsum.CalculateLumpsum(principal, roi, years1, 0.0).finalAmount, roi, years2, 0.0).finalAmount
            == Lumpsum.CalculateLumpsum(principal, roi, years1 + years2, 0.0).finalAmount
  {
    CompoundedTwice(principal, roi, years1, years2);
  }

  /** The same through two lumpsum-only phases of the portfolio: phase 2's
      nominal final value is the initial lumpsum compounded over both phases. */
  lemma TwoLumpsumPhases(initialLumpsum: real, roi: real, inflationRate: real, years1: nat, years2: nat)
    requires initialLumpsum > 0.0 && roi > -100.0
    ensures var phase1 := Portfolio.Phase([], [], [], years1, 0.0, initialLumpsum, roi, inflationRate, 0);
            var phase2 := Portfolio.Phase([], [], [], years2, Portfolio.PhaseOutcome(phase1).balance, 0.0, roi, inflationRate, years1);
            Portfolio.PhaseOutcome(phase2).balance == Compounded(initialLumpsum, roi, years1 + years2)
  {
    var phase1 := Portfolio.Phase([], [], [], years1, 0.0, initialLumpsum, roi, inflationRate, 0);
    var g := AnnualFactor(roi);
    var a, b := Pow(g, years1), Pow(g, years2);
    Portfolio.RolloverOnlyIsLumpsum(phase1);
    var nominal1 := Portfolio.PhaseOutcome(phase1).balance;
    assert nominal1 == initialLumpsum * a;
    PowPositive(g, years1);
    ProductPositive(initialLumpsum, a);
    var phase2 := Portfolio.Phase([], [], [], years2, nominal1, 0.0, roi, inflationRate, years1);
    Portfolio.RolloverOnlyIsLumpsum(phase2);
    assert Portfolio.PhaseOutcome(phase2).balance == nominal1 * b;
    CompoundedTwice(initialLumpsum, roi, years1, years2);
  }

  /** Deflating phase 2's value over the cumulative years gives less than
      the rejected per-phase deflation over phase 2's own years. */
  lemma CumulativeBelowPerPhase(nominal: real, inflationRate: real, years1: nat, years2: nat)
    requires nominal > 0.0 && inflationRate > 0.0 && years1 > 0
    ensures nominal / Inflation.Deflator(inflationRate, years1 + years2) < nominal / Inflation.Deflator(inflationRate, years2)
  {
    Inflation.LaterIsLower(nominal, inflationRate, years2, years1 + years2);
  }

  /** The function applied to phase 1's and phase 2's nominal values with
      their cumulative years (the test uses 10 and 10 + 10) gives the
      directly deflated values, phase 2's being the 20-year compounding. */
  lemma FunctionMatchesDirect(initialLumpsum: real, roi: real, inflationRate: real, years1: nat, years2: nat)
    requires inflationRate > 0.0
    ensures var n1 := Compounded(initialLumpsum, roi, years1);
            var n2 := Compounded(n1, roi, years2);
            Inflation.AdjustForInflation([n1, n2], inflationRate, Inflation.PerValue([years1, years1 + years2]))
            == [n1 / Inflation.Deflator(inflationRate, years1),
                Compounded(initialLumpsum, roi, years1 + years2) / Inflation.Deflator(inflationRate, years1 + years2)]
  {
    var n1 := Compounded(initialLumpsum, roi, years1);
    var n2 := Compounded(n1, roi, years2);
    CompoundedTwice(initialLumpsum, roi, years1, years2);
    var r := Inflation.AdjustForInflation([n1, n2], inflationRate, Inflation.PerValue([years1, years1 + years2]));
    assert r[0] == n1 / Inflation.Deflator(inflationRate, years1);
    assert r[1] == n2 / Inflation.Deflator(inflationRate, years1 + years2);
  }
}
