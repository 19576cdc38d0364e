/** calculate_multiple_sips, calculate_multiple_lumpsums and
    calculate_multiple_swps: several plans of one kind run over the same
    number of years and are added up (SIPs, lumpsums) or chained one after
    another (SWPs). */
module Streams {
  import opened Growth
  import opened Sums
  import SipLedger
  import SwpLedger
  import Lumpsum

  /** One SIP of the list; a missing step-up is the step-up 0. */
  datatype SipPlan = SipPlan(amount: real, rate: real, stepUp: real)

  /** One lumpsum of the list. */
  datatype LumpsumPlan = LumpsumPlan(amount: real, rate: real)

  /** One SWP of the list; its start year is carried but never read. */
  datatype SwpPlan = SwpPlan(amount: real, rate: real, startYear: int)

  /** Per-year totals over all plans of a list. */
  datatype TotalsRow = TotalsRow(year: nat, totalValue: real, totalInvested: real)

  /** What a SIP started from nothing is worth at the end of `year`. */
  function SipValueIn(year: nat): SipPlan -> real
  {
    (p: SipPlan) => SipLedger.YearEndRow(0.0, p.amount, MonthlyRate(p.rate), p.stepUp, year).currentValue
  }

  /** What a SIP started from nothing has paid in by the end of `year`. */
  function SipInvestedIn(year: nat): SipPlan -> real
  {
    (p: SipPlan) => SipLedger.YearEndRow(0.0, p.amount, MonthlyRate(p.rate), p.stepUp, year).amountInvested
  }

  /** What a lumpsum is worth at the end of `year`. */
  function LumpsumValueIn(year: nat): LumpsumPlan -> real
  {
    (p: LumpsumPlan) => Lumpsum.CalculateLumpsum(p.amount, p.rate, year, 0.0).finalAmount
  }

  function LumpsumAmount(p: LumpsumPlan): real
  {
    p.amount
  }

  /** Adds one SIP's year-end rows to the running per-year totals. */
  function AddSipRows(totals: seq<TotalsRow>, rows: seq<SipLedger.SipRow>): seq<TotalsRow>
    requires |totals| == |rows|
  {
    seq(|totals|, i requires 0 <= i < |totals| =>
          TotalsRow(totals[i].year, totals[i].totalValue + rows[i].currentValue,
                    totals[i].totalInvested + rows[i].amountInvested))
  }

  /** Adds one lumpsum's year-end rows to the running per-year totals. */
  function AddLumpsumRows(totals: seq<TotalsRow>, rows: seq<Lumpsum.LumpsumRow>): seq<TotalsRow>
    requires |totals| == |rows|
  {
    seq(|totals|, i requires 0 <= i < |totals| =>
          TotalsRow(totals[i].year, totals[i].totalValue + rows[i].currentValue,
                    totals[i].totalInvested + rows[i].amountInvested))
  }

  /** The Year column of the first plan's table, before any plan is added:
      column plumbing for the per-year totals. */
  function YearColumn(years: nat): (rows: seq<TotalsRow>)
    ensures |rows| == years
    ensures forall i :: 0 <= i < years ==> rows[i] == TotalsRow(i + 1, 0.0, 0.0)
  {
    seq(years, i requires 0 <= i < years => TotalsRow(i + 1, 0.0, 0.0))
  }

  /** Every SIP is projected from nothing over the same years; the totals
      start at the initial amount. With a non-empty list, `years` must be at
      least one: an empty year table has no columns to copy. */
  method MultipleSips(sips: seq<SipPlan>, years: nat, initialAmount: real)
    returns (totalFinal: real, totalInvested: real, rows: seq<TotalsRow>)
    requires sips != [] ==> years >= 1
    ensures totalFinal == initialAmount + SumOf(sips, SipValueIn(years))
    ensures totalInvested == initialAmount + SumOf(sips, SipInvestedIn(years))
    ensures sips == [] ==> rows == []
    ensures sips != [] ==> |rows| == years
    ensures sips != [] ==> forall i :: 0 <= i < years ==>
              rows[i] == TotalsRow(i + 1, SumOf(sips, SipValueIn(i + 1)), SumOf(sips, SipInvestedIn(i + 1)))
  {
    if sips == [] {
      return initialAmount, initialAmount, [];
    }
    totalFinal := initialAmount;
    totalInvested := initialAmount;
    rows := YearColumn(years);
    for k := 0 to |sips|
      invariant totalFinal == initialAmount + SumOf(sips[..k], SipValueIn(years))
      invariant totalInvested == initialAmount + SumOf(sips[..k], SipInvestedIn(years))
      invariant |rows| == years
      invariant forall i :: 0 <= i < years ==>
                  rows[i] == TotalsRow(i + 1, SumOf(sips[..k], SipValueIn(i + 1)), SumOf(sips[..k], SipInvestedIn(i + 1)))
    {
      var sip := sips[k];
      var finalAmount, invested, sipRows := SipLedger.CalculateSip(sip.amount, sip.rate, years, sip.stepUp, 0.0);
      assert sips[..k + 1] == sips[..k] + [sip];
      SumOfSnoc(sips[..k], sip, SipValueIn(years));
      SumOfSnoc(sips[..k], sip, SipInvestedIn(years));
      totalFinal := totalFinal + finalAmount;
      totalInvested := totalInvested + invested;
      forall i | 0 <= i < years
        ensures SumOf(sips[..k + 1], SipValueIn(i + 1)) == SumOf(sips[..k], SipValueIn(i + 1)) + sipRows[i].currentValue
        ensures SumOf(sips[..k + 1], SipInvestedIn(i + 1)) == SumOf(sips[..k], SipInvestedIn(i + 1)) + sipRows[i].amountInvested
      {
        SumOfSnoc(sips[..k], sip, SipValueIn(i + 1));
        SumOfSnoc(sips[..k], sip, SipInvestedIn(i + 1));
      }
      rows := AddSipRows(rows, sipRows);
    }
    assert sips[..|sips|] == sips;
  }

  /** Every lumpsum is projected without an initial amount over the same
      years; the totals start at the initial amount. */
  method MultipleLumpsums(lumpsums: seq<LumpsumPlan>, years: nat, initialAmount: real)
    returns (totalFinal: real, totalInvested: real, rows: seq<TotalsRow>)
    requires lumpsums != [] ==> years >= 1
    ensures totalFinal == initialAmount + SumOf(lumpsums, LumpsumValueIn(years))
    ensures totalInvested == initialAmount + SumOf(lumpsums, LumpsumAmount)
    ensures lumpsums == [] ==> rows == []
    ensures lumpsums != [] ==> |rows| == years
    ensures lumpsums != [] ==> forall i :: 0 <= i < years ==>
              rows[i] == TotalsRow(i + 1, SumOf(lumpsums, LumpsumValueIn(i + 1)), SumOf(lumpsums, LumpsumAmount))
  {
    if lumpsums == [] {
      return initialAmount, initialAmount, [];
    }
    totalFinal := initialAmount;
    totalInvested := initialAmount;
    rows := YearColumn(years);
    for k := 0 to |lumpsums|
      invariant totalFinal == initialAmount + SumOf(lumpsums[..k], LumpsumValueIn(years))
      invariant totalInvested == initialAmount + SumOf(lumpsums[..k], LumpsumAmount)
      invariant |rows| == years
      invariant forall i :: 0 <= i < years ==>
                  rows[i] == TotalsRow(i + 1, SumOf(lumpsums[..k], LumpsumValueIn(i + 1)), SumOf(lumpsums[..k], LumpsumAmount))
    {
      var lumpsum := lumpsums[k];
      var result := Lumpsum.CalculateLumpsum(lumpsum.amount, lumpsum.rate, years, 0.0);
      assert lumpsums[..k + 1] == lumpsums[..k] + [lumpsum];
      SumOfSnoc(lumpsums[..k], lumpsum, LumpsumValueIn(years));
      SumOfSnoc(lumpsums[..k], lumpsum, LumpsumAmount);
      totalFinal := totalFinal + result.finalAmount;
      totalInvested := totalInvested + result.totalInvested;
      forall i | 0 <= i < years
        ensures SumOf(lumpsums[..k + 1], LumpsumValueIn(i + 1)) == SumOf(lumpsums[..k], LumpsumValueIn(i + 1)) + result.rows[i].currentValue
      {
        SumOfSnoc(lumpsums[..k], lumpsum, LumpsumValueIn(i + 1));
        Lumpsum.RowIsShorterFinal(lumpsum.amount, lumpsum.rate, years, 0.0, i);
      }
      rows := AddLumpsumRows(rows, result.rows);
    }
    assert lumpsums[..|lumpsums|] == lumpsums;
  }

  /** Balance and total withdrawn after running SWPs one after another, each
      over the full period and starting from what the previous one left. */
  datatype ChainState = ChainState(balance: real, withdrawn: real)

  function SwpChain(start: real, swps: seq<SwpPlan>, years: nat): ChainState
  {
    if swps == [] then ChainState(start, 0.0)
    else
      var before := SwpChain(start, swps[..|swps| - 1], years);
      var p := swps[|swps| - 1];
      var st := SwpLedger.SwpAfter(before.balance, p.amount, MonthlyRate(p.rate), 12 * years);
      ChainState(st.balance, before.withdrawn + st.withdrawn)
  }

  /** SWPs draw on the last portfolio value, one after another; the table is
      the first SWP's. Either list empty gives nothing at all. */
  method MultipleSwps(swps: seq<SwpPlan>, portfolioValues: seq<real>, years: nat)
    returns (remaining: real, totalWithdrawn: real, rows: seq<SwpLedger.SwpRow>)
    requires swps != [] && portfolioValues != [] ==> years >= 1
    ensures swps == [] || portfolioValues == [] ==> remaining == 0.0 && totalWithdrawn == 0.0 && rows == []
    ensures swps != [] && portfolioValues != [] ==>
              ChainState(remaining, totalWithdrawn) == SwpChain(portfolioValues[|portfolioValues| - 1], swps, years)
    ensures swps != [] && portfolioValues != [] ==>
              |rows| == years
              && forall i :: 0 <= i < years ==>
                   rows[i] == SwpLedger.SwpYearRow(portfolioValues[|portfolioValues| - 1], swps[0].amount, MonthlyRate(swps[0].rate), i + 1)
  {
    if swps == [] || portfolioValues == [] {
      return 0.0, 0.0, [];
    }
    var start := portfolioValues[|portfolioValues| - 1];
    var currentAmount := start;
    totalWithdrawn := 0.0;
    rows := [];
    for k := 0 to |swps|
      invariant ChainState(currentAmount, totalWithdrawn) == SwpChain(start, swps[..k], years)
      invariant k == 0 ==> rows == []
      invariant k > 0 ==> |rows| == years && forall i :: 0 <= i < years ==>
                  rows[i] == SwpLedger.SwpYearRow(start, swps[0].amount, MonthlyRate(swps[0].rate), i + 1)
    {
      var swp := swps[k];
      var left, withdrawn, swpRows := SwpLedger.CalculateSwp(currentAmount, swp.amount, swp.rate, years);
      assert swps[..k + 1][..k] == swps[..k];
      totalWithdrawn := totalWithdrawn + withdrawn;
      currentAmount := left;
      if k == 0 {
        rows := swpRows;
      }
    }
    assert swps[..|swps|] == swps;
    remaining := currentAmount;
  }

  /** The totals of a SIP list do not depend on the order of the SIPs. */
  lemma SipOrderIndependent(a: seq<SipPlan>, b: seq<SipPlan>, year: nat)
    requires multiset(a) == multiset(b)
    ensures SumOf(a, SipValueIn(year)) == SumOf(b, SipValueIn(year))
    ensures SumOf(a, SipInvestedIn(year)) == SumOf(b, SipInvestedIn(year))
  {
    SumOfPermutation(a, b, SipValueIn(year));
    SumOfPermutation(a, b, SipInvestedIn(year));
  }

  /** The totals of a lumpsum list do not depend on the order of the lumpsums. */
  lemma LumpsumOrderIndependent(a: seq<LumpsumPlan>, b: seq<LumpsumPlan>, year: nat)
    requires multiset(a) == multiset(b)
    ensures SumOf(a, LumpsumValueIn(year)) == SumOf(b, LumpsumValueIn(year))
    ensures SumOf(a, LumpsumAmount) == SumOf(b, LumpsumAmount)
  {
    SumOfPermutation(a, b, LumpsumValueIn(year));
    SumOfPermutation(a, b, LumpsumAmount);
  }

  /** A chain of SWPs never leaves a non-negative start below zero while
      no rate is below -100% a month. */
  lemma {:induction false} ChainNeverNegative(start: real, swps: seq<SwpPlan>, years: nat)
    requires start >= 0.0
    requires forall k :: 0 <= k < |swps| ==> swps[k].rate >= -1200.0
    ensures SwpChain(start, swps, years).balance >= 0.0
  {
    if swps != [] {
      var init := swps[..|swps| - 1];
      ChainNeverNegative(start, init, years);
      var p := swps[|swps| - 1];
      SwpLedger.SwpNeverNegative(SwpChain(start, init, years).balance, p.amount, MonthlyRate(p.rate), 12 * years);
    }
  }

  /** With every rate at 0% the chain conserves money: what remains plus
      everything withdrawn is the starting value. */
  lemma {:induction false} ChainConservationAtZeroRate(start: real, swps: seq<SwpPlan>, years: nat)
    requires forall k :: 0 <= k < |swps| ==> swps[k].rate == 0.0
    ensures SwpChain(start, swps, years).balance + SwpChain(start, swps, years).withdrawn == start
  {
    if swps != [] {
      var init := swps[..|swps| - 1];
      ChainConservationAtZeroRate(start, init, years);
      var p := swps[|swps| - 1];
      assert MonthlyRate(p.rate) == 0.0;
      SwpLedger.SwpConservationAtZeroRate(SwpChain(start, init, years).balance, p.amount, 12 * years);
    }
  }

  /** The start years of the SWPs have no effect on the chain. */
  lemma {:induction false} ChainIgnoresStartYear(start: real, a: seq<SwpPlan>, b: seq<SwpPlan>, years: nat)
    requires |a| == |b|
    requires forall k :: 0 <= k < |a| ==> a[k].amount == b[k].amount && a[k].rate == b[k].rate
    ensures SwpChain(start, a, years) == SwpChain(start, b, years)
  {
    if a != [] {
      ChainIgnoresStartYear(start, a[..|a| - 1], b[..|b| - 1], years);
    }
  }
}
