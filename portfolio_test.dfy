/** The portfolio test script's own versions of the multiple-SIP and
    multiple-lumpsum totals and of the inflation adjustment, each tied to the
    calculator's definitions. */
module PortfolioTest {
  import opened Growth
  import opened Sums
  import SipLedger
  import Lumpsum
  import Inflation
  import Streams

  /** A SIP as the test describes it: its own return, duration and step-up. */
  datatype TestSip = TestSip(monthlySip: real, annualReturn: real, years: nat, stepUp: real)

  /** A lumpsum as the test describes it. */
  datatype TestLumpsum = TestLumpsum(amount: real, annualReturn: real, years: nat)

  /** What calculate_sip returns as the final amount for this SIP, started
      from nothing. */
  function SipFinal(s: TestSip): real
  {
    SipLedger.SipBalance(0.0, s.monthlySip, MonthlyRate(s.annualReturn), s.stepUp, 12 * s.years)
  }

  /** What calculate_lumpsum returns as the final amount for this lumpsum. */
  function LumpsumFinal(l: TestLumpsum): real
  {
    Lumpsum.CalculateLumpsum(l.amount, l.annualReturn, l.years, 0.0).finalAmount
  }

  /** Twelve months of a year, the instalment fixed within the year. */
  method PlayYear(amount: real, currentSip: real, monthlyReturn: real, ghost s: TestSip, ghost year: nat)
    returns (amount': real)
    requires monthlyReturn == MonthlyRate(s.annualReturn)
    requires amount == SipLedger.SipBalance(0.0, s.monthlySip, monthlyReturn, s.stepUp, 12 * year)
    requires currentSip == SipLedger.Instalment(s.monthlySip, s.stepUp, 12 * year)
    ensures amount' == SipLedger.SipBalance(0.0, s.monthlySip, monthlyReturn, s.stepUp, 12 * year + 12)
  {
    amount' := amount;
    for month := 0 to 12
      invariant amount' == SipLedger.SipBalance(0.0, s.monthlySip, monthlyReturn, s.stepUp, 12 * year + month)
    {
      InstalmentWithinYear(s.monthlySip, s.stepUp, year, month);
      amount' := Grown(amount' + currentSip, monthlyReturn);
    }
  }

  /** The test's nested year/month loop over each SIP, added up. */
  method CalculateMultipleSips(sips: seq<TestSip>) returns (totalAmount: real)
    ensures totalAmount == SumOf(sips, SipFinal)
  {
    totalAmount := 0.0;
    for k := 0 to |sips|
      invariant totalAmount == SumOf(sips[..k], SipFinal)
    {
      var sip := sips[k];
      var amount := SipAmount(sip);
      assert sips[..k + 1] == sips[..k] + [sip];
      SumOfSnoc(sips[..k], sip, SipFinal);
      totalAmount := totalAmount + amount;
    }
    assert sips[..|sips|] == sips;
  }

  /** One SIP of the test, year by year, the instalment stepped up after
      each year. */
  method SipAmount(sip: TestSip) returns (amount: real)
    ensures amount == SipFinal(sip)
  {
    var monthlySip := sip.monthlySip;
    var annualReturn := sip.annualReturn / 100.0;
    var monthlyReturn := annualReturn / 12.0;
    var years := sip.years;
    var stepUp := sip.stepUp / 100.0;

    var currentSip := monthlySip;
    amount := 0.0;
    for year := 0 to years
      invariant amount == SipLedger.SipBalance(0.0, monthlySip, monthlyReturn, sip.stepUp, 12 * year)
      invariant currentSip == SipLedger.Instalment(monthlySip, sip.stepUp, 12 * year)
    {
      amount := PlayYear(amount, currentSip, monthlyReturn, sip, year);
      ghost var before := currentSip;
      if stepUp > 0.0 {
        currentSip := currentSip * (1.0 + stepUp);
      }
      InstalmentAfterYear(monthlySip, sip.stepUp, year, before, currentSip);
    }
  }

  /** After a year's twelfth month the instalment is stepped up once, when
      there is a step-up. */
  lemma InstalmentAfterYear(amount: real, stepUp: real, year: nat, before: real, after: real)
    requires before == SipLedger.Instalment(amount, stepUp, 12 * year)
    requires after == if stepUp / 100.0 > 0.0 then before * (1.0 + stepUp / 100.0) else before
    ensures after == SipLedger.Instalment(amount, stepUp, 12 * (year + 1))
  {
    InstalmentWithinYear(amount, stepUp, year, 11);
    assert 12 * (year + 1) == 12 * year + 11 + 1;
    assert 12 * (year + 1) % 12 == 0;
  }

  /** Within a year the instalment does not change: the step-up fires only
      after the twelfth month. */
  lemma {:induction false} InstalmentWithinYear(amount: real, stepUp: real, year: nat, month: nat)
    requires month < 12
    ensures SipLedger.Instalment(amount, stepUp, 12 * year + month) == SipLedger.Instalment(amount, stepUp, 12 * year)
  {
    if month > 0 {
      InstalmentWithinYear(amount, stepUp, year, month - 1);
      MonthOfYear(year, month);
    }
  }

  lemma MonthOfYear(year: nat, month: nat)
    requires 0 < month < 12
    ensures (12 * year + month) % 12 != 0
  {
  }

  /** The test's lumpsum loop, added up. */
  method CalculateMultipleLumpsums(lumpsums: seq<TestLumpsum>) returns (totalAmount: real)
    ensures totalAmount == SumOf(lumpsums, LumpsumFinal)
  {
    totalAmount := 0.0;
    for k := 0 to |lumpsums|
      invariant totalAmount == SumOf(lumpsums[..k], LumpsumFinal)
    {
      var lumpsum := lumpsums[k];
      var amount := lumpsum.amount;
      var annualReturn := lumpsum.annualReturn / 100.0;
      var years := lumpsum.years;
      var finalAmount := amount * Pow(1.0 + annualReturn, years);
      assert finalAmount == LumpsumFinal(lumpsum);
      assert lumpsums[..k + 1] == lumpsums[..k] + [lumpsum];
      SumOfSnoc(lumpsums[..k], lumpsum, LumpsumFinal);
      totalAmount := totalAmount + finalAmount;
    }
    assert lumpsums[..|lumpsums|] == lumpsums;
  }

  /** The test's inflation adjustment: no short cut for a rate that is not
      positive, so its year list must cover every value whatever the rate, and
      a rate of -100% divides by zero after any year. */
  method ApplyInflationAdjustment(nominalValues: seq<real>, inflationRate: real, years: Inflation.YearIndex)
    returns (realValues: seq<real>)
    requires Inflation.Covers(years, |nominalValues|)
    requires inflationRate == -100.0 ==> forall i :: 0 <= i < |nominalValues| ==> Inflation.YearAt(years, i) == 0
    ensures |realValues| == |nominalValues|
    ensures forall i :: 0 <= i < |nominalValues| ==>
              realValues[i] * Inflation.Deflator(inflationRate, Inflation.YearAt(years, i)) == nominalValues[i]
    ensures inflationRate > 0.0 ==> realValues == Inflation.AdjustForInflation(nominalValues, inflationRate, years)
    ensures inflationRate == 0.0 ==> realValues == nominalValues
  {
    var rate := inflationRate / 100.0;
    realValues := [];
    for i := 0 to |nominalValues|
      invariant |realValues| == i
      invariant inflationRate > 0.0 ==> forall j :: 0 <= j < i ==>
                  realValues[j] == Inflation.AdjustForInflation(nominalValues, inflationRate, years)[j]
      invariant forall j :: 0 <= j < i ==>
                  realValues[j] * Inflation.Deflator(inflationRate, Inflation.YearAt(years, j)) == nominalValues[j]
    {
      var year := if years.PerValue? then years.years[i] else years.year;
      assert year == Inflation.YearAt(years, i);
      var realValue := Deflate(nominalValues[i], rate, inflationRate, year);
      realValues := realValues + [realValue];
    }
    if inflationRate == 0.0 {
      forall i | 0 <= i < |nominalValues|
        ensures realValues[i] == nominalValues[i]
      {
        PowOfOne(Inflation.YearAt(years, i));
      }
    }
  }

  /** One nominal value divided by the inflation factor of its year. */
  method Deflate(nominal: real, rate: real, inflationRate: real, year: nat) returns (realValue: real)
    requires rate == inflationRate / 100.0
    requires inflationRate == -100.0 ==> year == 0
    ensures realValue * Inflation.Deflator(inflationRate, year) == nominal
    ensures inflationRate > 0.0 ==> realValue == nominal / Inflation.Deflator(inflationRate, year)
  {
    DeflatorNonZero(inflationRate, year);
    var divisor := Pow(1.0 + rate, year);
    assert divisor == Inflation.Deflator(inflationRate, year);
    realValue := nominal / divisor;
    Inflation.DividedBack(nominal, divisor);
  }

  lemma DeflatorNonZero(inflationRate: real, year: nat)
    requires inflationRate == -100.0 ==> year == 0
    ensures Inflation.Deflator(inflationRate, year) != 0.0
  {
    if inflationRate != -100.0 {
      PowNonZero(AnnualFactor(inflationRate), year);
    }
  }

  /** At a 0% return with no step-up, a SIP is worth exactly what was paid:
      the monthly amount times twelve times the years. */
  lemma ZeroReturnSip(s: TestSip)
    requires s.annualReturn == 0.0 && s.stepUp == 0.0
    ensures SipFinal(s) == (12 * s.years) as real * s.monthlySip
  {
    assert MonthlyRate(0.0) == 0.0;
    SipLedger.SipAtZeroRate(0.0, s.monthlySip, 0.0, 12 * s.years);
    SipLedger.ContributionSumFlat(s.monthlySip, 0.0, 12 * s.years);
  }

  /** With a return and a monthly amount that are not negative, the running
      amount never falls from one month to the next. */
  lemma RunningAmountNeverFalls(s: TestSip, month: nat)
    requires s.annualReturn >= 0.0 && s.monthlySip >= 0.0
    ensures SipLedger.SipBalance(0.0, s.monthlySip, MonthlyRate(s.annualReturn), s.stepUp, month)
            <= SipLedger.SipBalance(0.0, s.monthlySip, MonthlyRate(s.annualReturn), s.stepUp, month + 1)
  {
    SipLedger.SipBalanceGrows(0.0, s.monthlySip, MonthlyRate(s.annualReturn), s.stepUp, month);
  }

  /** The test's SIP total is the calculator's: each SIP ends where
      calculate_multiple_sips puts it, and the total does not depend on the
      order of the SIPs. */
  lemma SipTotalsAgree(sips: seq<TestSip>, reordered: seq<TestSip>, years: nat)
    requires multiset(sips) == multiset(reordered)
    requires forall k :: 0 <= k < |sips| ==> sips[k].years == years
    ensures SumOf(sips, SipFinal) == SumOf(reordered, SipFinal)
    ensures SumOf(sips, SipFinal) == SumOf(SipPlans(sips), Streams.SipValueIn(years))
  {
    SumOfPermutation(sips, reordered, SipFinal);
    PlansAgree(sips, years);
  }

  /** The test's SIPs as the calculator's SIP list, field by field: plumbing
      for PlansAgree. */
  function SipPlans(sips: seq<TestSip>): (plans: seq<Streams.SipPlan>)
    ensures |plans| == |sips|
    ensures forall k :: 0 <= k < |sips| ==>
              plans[k] == Streams.SipPlan(sips[k].monthlySip, sips[k].annualReturn, sips[k].stepUp)
  {
    seq(|sips|, k requires 0 <= k < |sips| => Streams.SipPlan(sips[k].monthlySip, sips[k].annualReturn, sips[k].stepUp))
  }

  lemma {:induction false} PlansAgree(sips: seq<TestSip>, years: nat)
    requires forall k :: 0 <= k < |sips| ==> sips[k].years == years
    ensures SumOf(sips, SipFinal) == SumOf(SipPlans(sips), Streams.SipValueIn(years))
  {
    if sips != [] {
      var init := sips[..|sips| - 1];
      PlansAgree(init, years);
      assert SipPlans(sips)[..|sips| - 1] == SipPlans(init);
    }
  }

  /** The test's lumpsum total does not depend on the order of the lumpsums. */
  lemma LumpsumTotalsAgree(lumpsums: seq<TestLumpsum>, reordered: seq<TestLumpsum>)
    requires multiset(lumpsums) == multiset(reordered)
    ensures SumOf(lumpsums, LumpsumFinal) == SumOf(reordered, LumpsumFinal)
  {
    SumOfPermutation(lumpsums, reordered, LumpsumFinal);
  }
}
