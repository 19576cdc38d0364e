/** calculate_combined_portfolio_parallel: one phase of the portfolio plan.
    The rollover from the previous phase and the additional lumpsum grow
    together as one lumpsum at their own rate; the SIP list and the other
    lumpsums are added up; SWPs then draw on the total. Each year row is
    stamped with the years elapsed since the plan began, and real values are
    deflated over those cumulative years. */
module Portfolio {
  import opened Growth
  import opened Sums
  import SipLedger
  import SwpLedger
  import Lumpsum
  import Streams
  import Inflation

  datatype Option<T> = None | Some(value: T)

  /** The inputs of one phase. */
  datatype Phase = Phase(
    sips: seq<Streams.SipPlan>,
    lumpsums: seq<Streams.LumpsumPlan>,
    swps: seq<Streams.SwpPlan>,
    years: nat,
    rolloverNominal: real,
    additionalLumpsum: real,
    lumpsumRoi: real,
    inflationRate: real,
    phaseStartYear: nat)

  /** The nominal figures of one year of the phase table. */
  datatype YearFigures = YearFigures(
    year: nat,
    cumulativeYears: nat,
    sipInvested: real,
    sipValue: real,
    rolloverInvested: real,
    additionalInvested: real,
    lumpsumInvested: real,
    lumpsumValue: real,
    withdrawn: real,
    nominalValue: real)

  /** A year of the phase table with its inflation-adjusted value. */
  datatype PortfolioRow = PortfolioRow(figures: YearFigures, realValue: real)

  /** The first row of a table whose year is `year`, if there is one. */
  function Lookup<R>(rows: seq<R>, yearOf: R -> nat, year: nat): (found: Option<R>)
    ensures found.Some? ==> found.value in rows && yearOf(found.value) == year
    ensures found.Some? ==> exists k :: 0 <= k < |rows| && found.value == rows[k] && yearOf(rows[k]) == year &&
                                        forall j :: 0 <= j < k ==> yearOf(rows[j]) != year
    ensures found.None? <==> forall k :: 0 <= k < |rows| ==> yearOf(rows[k]) != year
  {
    if rows == [] then None
    else if yearOf(rows[0]) == year then Some(rows[0])
    else Lookup(rows[1..], yearOf, year)
  }

  /** In a table numbered 1, 2, ... the row of `year` is at position year - 1. */
  lemma {:induction false} LookupNumbered<R>(rows: seq<R>, yearOf: R -> nat, year: nat, first: nat)
    requires forall k :: 0 <= k < |rows| ==> yearOf(rows[k]) == first + k
    requires first <= year < first + |rows|
    ensures Lookup(rows, yearOf, year) == Some(rows[year - first])
  {
    if year != first {
      assert forall k :: 0 <= k < |rows[1..]| ==> yearOf(rows[1..][k]) == (first + 1) + k;
      LookupNumbered(rows[1..], yearOf, year, first + 1);
    }
  }

  function TotalsYear(row: Streams.TotalsRow): nat
  {
    row.year
  }

  function SwpYear(row: SwpLedger.SwpRow): nat
  {
    row.year
  }

  /** The rollover plus the additional lumpsum. */
  function CombinedLumpsum(ph: Phase): real
  {
    ph.rolloverNominal + ph.additionalLumpsum
  }

  /** What the combined lumpsum is worth at the end of `year`: nothing
      unless it is positive. */
  function CombinedLumpsumValue(ph: Phase, year: nat): real
  {
    if CombinedLumpsum(ph) > 0.0 then Compounded(CombinedLumpsum(ph), ph.lumpsumRoi, year) else 0.0
  }

  /** The portfolio before any withdrawal: SIPs, the combined lumpsum and
      the other lumpsums at the end of the phase. */
  function GrossValue(ph: Phase): real
  {
    SumOf(ph.sips, Streams.SipValueIn(ph.years))
    + (CombinedLumpsumValue(ph, ph.years) + SumOf(ph.lumpsums, Streams.LumpsumValueIn(ph.years)))
  }

  /** Everything paid in: the SIP instalments, the combined lumpsum (even
      when it is not positive) and the other lumpsums. */
  function PhaseInvested(ph: Phase): real
  {
    SumOf(ph.sips, Streams.SipInvestedIn(ph.years))
    + (CombinedLumpsum(ph) + SumOf(ph.lumpsums, Streams.LumpsumAmount))
  }

  /** The nominal final value and the total withdrawn: the gross value as it
      is, or what the chain of SWPs leaves of it. */
  function PhaseOutcome(ph: Phase): Streams.ChainState
  {
    if ph.swps == [] then Streams.ChainState(GrossValue(ph), 0.0)
    else Streams.SwpChain(GrossValue(ph), ph.swps, ph.years)
  }

  /** The nominal figures of row `year`. With SWPs, the withdrawn and nominal
      columns are those of the first SWP run on the gross value. */
  function YearFiguresAt(ph: Phase, year: nat): YearFigures
  {
    var sipInvested := SumOf(ph.sips, Streams.SipInvestedIn(year));
    var sipValue := SumOf(ph.sips, Streams.SipValueIn(year));
    var otherInvested := SumOf(ph.lumpsums, Streams.LumpsumAmount);
    var lumpsumValue := CombinedLumpsumValue(ph, year) + SumOf(ph.lumpsums, Streams.LumpsumValueIn(year));
    var first := if ph.swps == [] then None
                 else Some(SwpLedger.SwpYearRow(GrossValue(ph), ph.swps[0].amount, MonthlyRate(ph.swps[0].rate), year));
    YearFigures(year, ph.phaseStartYear + year, sipInvested, sipValue,
                ph.rolloverNominal, ph.additionalLumpsum + otherInvested, CombinedLumpsum(ph) + otherInvested,
                lumpsumValue,
                if first.Some? then first.value.totalWithdrawn else 0.0,
                if first.Some? then first.value.remainingValue else sipValue + lumpsumValue)
  }

  /** The Nominal_Portfolio_Value column of a table: a column projection. */
  function NominalColumn(table: seq<YearFigures>): (col: seq<real>)
    ensures |col| == |table| && forall i :: 0 <= i < |table| ==> col[i] == table[i].nominalValue
  {
    seq(|table|, i requires 0 <= i < |table| => table[i].nominalValue)
  }

  /** The Cumulative_Years column of a table: a column projection. */
  function CumulativeColumn(table: seq<YearFigures>): (col: seq<nat>)
    ensures |col| == |table| && forall i :: 0 <= i < |table| ==> col[i] == table[i].cumulativeYears
  {
    seq(|table|, i requires 0 <= i < |table| => table[i].cumulativeYears)
  }

  /** The SIP columns of one year: the totals row of that year, or zeros
      when there are no SIPs. */
  method ReadSipYear(sips: seq<Streams.SipPlan>, years: nat, sipRows: seq<Streams.TotalsRow>, year: nat)
    returns (sipInvested: real, sipValue: real)
    requires 1 <= year <= years
    requires sips == [] ==> sipRows == []
    requires sips != [] ==> |sipRows| == years && forall i :: 0 <= i < years ==>
               sipRows[i] == Streams.TotalsRow(i + 1, SumOf(sips, Streams.SipValueIn(i + 1)), SumOf(sips, Streams.SipInvestedIn(i + 1)))
    ensures sipInvested == SumOf(sips, Streams.SipInvestedIn(year))
    ensures sipValue == SumOf(sips, Streams.SipValueIn(year))
  {
    sipInvested, sipValue := 0.0, 0.0;
    if sipRows != [] {
      LookupNumbered(sipRows, TotalsYear, year, 1);
      match Lookup(sipRows, TotalsYear, year)
      case Some(row) =>
        sipInvested, sipValue := row.totalInvested, row.totalValue;
      case None =>
    }
  }

  /** The value of the other lumpsums in one year, or zero when there are none. */
  method ReadLumpsumYear(lumpsums: seq<Streams.LumpsumPlan>, years: nat, lumpsumRows: seq<Streams.TotalsRow>, year: nat)
    returns (otherValue: real)
    requires 1 <= year <= years
    requires lumpsums == [] ==> lumpsumRows == []
    requires lumpsums != [] ==> |lumpsumRows| == years && forall i :: 0 <= i < years ==>
               lumpsumRows[i].year == i + 1 && lumpsumRows[i].totalValue == SumOf(lumpsums, Streams.LumpsumValueIn(i + 1))
    ensures otherValue == SumOf(lumpsums, Streams.LumpsumValueIn(year))
  {
    otherValue := 0.0;
    if lumpsumRows != [] {
      LookupNumbered(lumpsumRows, TotalsYear, year, 1);
      match Lookup(lumpsumRows, TotalsYear, year)
      case Some(row) =>
        otherValue := row.totalValue;
      case None =>
    }
  }

  /** The first SWP's row of one year, when there are SWPs. */
  method ReadSwpYear(swps: seq<Streams.SwpPlan>, years: nat, start: real, swpRows: seq<SwpLedger.SwpRow>, year: nat)
    returns (found: Option<SwpLedger.SwpRow>)
    requires 1 <= year <= years
    requires swps == [] ==> swpRows == []
    requires swps != [] ==> |swpRows| == years && forall i :: 0 <= i < years ==>
               swpRows[i] == SwpLedger.SwpYearRow(start, swps[0].amount, MonthlyRate(swps[0].rate), i + 1)
    ensures swps == [] ==> found == None
    ensures swps != [] ==> found == Some(SwpLedger.SwpYearRow(start, swps[0].amount, MonthlyRate(swps[0].rate), year))
  {
    found := None;
    if swpRows != [] {
      LookupNumbered(swpRows, SwpYear, year, 1);
      found := Lookup(swpRows, SwpYear, year);
    }
  }

  /** One year of the phase table, read off the stream tables. */
  method ProjectYear(ph: Phase, year: nat, sipInvested: real, sipValue: real, otherValue: real,
                     first: Option<SwpLedger.SwpRow>, otherInvested: real)
    returns (fig: YearFigures)
    requires sipInvested == SumOf(ph.sips, Streams.SipInvestedIn(year))
    requires sipValue == SumOf(ph.sips, Streams.SipValueIn(year))
    requires otherValue == SumOf(ph.lumpsums, Streams.LumpsumValueIn(year))
    requires otherInvested == SumOf(ph.lumpsums, Streams.LumpsumAmount)
    requires ph.swps == [] ==> first == None
    requires ph.swps != [] ==> first == Some(SwpLedger.SwpYearRow(GrossValue(ph), ph.swps[0].amount, MonthlyRate(ph.swps[0].rate), year))
    ensures fig == YearFiguresAt(ph, year)
  {
    var combinedValue := 0.0;
    if CombinedLumpsum(ph) > 0.0 {
      combinedValue := Compounded(CombinedLumpsum(ph), ph.lumpsumRoi, year);
    }
    var lumpsumValue := combinedValue + otherValue;
    var nominal := sipValue + lumpsumValue;
    var withdrawn := 0.0;
    if first.Some? {
      withdrawn, nominal := first.value.totalWithdrawn, first.value.remainingValue;
    }
    fig := YearFigures(year, ph.phaseStartYear + year, sipInvested, sipValue,
                       ph.rolloverNominal, ph.additionalLumpsum + otherInvested, CombinedLumpsum(ph) + otherInvested,
                       lumpsumValue, withdrawn, nominal);
  }

  /** One phase of the plan. Every phase that is calculated runs for at least
      one year: with no rows the phase table has no columns to read. */
  method CalculateCombinedPortfolio(sips: seq<Streams.SipPlan>, lumpsums: seq<Streams.LumpsumPlan>,
                                    swps: seq<Streams.SwpPlan>, years: nat, rolloverNominal: real,
                                    additionalLumpsum: real, lumpsumRoi: real, inflationRate: real,
                                    phaseStartYear: nat)
    returns (nominalFinal: real, realFinal: real, totalInvested: real, totalWithdrawn: real,
             netBenefit: real, rows: seq<PortfolioRow>)
    requires years >= 1
    ensures var ph := Phase(sips, lumpsums, swps, years, rolloverNominal, additionalLumpsum, lumpsumRoi, inflationRate, phaseStartYear);
            Streams.ChainState(nominalFinal, totalWithdrawn) == PhaseOutcome(ph)
            && totalInvested == PhaseInvested(ph)
            && |rows| == years
            && forall i :: 0 <= i < years ==> rows[i].figures == YearFiguresAt(ph, i + 1)
    ensures netBenefit == nominalFinal + totalWithdrawn - totalInvested
    ensures forall i :: 0 <= i < years ==>
              rows[i].figures.year == i + 1 && rows[i].figures.cumulativeYears == phaseStartYear + i + 1
    ensures inflationRate <= 0.0 ==>
              realFinal == nominalFinal && forall i :: 0 <= i < years ==> rows[i].realValue == rows[i].figures.nominalValue
    ensures inflationRate > 0.0 ==>
              realFinal == rows[years - 1].realValue
              && forall i :: 0 <= i < years ==>
                   rows[i].realValue == Inflation.AdjustForInflation(NominalColumn(Figures(rows)), inflationRate,
                                                                     Inflation.PerValue(CumulativeColumn(Figures(rows))))[i]
  {
    var ph := Phase(sips, lumpsums, swps, years, rolloverNominal, additionalLumpsum, lumpsumRoi, inflationRate, phaseStartYear);
    var sipRows, lumpsumRows, gross, otherInvested;
    sipRows, lumpsumRows, gross, totalInvested, otherInvested := GrowStreams(ph);

    var swpRows: seq<SwpLedger.SwpRow> := [];
    nominalFinal, totalWithdrawn := gross, 0.0;
    if swps != [] {
      nominalFinal, totalWithdrawn, swpRows := Streams.MultipleSwps(swps, [gross], years);
    }

    var table := BuildTable(ph, sipRows, lumpsumRows, swpRows, otherInvested);
    rows, realFinal := AttachRealValues(table, inflationRate, nominalFinal);
    netBenefit := nominalFinal + totalWithdrawn - totalInvested;
  }

  /** The SIP and lumpsum streams of a phase: their year tables, the gross
      value at the end of the phase and the amount invested. */
  method GrowStreams(ph: Phase)
    returns (sipRows: seq<Streams.TotalsRow>, lumpsumRows: seq<Streams.TotalsRow>, gross: real,
             invested: real, otherInvested: real)
    requires ph.years >= 1
    ensures gross == GrossValue(ph) && invested == PhaseInvested(ph)
    ensures otherInvested == SumOf(ph.lumpsums, Streams.LumpsumAmount)
    ensures ph.sips == [] ==> sipRows == []
    ensures ph.sips != [] ==> |sipRows| == ph.years && forall i :: 0 <= i < ph.years ==>
              sipRows[i] == Streams.TotalsRow(i + 1, SumOf(ph.sips, Streams.SipValueIn(i + 1)),
                                              SumOf(ph.sips, Streams.SipInvestedIn(i + 1)))
    ensures ph.lumpsums == [] ==> lumpsumRows == []
    ensures ph.lumpsums != [] ==> |lumpsumRows| == ph.years && forall i :: 0 <= i < ph.years ==>
              lumpsumRows[i].year == i + 1 && lumpsumRows[i].totalValue == SumOf(ph.lumpsums, Streams.LumpsumValueIn(i + 1))
  {
    var sipFinal, sipInvested;
    sipFinal, sipInvested, sipRows := Streams.MultipleSips(ph.sips, ph.years, 0.0);

    var combinedAmount := ph.rolloverNominal + ph.additionalLumpsum;
    var combinedFinal := 0.0;
    if combinedAmount > 0.0 {
      combinedFinal := Compounded(combinedAmount, ph.lumpsumRoi, ph.years);
    }

    var otherFinal;
    otherFinal, otherInvested, lumpsumRows := Streams.MultipleLumpsums(ph.lumpsums, ph.years, 0.0);

    invested := sipInvested + (combinedAmount + otherInvested);
    gross := sipFinal + (combinedFinal + otherFinal);
  }

  /** The nominal phase table, one row per year, read off the stream tables. */
  method BuildTable(ph: Phase, sipRows: seq<Streams.TotalsRow>, lumpsumRows: seq<Streams.TotalsRow>,
                    swpRows: seq<SwpLedger.SwpRow>, otherInvested: real)
    returns (table: seq<YearFigures>)
    requires otherInvested == SumOf(ph.lumpsums, Streams.LumpsumAmount)
    requires ph.sips == [] ==> sipRows == []
    requires ph.sips != [] ==> |sipRows| == ph.years && forall i :: 0 <= i < ph.years ==>
               sipRows[i] == Streams.TotalsRow(i + 1, SumOf(ph.sips, Streams.SipValueIn(i + 1)),
                                               SumOf(ph.sips, Streams.SipInvestedIn(i + 1)))
    requires ph.lumpsums == [] ==> lumpsumRows == []
    requires ph.lumpsums != [] ==> |lumpsumRows| == ph.years && forall i :: 0 <= i < ph.years ==>
               lumpsumRows[i].year == i + 1 && lumpsumRows[i].totalValue == SumOf(ph.lumpsums, Streams.LumpsumValueIn(i + 1))
    requires ph.swps == [] ==> swpRows == []
    requires ph.swps != [] ==> |swpRows| == ph.years && forall i :: 0 <= i < ph.years ==>
               swpRows[i] == SwpLedger.SwpYearRow(GrossValue(ph), ph.swps[0].amount, MonthlyRate(ph.swps[0].rate), i + 1)
    ensures |table| == ph.years
    ensures forall i :: 0 <= i < ph.years ==> table[i] == YearFiguresAt(ph, i + 1)
  {
    table := [];
    for year := 1 to ph.years + 1
      invariant |table| == year - 1
      invariant forall i :: 0 <= i < |table| ==> table[i] == YearFiguresAt(ph, i + 1)
    {
      var sipYearInvested, sipYearValue := ReadSipYear(ph.sips, ph.years, sipRows, year);
      var otherYearValue := ReadLumpsumYear(ph.lumpsums, ph.years, lumpsumRows, year);
      var first := ReadSwpYear(ph.swps, ph.years, GrossValue(ph), swpRows, year);
      var fig := ProjectYear(ph, year, sipYearInvested, sipYearValue, otherYearValue, first, otherInvested);
      table := table + [fig];
    }
  }

  /** The real-value column of a phase table: with a positive inflation rate
      each nominal value deflated over its cumulative years, the final real
      value being the last row's; otherwise the nominal values unchanged. */
  method AttachRealValues(table: seq<YearFigures>, inflationRate: real, nominalFinal: real)
    returns (rows: seq<PortfolioRow>, realFinal: real)
    requires table != []
    ensures Figures(rows) == table
    ensures inflationRate <= 0.0 ==>
              realFinal == nominalFinal && forall i :: 0 <= i < |table| ==> rows[i].realValue == table[i].nominalValue
    ensures inflationRate > 0.0 ==>
              realFinal == rows[|table| - 1].realValue
              && forall i :: 0 <= i < |table| ==>
                   rows[i].realValue == Inflation.AdjustForInflation(NominalColumn(table), inflationRate,
                                                                     Inflation.PerValue(CumulativeColumn(table)))[i]
  {
    if inflationRate > 0.0 {
      var realValues := Inflation.AdjustForInflation(NominalColumn(table), inflationRate,
                                                     Inflation.PerValue(CumulativeColumn(table)));
      rows := seq(|table|, i requires 0 <= i < |table| => PortfolioRow(table[i], realValues[i]));
      realFinal := realValues[|realValues| - 1];
    } else {
      rows := seq(|table|, i requires 0 <= i < |table| => PortfolioRow(table[i], table[i].nominalValue));
      realFinal := nominalFinal;
    }
  }

  /** The nominal figures of each row, without the real values: a column projection. */
  function Figures(rows: seq<PortfolioRow>): (table: seq<YearFigures>)
    ensures |table| == |rows| && forall i :: 0 <= i < |rows| ==> table[i] == rows[i].figures
  {
    seq(|rows|, i requires 0 <= i < |rows| => rows[i].figures)
  }

  /** With no amount negative and no rate below -100% (a month, for SIPs and
      SWPs; a year, for lumpsums), the phase never ends below zero. */
  lemma PhaseNeverNegative(ph: Phase)
    requires forall k :: 0 <= k < |ph.sips| ==> ph.sips[k].amount >= 0.0 && ph.sips[k].rate >= -1200.0
    requires forall k :: 0 <= k < |ph.lumpsums| ==> ph.lumpsums[k].amount >= 0.0 && ph.lumpsums[k].rate >= -100.0
    requires ph.lumpsumRoi >= -100.0
    requires forall k :: 0 <= k < |ph.swps| ==> ph.swps[k].rate >= -1200.0
    ensures GrossValue(ph) >= 0.0
    ensures PhaseOutcome(ph).balance >= 0.0
  {
    forall k | 0 <= k < |ph.sips|
      ensures Streams.SipValueIn(ph.years)(ph.sips[k]) >= 0.0
    {
      var p := ph.sips[k];
      SipLedger.SipNeverNegative(0.0, p.amount, MonthlyRate(p.rate), p.stepUp, 12 * ph.years);
    }
    SumOfNonNegative(ph.sips, Streams.SipValueIn(ph.years));
    forall k | 0 <= k < |ph.lumpsums|
      ensures Streams.LumpsumValueIn(ph.years)(ph.lumpsums[k]) >= 0.0
    {
      var p := ph.lumpsums[k];
      CompoundedNonNegative(p.amount + 0.0, p.rate, ph.years);
    }
    SumOfNonNegative(ph.lumpsums, Streams.LumpsumValueIn(ph.years));
    if CombinedLumpsum(ph) > 0.0 {
      CompoundedNonNegative(CombinedLumpsum(ph), ph.lumpsumRoi, ph.years);
    }
    if ph.swps != [] {
      Streams.ChainNeverNegative(GrossValue(ph), ph.swps, ph.years);
    }
  }

  lemma CompoundedNonNegative(amount: real, ratePercent: real, n: nat)
    requires amount >= 0.0 && ratePercent >= -100.0
    ensures Compounded(amount, ratePercent, n) >= 0.0
  {
    PowNonNegative(AnnualFactor(ratePercent), n);
  }

  /** With every rate at 0%, money is only moved, never made: the final
      value plus the withdrawals is what was invested, except that a combined
      lumpsum that is not positive is counted as invested but valued at 0. */
  lemma ZeroRateNetBenefit(ph: Phase)
    requires forall k :: 0 <= k < |ph.sips| ==> ph.sips[k].rate == 0.0
    requires forall k :: 0 <= k < |ph.lumpsums| ==> ph.lumpsums[k].rate == 0.0
    requires ph.lumpsumRoi == 0.0
    requires forall k :: 0 <= k < |ph.swps| ==> ph.swps[k].rate == 0.0
    ensures PhaseOutcome(ph).balance + PhaseOutcome(ph).withdrawn - PhaseInvested(ph)
            == if CombinedLumpsum(ph) > 0.0 then 0.0 else -CombinedLumpsum(ph)
  {
    forall k | 0 <= k < |ph.sips|
      ensures Streams.SipValueIn(ph.years)(ph.sips[k]) == Streams.SipInvestedIn(ph.years)(ph.sips[k])
    {
      var p := ph.sips[k];
      assert MonthlyRate(p.rate) == 0.0;
      SipLedger.SipAtZeroRate(0.0, p.amount, p.stepUp, 12 * ph.years);
    }
    SumOfPointwise(ph.sips, Streams.SipValueIn(ph.years), Streams.SipInvestedIn(ph.years));
    forall k | 0 <= k < |ph.lumpsums|
      ensures Streams.LumpsumValueIn(ph.years)(ph.lumpsums[k]) == Streams.LumpsumAmount(ph.lumpsums[k])
    {
      var p := ph.lumpsums[k];
      Lumpsum.AtZeroRate(p.amount, ph.years, 0.0);
    }
    SumOfPointwise(ph.lumpsums, Streams.LumpsumValueIn(ph.years), Streams.LumpsumAmount);
    assert AnnualFactor(0.0) == 1.0;
    PowOfOne(ph.years);
    if ph.swps != [] {
      Streams.ChainConservationAtZeroRate(GrossValue(ph), ph.swps, ph.years);
    }
  }

  /** A phase with nothing but the combined lumpsum is calculate_lumpsum of
      the rollover with the additional lumpsum as its initial amount, when
      their sum is positive, and is worth nothing otherwise. */
  lemma RolloverOnlyIsLumpsum(ph: Phase)
    requires ph.sips == [] && ph.lumpsums == [] && ph.swps == []
    ensures CombinedLumpsum(ph) > 0.0 ==>
              PhaseOutcome(ph).balance == Lumpsum.CalculateLumpsum(ph.rolloverNominal, ph.lumpsumRoi, ph.years, ph.additionalLumpsum).finalAmount
    ensures CombinedLumpsum(ph) <= 0.0 ==> PhaseOutcome(ph).balance == 0.0
    ensures PhaseInvested(ph) == Lumpsum.CalculateLumpsum(ph.rolloverNominal, ph.lumpsumRoi, ph.years, ph.additionalLumpsum).totalInvested
    ensures PhaseOutcome(ph).withdrawn == 0.0
  {
    assert SumOf(ph.sips, Streams.SipValueIn(ph.years)) == 0.0;
    assert SumOf(ph.lumpsums, Streams.LumpsumValueIn(ph.years)) == 0.0;
    assert SumOf(ph.sips, Streams.SipInvestedIn(ph.years)) == 0.0;
    assert SumOf(ph.lumpsums, Streams.LumpsumAmount) == 0.0;
  }

  /** Without SWPs, or with exactly one, the last row of the phase table
      shows the returned nominal final value and total withdrawn. */
  lemma LastRowIsFinal(ph: Phase)
    requires ph.years >= 1 && |ph.swps| <= 1
    ensures YearFiguresAt(ph, ph.years).nominalValue == PhaseOutcome(ph).balance
    ensures YearFiguresAt(ph, ph.years).withdrawn == PhaseOutcome(ph).withdrawn
  {
    if |ph.swps| == 1 {
      var g, p := GrossValue(ph), ph.swps[0];
      assert ph.swps[..0] == [];
      assert Streams.SwpChain(g, ph.swps[..0], ph.years) == Streams.ChainState(g, 0.0);
      var st := SwpLedger.SwpAfter(g, p.amount, MonthlyRate(p.rate), 12 * ph.years);
      assert Streams.SwpChain(g, ph.swps, ph.years) == Streams.ChainState(st.balance, 0.0 + st.withdrawn);
    }
  }
}
