/** The combined ledger of calculate_combined_investment: a starting balance
    (rollover plus lumpsum), an optional stepped-up SIP instalment added each
    month, monthly growth, and an optional all-or-nothing SWP withdrawal that
    only starts in a given year. */
module CombinedLedger {
  import opened Growth
  import SipLedger
  import SwpLedger

  /** One year-end row of the ledger. */
  datatype CombinedRow = CombinedRow(
    year: nat,
    sipInvested: real,
    lumpsumInvested: real,
    totalInvested: real,
    currentValue: real,
    totalWithdrawn: real,
    netReturns: real)

  /** The parameters that stay fixed for the whole run: the SIP amount and
      its step-up percentage, the monthly rate, the SWP withdrawal and the
      year it starts in. */
  datatype Terms = Terms(sipAmount: real, stepUp: real, monthlyRate: real, withdrawal: real, startYear: int)

  /** Balance, SIP money paid in, the instalment due next, number of
      withdrawals made and their total. */
  datatype CombinedState = CombinedState(balance: real, sipInvested: real, currentSip: real, withdrawals: nat, withdrawn: real)

  /** Whether month `month` (1-based) is open for a withdrawal: the SWP is
      switched on and the month's year (month - 1) div 12 + 1 has reached
      the start year. */
  predicate WithdrawsIn(t: Terms, month: nat)
  {
    t.withdrawal > 0.0 && (month - 1) / 12 + 1 >= t.startYear
  }

  /** What a month pays into the SIP, given the instalment due now. */
  function PaidIn(t: Terms, currentSip: real): real
  {
    if t.sipAmount > 0.0 then currentSip else 0.0
  }

  /** Month `month` (1-based): the SIP instalment (when the SIP amount is
      positive) is paid in, the balance grows, a withdrawal is made when the
      month is open for one and the grown balance covers it, and after every
      twelfth month the instalment is stepped up. */
  function CombinedMonth(t: Terms, prev: CombinedState, month: nat): CombinedState
  {
    var c := PaidIn(t, prev.currentSip);
    var grown := Grown(prev.balance + c, t.monthlyRate);
    var next := if month % 12 == 0 && t.stepUp > 0.0 && t.sipAmount > 0.0 then SteppedUp(prev.currentSip, t.stepUp)
                else prev.currentSip;
    if WithdrawsIn(t, month) && grown >= t.withdrawal then
      CombinedState(grown - t.withdrawal, prev.sipInvested + c, next, prev.withdrawals + 1, prev.withdrawn + t.withdrawal)
    else
      CombinedState(grown, prev.sipInvested + c, next, prev.withdrawals, prev.withdrawn)
  }

  /** The state after `months` months, starting from balance `start`. */
  function CombinedAfter(t: Terms, start: real, months: nat): CombinedState
  {
    if months == 0 then CombinedState(start, 0.0, t.sipAmount, 0, 0.0)
    else CombinedMonth(t, CombinedAfter(t, start, months - 1), months)
  }

  /** The row recorded at the end of `year`; `base` is the rollover plus the lumpsum. */
  function CombinedYearRow(t: Terms, base: real, year: nat): CombinedRow
  {
    var st := CombinedAfter(t, base, 12 * year);
    var invested := base + st.sipInvested;
    CombinedRow(year, st.sipInvested, base, invested, st.balance, st.withdrawn, st.balance + st.withdrawn - invested)
  }

  method CalculateCombinedInvestment(sipAmount: real, lumpsumAmount: real, annualRate: real, years: nat,
                                     stepUp: real, initialAmount: real, swpWithdrawal: real, swpStartYear: int)
    returns (finalAmount: real, totalInvested: real, totalWithdrawn: real, rows: seq<CombinedRow>)
    ensures finalAmount == CombinedAfter(Terms(sipAmount, stepUp, MonthlyRate(annualRate), swpWithdrawal, swpStartYear),
                                         initialAmount + lumpsumAmount, 12 * years).balance
    ensures totalInvested == initialAmount + lumpsumAmount
                             + CombinedAfter(Terms(sipAmount, stepUp, MonthlyRate(annualRate), swpWithdrawal, swpStartYear),
                                             initialAmount + lumpsumAmount, 12 * years).sipInvested
    ensures totalWithdrawn == CombinedAfter(Terms(sipAmount, stepUp, MonthlyRate(annualRate), swpWithdrawal, swpStartYear),
                                            initialAmount + lumpsumAmount, 12 * years).withdrawn
    ensures |rows| == years
    ensures forall i :: 0 <= i < years ==>
              rows[i] == CombinedYearRow(Terms(sipAmount, stepUp, MonthlyRate(annualRate), swpWithdrawal, swpStartYear),
                                         initialAmount + lumpsumAmount, i + 1)
    ensures forall i :: 0 <= i < years ==>
              rows[i].year == i + 1
              && rows[i].totalInvested == rows[i].lumpsumInvested + rows[i].sipInvested
              && rows[i].netReturns == rows[i].currentValue + rows[i].totalWithdrawn - rows[i].totalInvested
    ensures years > 0 ==>
              rows[years - 1].currentValue == finalAmount && rows[years - 1].totalInvested == totalInvested
              && rows[years - 1].totalWithdrawn == totalWithdrawn
  {
    var monthlyRate := MonthlyRate(annualRate);
    var totalMonths := years * 12;
    ghost var t := Terms(sipAmount, stepUp, monthlyRate, swpWithdrawal, swpStartYear);
    ghost var base := initialAmount + lumpsumAmount;

    rows := [];
    var currentAmount := initialAmount + lumpsumAmount;
    totalInvested := initialAmount + lumpsumAmount;
    var totalSipInvested := 0.0;
    totalWithdrawn := 0.0;
    var currentSip := sipAmount;
    ghost var made: nat := 0;

    for month := 1 to totalMonths + 1
      invariant CombinedState(currentAmount, totalSipInvested, currentSip, made, totalWithdrawn)
                == CombinedAfter(t, base, month - 1)
      invariant totalInvested == base + totalSipInvested
      invariant |rows| == (month - 1) / 12
      invariant forall i :: 0 <= i < |rows| ==> rows[i] == CombinedYearRow(t, base, i + 1)
    {
      MonthDivStep(month);
      currentAmount, totalInvested, totalSipInvested, currentSip, totalWithdrawn, made :=
        PlayMonth(sipAmount, stepUp, monthlyRate, swpWithdrawal, swpStartYear, month,
                  currentAmount, totalInvested, totalSipInvested, currentSip, totalWithdrawn, made);

      if month % 12 == 0 {
        var year := month / 12;
        rows := rows + [CombinedRow(year, totalSipInvested, lumpsumAmount + initialAmount, totalInvested,
                                    currentAmount, totalWithdrawn, currentAmount + totalWithdrawn - totalInvested)];
      }
    }
    finalAmount := currentAmount;
  }

  /** The body of the month loop of calculate_combined_investment, up to the
      year-end row. */
  method PlayMonth(sipAmount: real, stepUp: real, monthlyRate: real, swpWithdrawal: real, swpStartYear: int, month: nat,
                   amount: real, invested: real, sipInvested: real, sip: real, withdrawn: real, ghost made: nat)
    returns (currentAmount: real, totalInvested: real, totalSipInvested: real, currentSip: real, totalWithdrawn: real,
             ghost made': nat)
    ensures CombinedState(currentAmount, totalSipInvested, currentSip, made', totalWithdrawn)
            == CombinedMonth(Terms(sipAmount, stepUp, monthlyRate, swpWithdrawal, swpStartYear),
                             CombinedState(amount, sipInvested, sip, made, withdrawn), month)
    ensures totalInvested - totalSipInvested == invested - sipInvested
  {
    currentAmount, totalInvested, totalSipInvested, currentSip, totalWithdrawn, made' :=
      amount, invested, sipInvested, sip, withdrawn, made;
    if sipAmount > 0.0 {
      totalSipInvested := totalSipInvested + currentSip;
      totalInvested := totalInvested + currentSip;
      currentAmount := currentAmount + currentSip;
    }

    currentAmount := Grown(currentAmount, monthlyRate);

    var currentYear := (month - 1) / 12 + 1;
    if swpWithdrawal > 0.0 && currentYear >= swpStartYear {
      if currentAmount >= swpWithdrawal {
        currentAmount := currentAmount - swpWithdrawal;
        totalWithdrawn := totalWithdrawn + swpWithdrawal;
        made' := made' + 1;
      }
    }

    if month % 12 == 0 && stepUp > 0.0 && sipAmount > 0.0 {
      currentSip := SteppedUp(currentSip, stepUp);
    }
  }

  /** No withdrawal is made before the start year: the first
      12 * (startYear - 1) months leave the withdrawal total at zero. */
  lemma {:induction false} CombinedNoEarlyWithdrawal(t: Terms, start: real, months: nat)
    requires months <= 12 * (t.startYear - 1)
    ensures CombinedAfter(t, start, months).withdrawals == 0
    ensures CombinedAfter(t, start, months).withdrawn == 0.0
  {
    if months > 0 {
      CombinedNoEarlyWithdrawal(t, start, months - 1);
      BeforeStartYear(months, t.startYear);
    }
  }

  /** A month within the first 12 * (startYear - 1) lies in a year before startYear. */
  lemma BeforeStartYear(month: nat, startYear: int)
    requires 1 <= month <= 12 * (startYear - 1)
    ensures (month - 1) / 12 + 1 < startYear
  {
  }

  /** Each withdrawal is taken whole, at most once a month: the total
      withdrawn is k times the monthly withdrawal with k <= months. */
  lemma CombinedWithdrawalsCounted(t: Terms, start: real, months: nat)
    ensures CombinedAfter(t, start, months).withdrawals <= months
    ensures CombinedAfter(t, start, months).withdrawn == CombinedAfter(t, start, months).withdrawals as real * t.withdrawal
  {
    var st := CombinedAfter(t, start, months);
    CombinedWithdrawalsRepeated(t, start, months);
    RepeatedIsProduct(st.withdrawals, t.withdrawal);
  }

  lemma {:induction false} CombinedWithdrawalsRepeated(t: Terms, start: real, months: nat)
    ensures CombinedAfter(t, start, months).withdrawals <= months
    ensures CombinedAfter(t, start, months).withdrawn == Repeated(CombinedAfter(t, start, months).withdrawals, t.withdrawal)
  {
    if months > 0 {
      CombinedWithdrawalsRepeated(t, start, months - 1);
    }
  }

  /** With a positive SIP amount the instalment due after `months` months is
      the SIP ledger's stepped-up instalment. */
  lemma {:induction false} CombinedInstalment(t: Terms, start: real, months: nat)
    requires t.sipAmount > 0.0
    ensures CombinedAfter(t, start, months).currentSip == SipLedger.Instalment(t.sipAmount, t.stepUp, months)
  {
    if months > 0 {
      CombinedInstalment(t, start, months - 1);
    }
  }

  /** With a non-negative start and a monthly rate of at least -100% the
      balance never goes negative. */
  lemma {:induction false} CombinedNeverNegative(t: Terms, start: real, months: nat)
    requires start >= 0.0 && t.monthlyRate >= -1.0
    ensures CombinedAfter(t, start, months).balance >= 0.0
  {
    if months > 0 {
      CombinedNeverNegative(t, start, months - 1);
      var prev := CombinedAfter(t, start, months - 1);
      if t.sipAmount > 0.0 {
        CombinedInstalment(t, start, months - 1);
        SipLedger.InstalmentNonNegative(t.sipAmount, t.stepUp, months - 1);
      }
      GrownNonNegative(prev.balance + PaidIn(t, prev.currentSip), t.monthlyRate);
    }
  }

  /** Without an SWP and with a positive SIP amount the combined ledger is
      the SIP ledger started from the rollover plus the lumpsum. */
  lemma {:induction false} CombinedWithoutSwp(t: Terms, start: real, months: nat)
    requires t.withdrawal <= 0.0 && t.sipAmount > 0.0
    ensures CombinedAfter(t, start, months).balance == SipLedger.SipBalance(start, t.sipAmount, t.monthlyRate, t.stepUp, months)
    ensures CombinedAfter(t, start, months).sipInvested == SipLedger.ContributionSum(t.sipAmount, t.stepUp, months)
    ensures CombinedAfter(t, start, months).withdrawn == 0.0
  {
    if months > 0 {
      CombinedWithoutSwp(t, start, months - 1);
      CombinedInstalment(t, start, months - 1);
    }
  }

  /** Without a SIP and with an SWP that starts in year 1 or earlier the
      combined ledger is the SWP ledger. */
  lemma {:induction false} CombinedWithoutSip(t: Terms, start: real, months: nat)
    requires t.sipAmount <= 0.0 && t.withdrawal > 0.0 && t.startYear <= 1
    ensures CombinedAfter(t, start, months).balance == SwpLedger.SwpAfter(start, t.withdrawal, t.monthlyRate, months).balance
    ensures CombinedAfter(t, start, months).withdrawn == SwpLedger.SwpAfter(start, t.withdrawal, t.monthlyRate, months).withdrawn
    ensures CombinedAfter(t, start, months).sipInvested == 0.0
  {
    if months > 0 {
      CombinedWithoutSip(t, start, months - 1);
    }
  }
}
