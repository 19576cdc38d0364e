/** The SWP (systematic withdrawal plan) ledger of calculate_swp: each month
    the balance grows first, then the withdrawal is taken whole if the grown
    balance covers it and skipped otherwise. */
module SwpLedger {
  import opened Growth

  /** One year-end row of the ledger. */
  datatype SwpRow = SwpRow(year: nat, remainingValue: real, totalWithdrawn: real, annualWithdrawal: real)

  /** Balance, number of withdrawals made so far and their total. */
  datatype SwpState = SwpState(balance: real, withdrawals: nat, withdrawn: real)

  /** One month at monthly rate r: growth first, then an all-or-nothing withdrawal. */
  function SwpMonth(st: SwpState, withdrawal: real, r: real): SwpState
  {
    var grown := Grown(st.balance, r);
    if grown >= withdrawal then SwpState(grown - withdrawal, st.withdrawals + 1, st.withdrawn + withdrawal)
    else SwpState(grown, st.withdrawals, st.withdrawn)
  }

  /** The state after `months` months, starting from `initial`. */
  function SwpAfter(initial: real, withdrawal: real, r: real, months: nat): SwpState
  {
    if months == 0 then SwpState(initial, 0, 0.0)
    else SwpMonth(SwpAfter(initial, withdrawal, r, months - 1), withdrawal, r)
  }

  /** The row recorded at the end of `year`. */
  function SwpYearRow(initial: real, withdrawal: real, r: real, year: nat): SwpRow
  {
    var st := SwpAfter(initial, withdrawal, r, 12 * year);
    SwpRow(year, st.balance, st.withdrawn, withdrawal * 12.0)
  }

  method CalculateSwp(initialAmount: real, monthlyWithdrawal: real, annualRate: real, years: nat)
    returns (remainingAmount: real, totalWithdrawn: real, rows: seq<SwpRow>)
    ensures remainingAmount == SwpAfter(initialAmount, monthlyWithdrawal, MonthlyRate(annualRate), 12 * years).balance
    ensures totalWithdrawn == SwpAfter(initialAmount, monthlyWithdrawal, MonthlyRate(annualRate), 12 * years).withdrawn
    ensures |rows| == years
    ensures forall i :: 0 <= i < years ==> rows[i] == SwpYearRow(initialAmount, monthlyWithdrawal, MonthlyRate(annualRate), i + 1)
    ensures years > 0 ==> rows[years - 1].remainingValue == remainingAmount && rows[years - 1].totalWithdrawn == totalWithdrawn
    ensures initialAmount >= 0.0 && annualRate >= -1200.0 ==>
              remainingAmount >= 0.0 && forall i :: 0 <= i < years ==> rows[i].remainingValue >= 0.0
  {
    var monthlyRate := MonthlyRate(annualRate);
    var totalMonths := years * 12;

    rows := [];
    var currentAmount := initialAmount;
    totalWithdrawn := 0.0;
    ghost var made: nat := 0;

    for month := 1 to totalMonths + 1
      invariant SwpState(currentAmount, made, totalWithdrawn) == SwpAfter(initialAmount, monthlyWithdrawal, monthlyRate, month - 1)
      invariant |rows| == (month - 1) / 12
      invariant forall i :: 0 <= i < |rows| ==> rows[i] == SwpYearRow(initialAmount, monthlyWithdrawal, monthlyRate, i + 1)
    {
      MonthDivStep(month);
      ghost var before := SwpState(currentAmount, made, totalWithdrawn);
      currentAmount := Grown(currentAmount, monthlyRate);

      if currentAmount >= monthlyWithdrawal {
        currentAmount := currentAmount - monthlyWithdrawal;
        totalWithdrawn := totalWithdrawn + monthlyWithdrawal;
        made := made + 1;
      }
      assert SwpState(currentAmount, made, totalWithdrawn)
             == SwpMonth(before, monthlyWithdrawal, monthlyRate)
             == SwpAfter(initialAmount, monthlyWithdrawal, monthlyRate, month);

      if month % 12 == 0 {
        var year := month / 12;
        rows := rows + [SwpRow(year, currentAmount, totalWithdrawn, monthlyWithdrawal * 12.0)];
      }
    }
    remainingAmount := currentAmount;

    assert initialAmount >= 0.0 && annualRate >= -1200.0 ==>
             remainingAmount >= 0.0 && forall i :: 0 <= i < years ==> rows[i].remainingValue >= 0.0 by {
      if initialAmount >= 0.0 && annualRate >= -1200.0 {
        SwpNeverNegative(initialAmount, monthlyWithdrawal, monthlyRate, totalMonths);
        forall i | 0 <= i < years
          ensures rows[i].remainingValue >= 0.0
        {
          SwpNeverNegative(initialAmount, monthlyWithdrawal, monthlyRate, 12 * (i + 1));
        }
      }
    }
  }

  /** A withdrawal never drives a non-negative balance below zero. */
  lemma {:induction false} SwpNeverNegative(initial: real, withdrawal: real, r: real, months: nat)
    requires initial >= 0.0 && r >= -1.0
    ensures SwpAfter(initial, withdrawal, r, months).balance >= 0.0
  {
    if months > 0 {
      SwpNeverNegative(initial, withdrawal, r, months - 1);
      GrownNonNegative(SwpAfter(initial, withdrawal, r, months - 1).balance, r);
    }
  }

  /** Each withdrawal is taken whole, at most once a month: the total
      withdrawn is k times the monthly withdrawal with k <= months. */
  lemma SwpWithdrawalsCounted(initial: real, withdrawal: real, r: real, months: nat)
    ensures SwpAfter(initial, withdrawal, r, months).withdrawals <= months
    ensures SwpAfter(initial, withdrawal, r, months).withdrawn
            == SwpAfter(initial, withdrawal, r, months).withdrawals as real * withdrawal
  {
    SwpWithdrawalsRepeated(initial, withdrawal, r, months);
    RepeatedIsProduct(SwpAfter(initial, withdrawal, r, months).withdrawals, withdrawal);
  }

  lemma {:induction false} SwpWithdrawalsRepeated(initial: real, withdrawal: real, r: real, months: nat)
    ensures SwpAfter(initial, withdrawal, r, months).withdrawals <= months
    ensures SwpAfter(initial, withdrawal, r, months).withdrawn
            == Repeated(SwpAfter(initial, withdrawal, r, months).withdrawals, withdrawal)
  {
    if months > 0 {
      SwpWithdrawalsRepeated(initial, withdrawal, r, months - 1);
    }
  }

  /** At a 0% rate the money is conserved: what remains plus what was
      withdrawn is what was there at the start. */
  lemma {:induction false} SwpConservationAtZeroRate(initial: real, withdrawal: real, months: nat)
    ensures SwpAfter(initial, withdrawal, 0.0, months).balance + SwpAfter(initial, withdrawal, 0.0, months).withdrawn == initial
  {
    if months > 0 {
      SwpConservationAtZeroRate(initial, withdrawal, months - 1);
    }
  }

  /** When the balance covers every withdrawal of the period and the rate is
      not negative, no month is skipped. */
  lemma {:induction false} SwpFullyFunded(initial: real, withdrawal: real, r: real, months: nat)
    requires r >= 0.0 && withdrawal >= 0.0 && initial >= months as real * withdrawal
    ensures SwpAfter(initial, withdrawal, r, months).withdrawals == months
    ensures SwpAfter(initial, withdrawal, r, months).balance >= initial - months as real * withdrawal
  {
    if months > 0 {
      var m: nat := months - 1;
      var used, before := months as real * withdrawal, m as real * withdrawal;
      assert used == before + withdrawal by {
        MulSucc(m, withdrawal);
      }
      SwpFullyFunded(initial, withdrawal, r, m);
      var st := SwpAfter(initial, withdrawal, r, m);
      GrownAtLeast(st.balance, r);
    }
  }
}
