/** The SIP (systematic investment plan) ledger of calculate_sip: a monthly
    instalment is added, the balance grows by one month, and after every
    twelfth month the instalment is stepped up. */
module SipLedger {
  import opened Growth

  /** One year-end row of the ledger. */
  datatype SipRow = SipRow(year: nat, amountInvested: real, currentValue: real, gains: real)

  /** The instalment due once `paid` months have been paid: a positive
      step-up percentage raises it each time a 12-month block has been paid
      and grown. InstalmentClosedForm gives it as
      amount * (1 + stepUp/100)^(paid div 12). */
  function Instalment(amount: real, stepUp: real, paid: nat): real
  {
    if paid == 0 then amount
    else if paid % 12 == 0 && stepUp > 0.0 then SteppedUp(Instalment(amount, stepUp, paid - 1), stepUp)
    else Instalment(amount, stepUp, paid - 1)
  }

  /** Total of the instalments paid in months 1..months. */
  function ContributionSum(amount: real, stepUp: real, months: nat): real
  {
    if months == 0 then 0.0
    else ContributionSum(amount, stepUp, months - 1) + Instalment(amount, stepUp, months - 1)
  }

  /** Balance after `months` months, starting from `initial`: each month's
      instalment is added first and the whole balance then grows at monthly rate r. */
  function SipBalance(initial: real, amount: real, r: real, stepUp: real, months: nat): real
  {
    if months == 0 then initial
    else Grown(SipBalance(initial, amount, r, stepUp, months - 1) + Instalment(amount, stepUp, months - 1), r)
  }

  /** The row recorded at the end of `year`. */
  function YearEndRow(initial: real, amount: real, r: real, stepUp: real, year: nat): SipRow
  {
    var invested := initial + ContributionSum(amount, stepUp, 12 * year);
    var value := SipBalance(initial, amount, r, stepUp, 12 * year);
    SipRow(year, invested, value, value - invested)
  }

  method CalculateSip(monthlyAmount: real, annualRate: real, years: nat, stepUp: real, initialAmount: real)
    returns (finalAmount: real, totalInvested: real, rows: seq<SipRow>)
    ensures finalAmount == SipBalance(initialAmount, monthlyAmount, MonthlyRate(annualRate), stepUp, 12 * years)
    ensures totalInvested == initialAmount + ContributionSum(monthlyAmount, stepUp, 12 * years)
    ensures |rows| == years
    ensures forall i :: 0 <= i < years ==>
              rows[i] == YearEndRow(initialAmount, monthlyAmount, MonthlyRate(annualRate), stepUp, i + 1)
    ensures forall i :: 0 <= i < years ==> rows[i].year == i + 1 && rows[i].gains == rows[i].currentValue - rows[i].amountInvested
    ensures years > 0 ==> rows[years - 1].currentValue == finalAmount && rows[years - 1].amountInvested == totalInvested
  {
    var monthlyRate := MonthlyRate(annualRate);
    var totalMonths := years * 12;

    rows := [];
    var currentAmount := initialAmount;
    totalInvested := initialAmount;
    var currentSip := monthlyAmount;

    for month := 1 to totalMonths + 1
      invariant currentAmount == SipBalance(initialAmount, monthlyAmount, monthlyRate, stepUp, month - 1)
      invariant totalInvested == initialAmount + ContributionSum(monthlyAmount, stepUp, month - 1)
      invariant currentSip == Instalment(monthlyAmount, stepUp, month - 1)
      invariant |rows| == (month - 1) / 12
      invariant forall i :: 0 <= i < |rows| ==> rows[i] == YearEndRow(initialAmount, monthlyAmount, monthlyRate, stepUp, i + 1)
    {
      MonthDivStep(month);
      totalInvested := totalInvested + currentSip;
      currentAmount := Grown(currentAmount + currentSip, monthlyRate);

      if month % 12 == 0 && stepUp > 0.0 {
        currentSip := SteppedUp(currentSip, stepUp);
      }

      if month % 12 == 0 {
        var year := month / 12;
        rows := rows + [SipRow(year, totalInvested, currentAmount, currentAmount - totalInvested)];
      }
    }
    finalAmount := currentAmount;
  }

  /** Month m (1-based) pays amount * (1 + stepUp/100)^((m - 1) div 12): the
      step-up fires only after month 12's instalment and growth. */
  lemma {:induction false} InstalmentClosedForm(amount: real, stepUp: real, paid: nat)
    ensures Instalment(amount, stepUp, paid) == amount * Pow(StepFactor(stepUp), paid / 12)
  {
    var s := StepFactor(stepUp);
    if paid > 0 {
      InstalmentClosedForm(amount, stepUp, paid - 1);
      var p := Pow(s, (paid - 1) / 12);
      MonthDivStep(paid);
      if paid % 12 == 0 {
        assert Pow(s, paid / 12) == s * p;
        if stepUp > 0.0 {
          SteppedUpByFactor(amount * p, stepUp);
          MulRearrange(amount, p, s);
        } else {
          assert s == 1.0;
        }
      }
    }
  }

  lemma SteppedUpByFactor(x: real, stepUp: real)
    requires stepUp > 0.0
    ensures SteppedUp(x, stepUp) == x * StepFactor(stepUp)
  {
  }

  lemma MulRearrange(a: real, p: real, s: real)
    ensures a * p * s == a * (s * p)
  {
  }

  /** At a 0% rate the balance is exactly what was paid in. */
  lemma {:induction false} SipAtZeroRate(initial: real, amount: real, stepUp: real, months: nat)
    ensures SipBalance(initial, amount, 0.0, stepUp, months) == initial + ContributionSum(amount, stepUp, months)
  {
    if months > 0 {
      SipAtZeroRate(initial, amount, stepUp, months - 1);
    }
  }

  /** Without a positive step-up every month pays the same instalment. */
  lemma {:induction false} ContributionSumFlat(amount: real, stepUp: real, months: nat)
    requires stepUp <= 0.0
    ensures ContributionSum(amount, stepUp, months) == months as real * amount
  {
    if months > 0 {
      ContributionSumFlat(amount, stepUp, months - 1);
      InstalmentFlat(amount, stepUp, months - 1);
      MulSucc(months - 1, amount);
    }
  }

  lemma {:induction false} InstalmentFlat(amount: real, stepUp: real, paid: nat)
    requires stepUp <= 0.0
    ensures Instalment(amount, stepUp, paid) == amount
  {
    if paid > 0 {
      InstalmentFlat(amount, stepUp, paid - 1);
    }
  }

  /** With non-negative inputs and a rate that is not negative the balance is
      never negative and never falls from one month to the next. */
  lemma {:induction false} SipBalanceGrows(initial: real, amount: real, r: real, stepUp: real, months: nat)
    requires initial >= 0.0 && amount >= 0.0 && r >= 0.0
    ensures 0.0 <= SipBalance(initial, amount, r, stepUp, months) <= SipBalance(initial, amount, r, stepUp, months + 1)
  {
    if months > 0 {
      SipBalanceGrows(initial, amount, r, stepUp, months - 1);
    }
    var b := SipBalance(initial, amount, r, stepUp, months);
    var c := Instalment(amount, stepUp, months);
    InstalmentNonNegative(amount, stepUp, months);
    GrownAtLeast(b + c, r);
    assert SipBalance(initial, amount, r, stepUp, months + 1) == Grown(b + c, r);
  }

  /** A non-negative instalment stays non-negative under every step-up. */
  lemma {:induction false} InstalmentNonNegative(amount: real, stepUp: real, paid: nat)
    requires amount >= 0.0
    ensures Instalment(amount, stepUp, paid) >= 0.0
  {
    if paid > 0 {
      InstalmentNonNegative(amount, stepUp, paid - 1);
      if paid % 12 == 0 && stepUp > 0.0 {
        SteppedUpAtLeast(Instalment(amount, stepUp, paid - 1), stepUp);
      }
    }
  }

  lemma SteppedUpAtLeast(x: real, stepUp: real)
    requires x >= 0.0 && stepUp > 0.0
    ensures SteppedUp(x, stepUp) >= x
  {
    MulAtLeast(x, 1.0 + stepUp / 100.0);
  }

  /** A monthly rate of at least -100% never takes a SIP started from a
      non-negative amount below zero. */
  lemma {:induction false} SipNeverNegative(initial: real, amount: real, r: real, stepUp: real, months: nat)
    requires initial >= 0.0 && amount >= 0.0 && r >= -1.0
    ensures SipBalance(initial, amount, r, stepUp, months) >= 0.0
  {
    if months > 0 {
      SipNeverNegative(initial, amount, r, stepUp, months - 1);
      InstalmentNonNegative(amount, stepUp, months - 1);
      GrownNonNegative(SipBalance(initial, amount, r, stepUp, months - 1) + Instalment(amount, stepUp, months - 1), r);
    }
  }
}
