/** Rate conversions and natural powers shared by every projection in the calculator. */
module Growth {

  /** x raised to the natural power n (Python's `x ** n` for an integer n >= 0). */
  function Pow(x: real, n: nat): real
  {
    if n == 0 then 1.0 else x * Pow(x, n - 1)
  }

  /** The monthly rate of every month-by-month ledger: the annual percentage
      divided by 12 and then by 100. */
  function MonthlyRate(annualRate: real): (r: real)
    ensures r * 1200.0 == annualRate
    ensures annualRate >= 0.0 ==> r >= 0.0
    ensures annualRate > 0.0 ==> r > 0.0
  {
    annualRate / 12.0 / 100.0
  }

  /** A balance after one month's growth at monthly rate r. */
  function Grown(balance: real, r: real): real
  {
    balance * (1.0 + r)
  }

  /** An instalment raised by a step-up percentage. */
  function SteppedUp(amount: real, stepUp: real): real
  {
    amount * (1.0 + stepUp / 100.0)
  }

  /** The factor a lumpsum grows by each year, and the one inflation deflates by. */
  function AnnualFactor(ratePercent: real): (g: real)
    ensures (g - 1.0) * 100.0 == ratePercent
  {
    1.0 + ratePercent / 100.0
  }

  /** An amount compounded once a year for n years at an annual percentage. */
  function Compounded(amount: real, ratePercent: real, n: nat): real
  {
    amount * Pow(AnnualFactor(ratePercent), n)
  }

  /** The factor a SIP instalment is multiplied by after every twelfth month:
      a step-up percentage that is not positive leaves the instalment unchanged. */
  function StepFactor(stepUp: real): (s: real)
    ensures s >= 1.0
    ensures s == 1.0 <==> stepUp <= 0.0
    ensures stepUp > 0.0 ==> (s - 1.0) * 100.0 == stepUp
  {
    if stepUp > 0.0 then 1.0 + stepUp / 100.0 else 1.0
  }

  lemma {:induction false} PowAdd(x: real, m: nat, n: nat)
    ensures Pow(x, m + n) == Pow(x, m) * Pow(x, n)
  {
    if m > 0 {
      PowAdd(x, m - 1, n);
      assert Pow(x, m + n) == x * Pow(x, m - 1 + n);
    }
  }

  /** Two positive factors give a positive product. */
  lemma ProductPositive(x: real, y: real)
    requires x > 0.0 && y > 0.0
    ensures x * y > 0.0
  {
  }

  lemma MulAssociates(x: real, a: real, b: real)
    ensures x * (a * b) == (x * a) * b
  {
  }

  /** Compounding for m years and then for n more is compounding for m + n. */
  lemma CompoundedTwice(amount: real, ratePercent: real, m: nat, n: nat)
    ensures Compounded(Compounded(amount, ratePercent, m), ratePercent, n) == Compounded(amount, ratePercent, m + n)
  {
    var g := AnnualFactor(ratePercent);
    PowAdd(g, m, n);
    MulAssociates(amount, Pow(g, m), Pow(g, n));
  }

  lemma {:induction false} PowOfOne(n: nat)
    ensures Pow(1.0, n) == 1.0
  {
    if n > 0 {
      PowOfOne(n - 1);
    }
  }

  lemma {:induction false} PowNonNegative(x: real, n: nat)
    requires x >= 0.0
    ensures Pow(x, n) >= 0.0
  {
    if n > 0 {
      PowNonNegative(x, n - 1);
    }
  }

  lemma {:induction false} PowPositive(x: real, n: nat)
    requires x > 0.0
    ensures Pow(x, n) > 0.0
  {
    if n > 0 {
      PowPositive(x, n - 1);
    }
  }

  lemma {:induction false} PowNonZero(x: real, n: nat)
    requires x != 0.0
    ensures Pow(x, n) != 0.0
  {
    if n > 0 {
      PowNonZero(x, n - 1);
    }
  }

  lemma {:induction false} PowAtLeastOne(x: real, n: nat)
    requires x >= 1.0
    ensures Pow(x, n) >= 1.0
  {
    if n > 0 {
      PowAtLeastOne(x, n - 1);
      MulAtLeast(Pow(x, n - 1), x);
    }
  }

  lemma {:induction false} PowAboveOne(x: real, n: nat)
    requires x > 1.0 && n > 0
    ensures Pow(x, n) > 1.0
  {
    PowAtLeastOne(x, n - 1);
    assert Pow(x, n) == x * Pow(x, n - 1);
  }

  /** Higher powers of a factor above one are strictly larger. */
  lemma {:induction false} PowStrictlyIncreasing(x: real, m: nat, n: nat)
    requires x > 1.0 && m < n
    ensures Pow(x, m) < Pow(x, n)
  {
    var k: nat := n - m;
    PowAdd(x, m, k);
    PowAboveOne(x, k);
    PowPositive(x, m);
    var a, b := Pow(x, m), Pow(x, k);
    MulAbove(a, b);
    assert Pow(x, m + k) == a * b;
    assert m + k == n;
  }

  /** Growing a non-negative amount by a factor of at least one never shrinks it. */
  lemma MulAtLeast(a: real, g: real)
    requires a >= 0.0 && g >= 1.0
    ensures a * g >= a
  {
    assert a * g - a == a * (g - 1.0);
  }

  /** One month's growth at a rate that is not negative never shrinks a
      non-negative balance. */
  lemma GrownAtLeast(balance: real, r: real)
    requires balance >= 0.0 && r >= 0.0
    ensures Grown(balance, r) >= balance
  {
    MulAtLeast(balance, 1.0 + r);
  }

  /** A monthly rate of at least -100% keeps a non-negative balance non-negative. */
  lemma GrownNonNegative(balance: real, r: real)
    requires balance >= 0.0 && r >= -1.0
    ensures Grown(balance, r) >= 0.0
  {
  }

  /** k + 1 equal amounts add up to k of them plus one more. */
  lemma MulSucc(k: nat, w: real)
    ensures (k + 1) as real * w == k as real * w + w
  {
  }

  /** k equal amounts w added one after another. */
  function Repeated(k: nat, w: real): real
  {
    if k == 0 then 0.0 else Repeated(k - 1, w) + w
  }

  lemma {:induction false} RepeatedIsProduct(k: nat, w: real)
    ensures Repeated(k, w) == k as real * w
  {
    if k > 0 {
      RepeatedIsProduct(k - 1, w);
      MulSucc(k - 1, w);
    }
  }

  /** Months 12y+1 .. 12y+12 (1-based) all fall in year y+1. */
  lemma YearOfMonth(y: nat, j: nat)
    requires j < 12
    ensures (12 * y + j) / 12 == y
  {
  }

  /** Completed years go up by one exactly at a twelfth month. */
  lemma MonthDivStep(month: nat)
    requires month > 0
    ensures month % 12 == 0 ==> month / 12 == (month - 1) / 12 + 1
    ensures month % 12 != 0 ==> month / 12 == (month - 1) / 12
  {
  }

  lemma MulAbove(a: real, g: real)
    requires a > 0.0 && g > 1.0
    ensures a * g > a
  {
    assert a * g - a == a * (g - 1.0);
  }
}
