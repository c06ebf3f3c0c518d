/** Payment cadences: the periods-per-year table, the per-period rate, the
    fixed day step of each cadence, and the reconciliation of the extra
    repayment cadence with the primary one (src/App.jsx:10-14, 24). */
module Cadence {

  /** The three repayment frequencies a loan can be set to. */
  datatype Frequency = Weekly | Fortnightly | Monthly

  /** The lookup table `{ Weekly: 52, Fortnightly: 26, Monthly: 12 }`. */
  function PaymentsPerYear(f: Frequency): (n: nat)
    ensures 12 <= n <= 52
  {
    match f
    case Weekly => 52
    case Fortnightly => 26
    case Monthly => 12
  }

  /** Annual nominal percentage turned into a per-period decimal rate. */
  function PeriodicRate(interestRate: real, f: Frequency): (rate: real)
    ensures rate * PaymentsPerYear(f) as real * 100.0 == interestRate
    ensures interestRate >= 0.0 ==> rate >= 0.0
  {
    interestRate / 100.0 / PaymentsPerYear(f) as real
  }

  /** Days a date moves forward after each period; months are a flat 30 days. */
  function DeltaDays(f: Frequency): (d: nat)
    ensures d == 7 || d == 14 || d == 30
    ensures f == Weekly <==> d == 7
    ensures f == Fortnightly <==> d == 14
  {
    if f == Weekly then 7 else if f == Fortnightly then 14 else 30
  }

  /** JavaScript's `Math.round`: the nearest integer, halves rounded up. */
  function Round(x: real): (r: int)
    ensures r as real - 0.5 <= x < r as real + 0.5
  {
    (x + 0.5).Floor
  }

  lemma RoundMonotone(x: real, y: real)
    requires x <= y
    ensures Round(x) <= Round(y)
  {
  }

  lemma RoundNonNegative(x: real)
    requires x >= 0.0
    ensures Round(x) >= 0
  {
  }

  /** The unrounded ratio `paymentsPerYear[frequency] / paymentsPerYear[extraFrequency]`. */
  function ExtraRatio(f: Frequency, ef: Frequency): (q: real)
    ensures q * PaymentsPerYear(ef) as real == PaymentsPerYear(f) as real
  {
    PaymentsPerYear(f) as real / PaymentsPerYear(ef) as real
  }

  /** Period `i` receives the extra repayment when `i % n === 0`. For `n == 0`
      JavaScript evaluates `i % 0` to NaN, which equals nothing, so no period
      qualifies; that case is the `n > 0` conjunct. */
  predicate IsExtraPeriod(i: nat, n: int): (b: bool)
    ensures b ==> n >= 1
    ensures n == 1 ==> b
    ensures b && i > 0 ==> i >= n
  {
    n > 0 && i % n == 0
  }

  /** The cadence `Math.round(extraEveryNPeriods)` for every pair of frequencies.
      When extra repayments are more frequent than primary ones the ratio
      rounds to 0 or 1: 1 for Fortnightly/Weekly, 0 for Monthly/Weekly and
      Monthly/Fortnightly, and then no extra repayment is ever made. */
  lemma ExtraCadenceTable(f: Frequency, ef: Frequency)
    ensures var n := Round(ExtraRatio(f, ef));
      n == match (f, ef)
           case (Weekly, Weekly) => 1
           case (Weekly, Fortnightly) => 2
           case (Weekly, Monthly) => 4
           case (Fortnightly, Weekly) => 1
           case (Fortnightly, Fortnightly) => 1
           case (Fortnightly, Monthly) => 2
           case (Monthly, Weekly) => 0
           case (Monthly, Fortnightly) => 0
           case (Monthly, Monthly) => 1
  {
    var q := ExtraRatio(f, ef);
    match (f, ef)
    case (Weekly, Weekly) => assert q == 1.0;
    case (Weekly, Fortnightly) => assert q == 2.0;
    case (Weekly, Monthly) => assert 4.0 <= q < 4.5;
    case (Fortnightly, Weekly) => assert q == 0.5;
    case (Fortnightly, Fortnightly) => assert q == 1.0;
    case (Fortnightly, Monthly) => assert 2.0 <= q < 2.5;
    case (Monthly, Weekly) => assert 0.0 <= q < 0.5;
    case (Monthly, Fortnightly) => assert 0.0 <= q < 0.5;
    case (Monthly, Monthly) => assert q == 1.0;
  }

  /** With a cadence of at least one, the first period is always an extra period;
      with cadence zero no period is, whatever its index. */
  lemma ExtraPeriodZero(n: int, i: nat)
    ensures n >= 1 ==> IsExtraPeriod(0, n)
    ensures n <= 0 ==> !IsExtraPeriod(i, n)
  {
  }
}
