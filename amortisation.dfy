/** The period-by-period amortisation simulator `calculateSchedule`
    (src/App.jsx:8-44): the pure meaning of one period, the schedule that
    repeating it defines, the imperative loop proved to compute that
    schedule, and the properties of the schedule. */
module Amortisation {
  import opened Cadence

  /** The inputs of one simulation run. Money and the rate are exact reals,
      the start date is a day number, the term a whole number of years. */
  datatype Params = Params(
    loanAmount: real,
    interestRate: real,
    offset: real,
    repayment: real,
    extraRepayment: real,
    extraFrequency: Frequency,
    frequency: Frequency,
    startDay: int,
    termYears: int)

  /** One pushed record: the period's date and the rounded balance,
      cumulative interest and cumulative amount paid. */
  datatype Record = Record(date: int, balance: int, interest: int, totalPaid: int)

  /** The constants computed once before the loop (lines 11-14); `extraRatio`
      is held unrounded, as `calculateSchedule` rounds it at each use (line 24). */
  datatype Terms = Terms(rate: real, totalPeriods: int, deltaDays: nat, extraRatio: real)

  /** The loop variables `balance`, `date`, `totalInterest`, `totalPaid`. */
  datatype Acc = Acc(balance: real, date: int, totalInterest: real, totalPaid: real)

  /** Everything one iteration decides, before rounding: the date it records,
      this period's interest, whether it is an extra period, and the new
      balance and totals. */
  datatype Period = Period(
    date: int,
    interest: real,
    extra: bool,
    balance: real,
    totalInterest: real,
    totalPaid: real)

  /** The run's constants. One year of periods spans 364 days for the weekly
      and fortnightly cadences and 360 for the monthly one. */
  function TermsOf(p: Params): (t: Terms)
    ensures t.rate * PaymentsPerYear(p.frequency) as real * 100.0 == p.interestRate
    ensures p.termYears >= 0 ==> t.totalPeriods >= 0
    ensures p.termYears > 0 ==> t.totalPeriods >= 12 * p.termYears
    ensures 360 <= t.deltaDays * PaymentsPerYear(p.frequency) <= 364
    ensures t.extraRatio * PaymentsPerYear(p.extraFrequency) as real == PaymentsPerYear(p.frequency) as real
  {
    Terms(PeriodicRate(p.interestRate, p.frequency),
          p.termYears * PaymentsPerYear(p.frequency),
          DeltaDays(p.frequency),
          ExtraRatio(p.frequency, p.extraFrequency))
  }

  function Initial(p: Params): Acc
  {
    Acc(p.loanAmount, p.startDay, 0.0, 0.0)
  }

  /** `Math.max` on two amounts. */
  function Max(a: real, b: real): (m: real)
    ensures m >= a && m >= b
    ensures m == a || m == b
  {
    if a >= b then a else b
  }

  /** This period's interest: the balance less the offset, at the periodic
      rate, floored at zero (line 22). */
  function PeriodInterest(balance: real, offset: real, rate: real): (r: real)
    ensures r >= 0.0 && r >= (balance - offset) * rate
    ensures r == 0.0 || r == (balance - offset) * rate
    ensures offset >= balance && rate >= 0.0 ==> r == 0.0
  {
    Max(0.0, (balance - offset) * rate)
  }

  /** With a non-negative rate, interest grows with the balance. */
  lemma PeriodInterestMonotone(b1: real, b2: real, offset: real, rate: real)
    requires b1 <= b2 && rate >= 0.0
    ensures PeriodInterest(b1, offset, rate) <= PeriodInterest(b2, offset, rate)
  {
  }

  /** The extra repayment added in a period (line 32's conditional). */
  function ExtraAmount(p: Params, isExtra: bool): real
  {
    if isExtra then p.extraRepayment else 0.0
  }

  /** One iteration of the loop body (lines 22-39) from the loop variables `a`
      at index `i`. */
  function StepPeriod(p: Params, t: Terms, i: nat, a: Acc): (per: Period)
    ensures per.date == a.date
    ensures per.extra <==> IsExtraPeriod(i, Round(t.extraRatio))
    ensures per.interest == PeriodInterest(a.balance, p.offset, t.rate)
    ensures per.interest >= 0.0
    ensures p.offset >= a.balance && t.rate >= 0.0 ==> per.interest == 0.0
    ensures per.balance >= 0.0
    ensures per.balance == 0.0 <==>
      a.balance + per.interest <= p.repayment + ExtraAmount(p, per.extra)
    ensures per.balance > 0.0 ==>
      per.balance == a.balance + per.interest - p.repayment - ExtraAmount(p, per.extra)
    ensures a.balance >= 0.0 && per.interest <= p.repayment + ExtraAmount(p, per.extra) ==>
      per.balance <= a.balance
    ensures per.interest >= p.repayment + ExtraAmount(p, per.extra) ==> per.balance >= a.balance
    ensures per.totalInterest == a.totalInterest + per.interest
    ensures per.totalPaid == a.totalPaid + p.repayment + ExtraAmount(p, per.extra)
  {
    var interest := PeriodInterest(a.balance, p.offset, t.rate);
    var isExtra := IsExtraPeriod(i, Round(t.extraRatio));
    var principal := p.repayment - interest + ExtraAmount(p, isExtra);
    Period(a.date, interest, isExtra, Max(0.0, a.balance - principal),
           a.totalInterest + interest, a.totalPaid + (p.repayment + ExtraAmount(p, isExtra)))
  }

  /** The loop variables after a period: its results, and the date advanced by
      the cadence's day step (line 40). */
  function Next(t: Terms, per: Period): (a: Acc)
    ensures a.date - per.date == t.deltaDays
    ensures a.balance == per.balance && a.totalInterest == per.totalInterest && a.totalPaid == per.totalPaid
  {
    Acc(per.balance, per.date + t.deltaDays, per.totalInterest, per.totalPaid)
  }

  /** The periods the loop runs from index `i` with loop variables `a`: it goes
      on while `i < totalPeriods` and the balance is positive (line 21). */
  function TraceFrom(p: Params, t: Terms, i: nat, a: Acc): (tr: seq<Period>)
    ensures |tr| <= if i < t.totalPeriods then t.totalPeriods - i else 0
    decreases t.totalPeriods - i
  {
    if i < t.totalPeriods && a.balance > 0.0 then
      var per := StepPeriod(p, t, i, a);
      [per] + TraceFrom(p, t, i + 1, Next(t, per))
    else
      []
  }

  /** The loop variables at the start of the `k`-th period of `tr`. */
  function StartOf(t: Terms, a: Acc, tr: seq<Period>, k: nat): Acc
    requires k <= |tr|
  {
    if k == 0 then a else Next(t, tr[k - 1])
  }

  /** Every period the simulator runs, unrounded. */
  function Trace(p: Params): seq<Period>
  {
    TraceFrom(p, TermsOf(p), 0, Initial(p))
  }

  function ToRecord(per: Period): Record
  {
    Record(per.date, Round(per.balance), Round(per.totalInterest), Round(per.totalPaid))
  }

  /** The schedule `calculateSchedule` returns: one record per period run, with
      each amount within half a unit of the exact figure. */
  function Schedule(p: Params): (s: seq<Record>)
    ensures |s| == |Trace(p)|
    ensures forall k :: 0 <= k < |s| ==>
      var per := Trace(p)[k];
      s[k].date == per.date &&
      s[k].balance as real - 0.5 <= per.balance < s[k].balance as real + 0.5 &&
      s[k].interest as real - 0.5 <= per.totalInterest < s[k].interest as real + 0.5 &&
      s[k].totalPaid as real - 0.5 <= per.totalPaid < s[k].totalPaid as real + 0.5
  {
    var tr := Trace(p);
    seq(|tr|, k requires 0 <= k < |tr| => ToRecord(tr[k]))
  }

  /** The balance at the start of period `k` (before its repayment). */
  function OpeningBalance(p: Params, k: nat): real
    requires k <= |Trace(p)|
  {
    StartOf(TermsOf(p), Initial(p), Trace(p), k).balance
  }

  /** `calculateSchedule` as the code writes it: a loop over the period index
      that updates the running variables and appends a rounded record. */
  method CalculateSchedule(p: Params) returns (results: seq<Record>)
    ensures results == Schedule(p)
  {
    var ppy := PaymentsPerYear(p.frequency);
    var rate := p.interestRate / 100.0 / ppy as real;
    var totalPeriods := p.termYears * ppy;
    var deltaDays := DeltaDays(p.frequency);
    var extraEveryNPeriods := ppy as real / PaymentsPerYear(p.extraFrequency) as real;
    ghost var t := Terms(rate, totalPeriods, deltaDays, extraEveryNPeriods);
    assert t == TermsOf(p);

    results := [];
    var balance := p.loanAmount;
    var date := p.startDay;
    var totalInterest := 0.0;
    var totalPaid := 0.0;
    ghost var done: seq<Period> := [];

    var i: nat := 0;
    while i < totalPeriods && balance > 0.0
      invariant Trace(p) == done + TraceFrom(p, t, i, Acc(balance, date, totalInterest, totalPaid))
      invariant |results| == |done|
      invariant forall k :: 0 <= k < |done| ==> results[k] == ToRecord(done[k])
      decreases totalPeriods - i
    {
      ghost var per := StepPeriod(p, t, i, Acc(balance, date, totalInterest, totalPaid));
      var interest := PeriodInterest(balance, p.offset, rate);
      var principal := p.repayment - interest;
      var isExtraPeriod := IsExtraPeriod(i, Round(extraEveryNPeriods));
      assert interest == per.interest && isExtraPeriod == per.extra;
      if isExtraPeriod {
        principal := principal + p.extraRepayment;
      }
      balance := Max(0.0, balance - principal);
      assert balance == per.balance;
      totalInterest := totalInterest + interest;
      totalPaid := totalPaid + (p.repayment + (if isExtraPeriod then p.extraRepayment else 0.0));
      results := results + [Record(date, Round(balance), Round(totalInterest), Round(totalPaid))];
      date := date + deltaDays;
      i := i + 1;

      assert Acc(balance, date, totalInterest, totalPaid) == Next(t, per);
      done := done + [per];
    }
  }

  /** The `k`-th period of a run is one step from the state the previous
      period left, and it only runs because the term is not over and the
      balance at its start is positive. */
  lemma {:induction false} TraceFromAt(p: Params, t: Terms, i: nat, a: Acc, k: nat)
    requires k < |TraceFrom(p, t, i, a)|
    ensures var tr := TraceFrom(p, t, i, a);
      var s := StartOf(t, a, tr, k);
      i + k < t.totalPeriods && s.balance > 0.0 && tr[k] == StepPeriod(p, t, i + k, s)
    decreases k
  {
    var tr := TraceFrom(p, t, i, a);
    if k > 0 {
      var per := StepPeriod(p, t, i, a);
      var rest := TraceFrom(p, t, i + 1, Next(t, per));
      assert tr == [per] + rest;
      TraceFromAt(p, t, i + 1, Next(t, per), k - 1);
      assert tr[k] == rest[k - 1];
      assert StartOf(t, a, tr, k) == StartOf(t, Next(t, per), rest, k - 1);
    }
  }

  /** A run stops either because the term is over or because the balance at
      the start of the next period is no longer positive. */
  lemma {:induction false} TraceFromEnd(p: Params, t: Terms, i: nat, a: Acc)
    ensures var tr := TraceFrom(p, t, i, a);
      i + |tr| >= t.totalPeriods || StartOf(t, a, tr, |tr|).balance <= 0.0
    decreases t.totalPeriods - i
  {
    var tr := TraceFrom(p, t, i, a);
    if i < t.totalPeriods && a.balance > 0.0 {
      var per := StepPeriod(p, t, i, a);
      var rest := TraceFrom(p, t, i + 1, Next(t, per));
      assert tr == [per] + rest;
      TraceFromEnd(p, t, i + 1, Next(t, per));
      assert StartOf(t, a, tr, |tr|) == StartOf(t, Next(t, per), rest, |rest|);
    }
  }

  /** Period `k` of the schedule, stated in terms of the whole run. */
  lemma PeriodAt(p: Params, k: nat)
    requires k < |Trace(p)|
    ensures k < TermsOf(p).totalPeriods
    ensures OpeningBalance(p, k) > 0.0
    ensures Trace(p)[k] == StepPeriod(p, TermsOf(p), k, StartOf(TermsOf(p), Initial(p), Trace(p), k))
  {
    TraceFromAt(p, TermsOf(p), 0, Initial(p), k);
  }

  /** The schedule never has more records than `termYears * paymentsPerYear`. */
  lemma ScheduleLength(p: Params)
    ensures |Schedule(p)| == |Trace(p)|
    ensures |Schedule(p)| <= if p.termYears > 0 then p.termYears * PaymentsPerYear(p.frequency) else 0
  {
  }

  /** Overpayment clamps the balance to zero, so no record's balance, rounded
      or not, is negative. */
  lemma BalancesNonNegative(p: Params)
    ensures forall k :: 0 <= k < |Trace(p)| ==> Trace(p)[k].balance >= 0.0
    ensures forall k :: 0 <= k < |Schedule(p)| ==> Schedule(p)[k].balance >= 0
  {
    forall k | 0 <= k < |Trace(p)|
      ensures Trace(p)[k].balance >= 0.0 && Schedule(p)[k].balance >= 0
    {
      PeriodAt(p, k);
      RoundNonNegative(Trace(p)[k].balance);
    }
  }

  /** A period's interest is never negative, and it is zero when the offset
      covers the opening balance (for a non-negative rate). */
  lemma InterestFloor(p: Params, k: nat)
    requires k < |Trace(p)|
    ensures Trace(p)[k].interest >= 0.0
    ensures p.offset >= OpeningBalance(p, k) && p.interestRate >= 0.0 ==> Trace(p)[k].interest == 0.0
  {
    PeriodAt(p, k);
  }

  /** Cumulative interest, rounded or not, never decreases from one record to
      the next, and the first record's is non-negative. */
  lemma InterestNonDecreasing(p: Params)
    ensures |Trace(p)| > 0 ==> Trace(p)[0].totalInterest >= 0.0 && Schedule(p)[0].interest >= 0
    ensures forall k :: 0 <= k && k + 1 < |Trace(p)| ==>
      Trace(p)[k].totalInterest <= Trace(p)[k + 1].totalInterest
    ensures forall k :: 0 <= k && k + 1 < |Schedule(p)| ==>
      Schedule(p)[k].interest <= Schedule(p)[k + 1].interest
  {
    var tr := Trace(p);
    if |tr| > 0 {
      PeriodAt(p, 0);
      RoundNonNegative(tr[0].totalInterest);
    }
    forall k | 0 <= k && k + 1 < |tr|
      ensures tr[k].totalInterest <= tr[k + 1].totalInterest
      ensures Schedule(p)[k].interest <= Schedule(p)[k + 1].interest
    {
      PeriodAt(p, k + 1);
      RoundMonotone(tr[k].totalInterest, tr[k + 1].totalInterest);
    }
  }

  /** The amount paid grows by exactly the repayment each period, plus the
      extra repayment in an extra period. */
  lemma TotalPaidStep(p: Params, k: nat)
    requires k < |Trace(p)|
    ensures Trace(p)[k].totalPaid ==
      (if k == 0 then 0.0 else Trace(p)[k - 1].totalPaid)
      + p.repayment + (if Trace(p)[k].extra then p.extraRepayment else 0.0)
  {
    PeriodAt(p, k);
  }

  /** With non-negative amounts the cumulative amount paid never decreases. */
  lemma TotalPaidNonDecreasing(p: Params)
    requires p.repayment >= 0.0 && p.extraRepayment >= 0.0
    ensures |Schedule(p)| > 0 ==> Schedule(p)[0].totalPaid >= 0
    ensures forall k :: 0 <= k && k + 1 < |Schedule(p)| ==>
      Schedule(p)[k].totalPaid <= Schedule(p)[k + 1].totalPaid
  {
    var tr := Trace(p);
    if |tr| > 0 {
      TotalPaidStep(p, 0);
      RoundNonNegative(tr[0].totalPaid);
    }
    forall k | 0 <= k && k + 1 < |tr|
      ensures Schedule(p)[k].totalPaid <= Schedule(p)[k + 1].totalPaid
    {
      TotalPaidStep(p, k + 1);
      RoundMonotone(tr[k].totalPaid, tr[k + 1].totalPaid);
    }
  }

  /** Record `k` is an extra period exactly when the rounded cadence is
      positive and divides `k`. */
  lemma ExtraPeriods(p: Params, k: nat)
    requires k < |Trace(p)|
    ensures Trace(p)[k].extra <==>
      IsExtraPeriod(k, Round(ExtraRatio(p.frequency, p.extraFrequency)))
  {
    PeriodAt(p, k);
  }

  /** A monthly loan with weekly or fortnightly extra repayments never makes an
      extra repayment: after `k + 1` periods exactly `k + 1` repayments are paid. */
  lemma {:induction false} MonthlyIgnoresFasterExtra(p: Params, k: nat)
    requires p.frequency == Monthly && p.extraFrequency != Monthly
    requires k < |Trace(p)|
    ensures !Trace(p)[k].extra
    ensures Trace(p)[k].totalPaid == (k + 1) as real * p.repayment
  {
    ExtraCadenceTable(p.frequency, p.extraFrequency);
    ExtraPeriods(p, k);
    TotalPaidStep(p, k);
    if k > 0 {
      MonthlyIgnoresFasterExtra(p, k - 1);
    }
  }

  /** Early payoff: every period starts with a positive balance, and a schedule
      shorter than the term ends with an unrounded balance of exactly zero
      (or is empty because the loan amount was not positive). */
  lemma EarlyPayoff(p: Params)
    ensures forall k :: 0 <= k < |Trace(p)| ==> OpeningBalance(p, k) > 0.0
    ensures forall k :: 0 <= k && k + 1 < |Trace(p)| ==> Trace(p)[k].balance > 0.0
    ensures |Trace(p)| < TermsOf(p).totalPeriods ==>
      (|Trace(p)| == 0 && p.loanAmount <= 0.0) ||
      (|Trace(p)| > 0 && Trace(p)[|Trace(p)| - 1].balance == 0.0)
  {
    var tr := Trace(p);
    forall k | 0 <= k < |tr| ensures OpeningBalance(p, k) > 0.0 {
      PeriodAt(p, k);
    }
    forall k | 0 <= k && k + 1 < |tr| ensures tr[k].balance > 0.0 {
      PeriodAt(p, k + 1);
    }
    TraceFromEnd(p, TermsOf(p), 0, Initial(p));
    if |tr| > 0 {
      PeriodAt(p, |tr| - 1);
    }
  }

  /** From a state whose balance is at least the loan amount, a repayment that
      cannot cover the interest on the loan amount never lowers the balance,
      so the run lasts the whole remaining term. */
  lemma {:induction false} GrowthFrom(p: Params, i: nat, a: Acc)
    requires p.loanAmount > 0.0 && p.interestRate >= 0.0
    requires p.repayment + Max(0.0, p.extraRepayment) <=
      PeriodInterest(p.loanAmount, p.offset, TermsOf(p).rate)
    requires a.balance >= p.loanAmount
    ensures var tr := TraceFrom(p, TermsOf(p), i, a);
      |tr| == (if i < TermsOf(p).totalPeriods then TermsOf(p).totalPeriods - i else 0) &&
      forall k :: 0 <= k < |tr| ==> tr[k].balance >= p.loanAmount
    decreases TermsOf(p).totalPeriods - i
  {
    var t := TermsOf(p);
    if i < t.totalPeriods {
      var per := StepPeriod(p, t, i, a);
      PeriodInterestMonotone(p.loanAmount, a.balance, p.offset, t.rate);
      assert per.balance >= a.balance;
      GrowthFrom(p, i + 1, Next(t, per));
      var tr := TraceFrom(p, t, i, a);
      assert tr == [per] + TraceFrom(p, t, i + 1, Next(t, per));
    }
  }

  /** Negative amortisation is not an error: when the repayments cannot cover
      the interest, the balance never falls below the loan amount and the
      schedule has exactly `termYears * paymentsPerYear` records. */
  lemma NegativeAmortisationRunsFullTerm(p: Params)
    requires p.loanAmount > 0.0 && p.interestRate >= 0.0 && p.termYears >= 0
    requires p.repayment + Max(0.0, p.extraRepayment) <=
      PeriodInterest(p.loanAmount, p.offset, PeriodicRate(p.interestRate, p.frequency))
    ensures |Schedule(p)| == p.termYears * PaymentsPerYear(p.frequency)
    ensures forall k :: 0 <= k < |Trace(p)| ==> Trace(p)[k].balance >= p.loanAmount
    ensures forall k :: 0 <= k && k + 1 < |Trace(p)| ==> Trace(p)[k].balance <= Trace(p)[k + 1].balance
    ensures forall k :: 0 <= k && k + 1 < |Schedule(p)| ==> Schedule(p)[k].balance <= Schedule(p)[k + 1].balance
  {
    GrowthFrom(p, 0, Initial(p));
    var tr := Trace(p);
    forall k | 0 <= k && k + 1 < |tr|
      ensures tr[k].balance <= tr[k + 1].balance
      ensures Schedule(p)[k].balance <= Schedule(p)[k + 1].balance
    {
      PeriodAt(p, k + 1);
      PeriodInterestMonotone(p.loanAmount, tr[k].balance, p.offset, TermsOf(p).rate);
      RoundMonotone(tr[k].balance, tr[k + 1].balance);
    }
  }

  /** When the repayment covers a period's interest and extra repayments are not
      negative, that period does not raise the balance. */
  lemma MonotonePayoff(p: Params, k: nat)
    requires p.extraRepayment >= 0.0
    requires k < |Trace(p)| && Trace(p)[k].interest <= p.repayment
    ensures Trace(p)[k].balance <= OpeningBalance(p, k)
  {
    PeriodAt(p, k);
  }

  /** Record `k` is dated `k` day steps after the start date. */
  lemma {:induction false} DatesFollowCadence(p: Params, k: nat)
    requires k < |Schedule(p)|
    ensures Schedule(p)[k].date == p.startDay + k * DeltaDays(p.frequency)
  {
    PeriodAt(p, k);
    if k > 0 {
      DatesFollowCadence(p, k - 1);
    }
  }

  /** A 100000 loan at 6% repaid 1000 monthly over ten years: the first period
      charges 500 interest and leaves 99500 outstanding. */
  lemma FirstMonthOfSampleLoan(startDay: int)
    ensures var p := Params(100000.0, 6.0, 0.0, 1000.0, 0.0, Monthly, Monthly, startDay, 10);
      TermsOf(p).rate == 0.005 && TermsOf(p).totalPeriods == 120 &&
      |Schedule(p)| > 0 && Schedule(p)[0] == Record(startDay, 99500, 500, 1000)
  {
    var p := Params(100000.0, 6.0, 0.0, 1000.0, 0.0, Monthly, Monthly, startDay, 10);
    var t := TermsOf(p);
    assert t.rate == 0.005;
    var per := StepPeriod(p, t, 0, Initial(p));
    assert per.interest == 500.0;
    assert per.balance == 99500.0;
    assert Trace(p) == [per] + TraceFrom(p, t, 1, Next(t, per));
  }
}
