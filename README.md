# Home loan calculator: amortisation engine and comparison merge

This project models the calculation core of a two-loan home loan calculator.

`calculateSchedule` simulates one loan period by period. It converts the annual
percentage rate into a per-period rate using 52, 26 or 12 periods a year. Each
period it charges interest on the balance less the offset account, floored at
zero. It subtracts the repayment, plus an extra repayment on the extra cadence,
and clamps the balance at zero. It accumulates total interest and total paid,
and records the rounded figures with the period's date. It stops when the
balance reaches zero or the term is over.

The comparison then aligns the two loans' schedules by index into one series as
long as the longer schedule. A loan's fields are null where its schedule has
already ended.

Modules:

- `Cadence` (`cadence.dfy`): the frequency type, the periods-per-year table, the
  per-period rate, the day step, `Math.round`, and the extra-repayment cadence.
- `Amortisation` (`amortisation.dfy`): the loan parameters and records.
  `StepPeriod` is the pure meaning of one loop iteration. `TraceFrom`, `Trace`
  and `Schedule` give the run. `CalculateSchedule` is the imperative loop, and
  its postcondition proves that it computes `Schedule`. Lemmas state the
  properties of the run.
- `Comparison` (`comparison.dfy`): the merged rows, the merge, reading the
  schedules back from the rows, and `CompareLoans`, which simulates and merges
  two loans.

Modelling choices:

- Money and rates are exact `real`s.
- `Math.round(x)` is `floor(x + 0.5)`, which is what JavaScript computes for
  every real, negative ones included.
- A date is an integer day number. A record's date is the start day plus
  `i × deltaDays`.
- The extra-period test is `n > 0 && i % n == 0` with `n = Math.round(ratio)`.
  When `n` is 0, JavaScript's `i % 0` is NaN, so no period qualifies. This
  happens for a Monthly loan with Weekly or Fortnightly extra repayments, and
  such a loan never makes an extra repayment (`MonthlyIgnoresFasterExtra`).
- The code has no validation and no explicit error paths, and neither does
  the model. As in the code, a non-positive loan amount gives an empty schedule,
  and a non-positive term gives an empty schedule.
- Negative amortisation is an ordinary outcome: the run lasts the whole term
  (`NegativeAmortisationRunsFullTerm`).

## Model

| member | source | states |
|---|---|---|
| `Cadence.PaymentsPerYear` | src/App.jsx:10 | every cadence has between 12 and 52 periods a year |
| `Cadence.PeriodicRate` | src/App.jsx:10-11 | the periodic rate times periods-per-year times 100 gives back the annual percentage; a non-negative annual rate gives a non-negative periodic rate |
| `Cadence.DeltaDays` | src/App.jsx:13 | the day step is 7, 14 or 30; it is 7 exactly for Weekly and 14 exactly for Fortnightly |
| `Cadence.Round` | src/App.jsx:24 | `Math.round` returns the integer within half a unit, with halves rounded up |
| `Cadence.RoundMonotone` | src/App.jsx:36-38 | rounding preserves order, so rounded running totals keep the order of the unrounded ones |
| `Cadence.RoundNonNegative` | src/App.jsx:36 | a non-negative amount rounds to a non-negative integer |
| `Cadence.ExtraRatio` | src/App.jsx:14 | the ratio times the extra cadence's periods-per-year gives the primary cadence's periods-per-year |
| `Cadence.ExtraCadenceTable` | src/App.jsx:10-14 | the rounded extra cadence for all nine frequency pairs; it is 0 for Monthly with Weekly or Fortnightly extras |
| `Cadence.IsExtraPeriod` | src/App.jsx:24 | a period can be an extra period only when the cadence is at least 1; with cadence 1 every period is one; an extra period after period 0 has an index of at least the cadence |
| `Cadence.ExtraPeriodZero` | src/App.jsx:24 | with a cadence of at least 1, period 0 is an extra period; with cadence 0, no period is |
| `Amortisation.TermsOf` | src/App.jsx:11-14 | the run's constants: the rate gives back the annual percentage; a non-negative term gives a non-negative period count, at least 12 per year when positive; a year of day steps spans 360 to 364 days; the extra ratio times the extra cadence's periods-per-year gives the primary cadence's |
| `Amortisation.Max` | src/App.jsx:22 | `Math.max` is at least both arguments and equals one of them |
| `Amortisation.PeriodInterest` | src/App.jsx:22 | interest is non-negative and at least the offset-reduced balance times the rate; it is zero when the offset covers the balance and the rate is non-negative |
| `Amortisation.PeriodInterestMonotone` | src/App.jsx:22 | with a non-negative rate, a larger balance is never charged less interest |
| `Amortisation.StepPeriod` | src/App.jsx:22-39 | one period: it records the current date; its extra flag follows the cadence test; its interest is `PeriodInterest` of the opening balance, so non-negative; the new balance is non-negative, it is 0 exactly when the payments cover the opening balance plus interest, and otherwise it is the opening balance plus interest less the payments; covering the interest never raises the balance, and not covering it never lowers it; the totals grow by the interest and by the amount paid |
| `Amortisation.Next` | src/App.jsx:40 | the next period's date is this period's date plus the day step; balance and totals carry over unchanged |
| `Amortisation.TraceFrom` | src/App.jsx:21 | a run from index `i` has at most `totalPeriods - i` periods |
| `Amortisation.Schedule` | src/App.jsx:34-39 | one record per period run, dated as that period, with the balance, cumulative interest and total paid each within half a unit of the exact figure |
| `Amortisation.CalculateSchedule` | src/App.jsx:8-44 | the loop returns exactly `Schedule(p)`, the rounded records of the specified run |
| `Amortisation.TraceFromAt` | src/App.jsx:21-40 | the `k`-th period runs only inside the term and from a positive balance, and is one step from the state the previous period left |
| `Amortisation.TraceFromEnd` | src/App.jsx:21 | a run ends only when the term is over or the next opening balance is not positive |
| `Amortisation.PeriodAt` | src/App.jsx:21-40 | the same as `TraceFromAt`, for the whole run |
| `Amortisation.ScheduleLength` | src/App.jsx:12-21 | the schedule has at most `termYears × paymentsPerYear[frequency]` records, one per period run |
| `Amortisation.BalancesNonNegative` | src/App.jsx:30-36 | every unrounded balance and every record's rounded balance is non-negative |
| `Amortisation.InterestFloor` | src/App.jsx:22 | each period's interest is non-negative, and it is zero when the offset covers the opening balance and the rate is non-negative |
| `Amortisation.InterestNonDecreasing` | src/App.jsx:31-37 | cumulative interest, unrounded and rounded, never decreases between records, and starts non-negative |
| `Amortisation.TotalPaidStep` | src/App.jsx:32 | total paid grows by exactly the repayment, plus the extra repayment in an extra period |
| `Amortisation.TotalPaidNonDecreasing` | src/App.jsx:32-38 | with non-negative amounts, the rounded total paid never decreases and starts non-negative |
| `Amortisation.ExtraPeriods` | src/App.jsx:14-27 | record `k` is an extra period exactly when the rounded cadence `n` is positive and divides `k` |
| `Amortisation.MonthlyIgnoresFasterExtra` | src/App.jsx:14-32 | a Monthly loan with Weekly or Fortnightly extras never makes an extra payment; after `k + 1` periods it has paid `(k + 1) × repayment` |
| `Amortisation.EarlyPayoff` | src/App.jsx:21-30 | every period opens with a positive balance, so every record but the last has a positive balance and a zero balance ends the schedule; a schedule shorter than the term ends with an unrounded balance of exactly 0, or is empty because the loan amount was not positive |
| `Amortisation.NegativeAmortisationRunsFullTerm` | src/App.jsx:21-30 | when repayments cannot cover the interest on the loan amount, the schedule has exactly `termYears × paymentsPerYear` records, the balance never falls below the loan amount, and the balance, unrounded and rounded, never decreases from one record to the next |
| `Amortisation.MonotonePayoff` | src/App.jsx:22-30 | a period whose interest the repayment covers, with non-negative extras, does not raise the balance |
| `Amortisation.DatesFollowCadence` | src/App.jsx:13-40 | record `k` is dated `startDay + k × deltaDays` |
| `Amortisation.FirstMonthOfSampleLoan` | src/App.jsx:8-39 | 100000 at 6% monthly over 10 years, repaying 1000: the rate is 0.005, there are 120 periods, and the first record is (start, 99500, 500, 1000) |
| `Comparison.Merge` | src/App.jsx:70-79 | there are `max(L1, L2)` rows; every row has a date; a loan's three fields are non-null exactly at the indices its schedule reaches |
| `Comparison.MergeValues` | src/App.jsx:72-78 | present fields carry the record's values unchanged, a zero staying 0; the date is loan 1's when loan 1 reaches the index, else loan 2's |
| `Comparison.MergeRoundTrip` | src/App.jsx:70-79 | loan 1's schedule reads back whole from the rows, and so do loan 2's amounts |
| `Comparison.CompareLoans` | src/App.jsx:66-79 | simulating both loans and merging gives `Merge(Schedule(loan1), Schedule(loan2))`, and no present balance is negative |

## Left out

- The React component is not modelled: its `useState` holders, the `useEffect` recompute, and the setters `setSchedule1`, `setSchedule2` and `setMergedSchedule`. `CompareLoans` stands for the body of the effect.
- `handleInput`, `handleSelect` and the `+e.target.value` parsing are not modelled. They are user-interface plumbing.
- JSX rendering, Recharts charting, tick formatting, `toLocaleString` currency display and tooltips are not modelled. They are presentation.
- `src/components/ui/input.jsx` is not modelled. It is a wrapper around an HTML input with no logic.
- Dates are integer day numbers. Parsing with `new Date(startDate)`, `toISOString().slice(0, 10)` formatting, and any time zone or daylight-saving shift of `setDate` in local time are not modelled. A start date that does not parse makes `toISOString` throw a RangeError once a period runs; a day number cannot represent one.
- IEEE-754 floating point is not modelled. Arithmetic is exact. A last-bit difference matters beyond the rounded figures: floating point can leave a tiny residue such as 1e-13 where exact arithmetic reaches 0, so the loop test `balance > 0` can pass once more in JavaScript and its schedule can be one record longer than the model's.
- Frequencies other than the three names are not modelled. In JavaScript they give `undefined` table entries and NaN arithmetic; here the frequency type has exactly three cases.
- A fractional or non-numeric term is not modelled. `termYears` is an integer.
- The closed-form fixed-payment amortisation formula is not compared with the schedule. It needs exponentiation and a rounding tolerance, which this real-arithmetic model does not state.
- Determinism needs no lemma. `Schedule` is a function, and `CalculateSchedule` is proved equal to it.
