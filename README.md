# Expense calculator loan engine, in Dafny

This project models the loan arithmetic of a property expense calculator written in TypeScript and
React, and proves properties of it over exact real numbers.

- **The payment derivations** of the three `useExpenseCalculations` hooks:
  - the loan left after the deposit;
  - the level monthly payment M = P·r(1+r)^n / ((1+r)^n − 1), with r = rate/100/12 and n = 360;
  - the monthly total, which adds a third of each quarterly fee;
  - the weekly total, which is monthly × 12 / 52.
  Each hook is a class whose fields are its `useState` values. Its effects and `resetAll` are
  methods that overwrite those fields.
- **The repayment chart component**, with two computations:
  - a yearly schedule of two running balances, "standard" and "with extra repayment", stepped
    month by month in nested loops;
  - a bounded month-by-month simulation of both tracks with an early `break`. It yields months
    paid, interest, total repayments, interest saved and time saved.
  Both are methods with loop invariants, proved equal to specification functions
  (`Schedule`, `Simulate`, `Metrics`). The properties are proved about those functions.
- **The input handlers**: comma stripping, parsing with a fallback to 0, and the blur handler
  that rewrites the field in place.

Modules:
- `Wrappers`: `Option`.
- `JsMath`: `Math.pow`, `Math.round`, `Math.floor`, `Math.max`, and JavaScript's
  truncated `%`.
- `Mortgage`: the shared formulas.
- `ExpenseHook`, `FixedRateHook`, `BasicHook`: the three hooks.
- `RepaymentGraph`: the chart component.
- `InputUtils`: the input handlers.

Numbers are exact reals, so IEEE-754 rounding is not modelled. In the parameterised hook, a payment
that JavaScript would make NaN or infinite is `None`.

Where the code departs from what a textbook amortizer would do, the model follows the code:
- There is no zero-rate branch. At rate 0 the formula divides 0 by 0, so the payment is NaN
  (`MortgageAtZeroRate`). It is not P/n.
- The yearly schedule lets a balance grow when the payment is below the month's interest. `Step`
  states this.
- The months saved are not clamped at 0. With `Math.floor` and the truncated `%` they can show
  −1 year and −1 month (`NegativeTimeSaved`). The chart only displays positive values.
- The extra track's metrics are 0, not a copy of the standard track, when the additional
  repayment is not positive. The figures then report the whole standard interest and term as
  saved (`NoExtraCountsAllSaved`), so the interest saved does not grow from an additional
  repayment of 0 to a positive one. It grows only between positive ones (`LargerExtraSavesMore`).
  The chart shows the savings only when the additional repayment is positive.
- A track that cannot amortize simply stops. No flag is raised.

## Model

| member | source | states |
|---|---|---|
| JsMath.Pow | src/hooks/use-expense-calculations.ts:98-99 | `Math.pow` with a whole exponent, as repeated multiplication; properties in `PowOfOne`, `PowPositive`, `PowStrictlyIncreasing`, `PowAboveOne` |
| JsMath.Round | src/components/expense-calculator/RepaymentGraph.tsx:68-69 | `Math.round`: the nearest integer, ties going up: r − ½ ≤ x < r + ½ |
| JsMath.Floor | src/components/expense-calculator/RepaymentGraph.tsx:152 | `Math.floor`: the greatest integer not above x |
| JsMath.Max | src/components/expense-calculator/RepaymentGraph.tsx:78 | `Math.max`: an upper bound of both arguments, equal to one of them |
| JsMath.MaxInt | src/components/expense-calculator/RepaymentGraph.tsx:68-69 | `Math.max(0, …)` on the rounded balances: an upper bound equal to one argument |
| JsMath.TruncRem | src/components/expense-calculator/RepaymentGraph.tsx:153 | JavaScript `%`: the remainder takes the sign of the dividend and pairs with the truncated quotient |
| Mortgage.LoanAmount | src/hooks/use-expense-calculations.ts:88 | the loan plus the deposit (the percentage of the price) is the price |
| Mortgage.MonthlyRate | src/hooks/use-expense-calculations.ts:94 | the monthly rate is the annual percentage over 1200 |
| Mortgage.LevelPayment | src/hooks/use-expense-calculations.ts:97-99 | the formula P·r·(1+r)^n / ((1+r)^n − 1); its properties are the lemmas `LevelPaymentLinear`, `FullAmortizationIdentity`, `LevelPaymentExceedsInterest`, `LevelPaymentUnclamped` and the two monotonicity lemmas |
| Mortgage.MortgagePayment | src/hooks/use-expense-calculations.ts:93-104 | 0 without a positive loan; non-finite exactly when a positive loan meets (1+r)^n = 1 |
| Mortgage.LevelPaymentUnclamped | src/hooks/use-expense-calculations.ts:91-99 | n level payments take the loan's balance, month by month without any clamp, to exactly 0 at month n, and it stays positive before |
| Mortgage.LevelPaymentMonotoneInPrincipal | src/hooks/use-expense-calculations.ts:97-99 | a larger loan never gets a smaller payment |
| Mortgage.LevelPaymentMonotoneInRate | src/hooks/use-expense-calculations.ts:94-99 | a higher rate never gets a smaller payment |
| Mortgage.MortgagePaymentMonotone | src/hooks/use-expense-calculations.ts:93-101 | for positive loans and rates the hook's payment is finite and non-decreasing in both the loan and the annual rate |
| Mortgage.LoanAmountSign | src/hooks/use-expense-calculations.ts:88 | for a positive price the loan is positive iff the deposit is below 100%, and negative iff above |
| Mortgage.FivePercentDeposit | src/hooks/use-expense-calculations.ts:88 | a 5% deposit leaves 0.95 of the price |
| Mortgage.LevelPaymentLinear | src/hooks/use-expense-calculations.ts:97-99 | the payment is linear in the principal |
| Mortgage.FullAmortizationIdentity | src/hooks/use-expense-calculations.ts:91-99 | P(1+r)^n = M((1+r)^n − 1)/r: the formula is the standard mortgage formula |
| Mortgage.LevelPaymentExceedsInterest | src/hooks/use-expense-calculations.ts:94-99 | at a positive rate the payment exceeds the first month's interest P·r |
| Mortgage.MortgageWithoutLoan | src/hooks/use-expense-calculations.ts:93-104 | no positive loan gives a payment of 0 |
| Mortgage.MortgageAtPositiveRate | src/hooks/use-expense-calculations.ts:93-101 | a positive loan at a positive rate gets the finite level payment over n months, above the first interest |
| Mortgage.MortgageAtZeroRate | src/hooks/use-expense-calculations.ts:97-99 | at rate 0 a positive loan's payment is non-finite (NaN): there is no zero-rate branch |
| Mortgage.MonthlyTotal | src/hooks/use-expense-calculations.ts:109-115 | the monthly total exceeds the payment by a third of the three quarterly fees |
| Mortgage.WeeklyTotal | src/hooks/use-expense-calculations.ts:118 | weekly × 52 = monthly × 12, and the weekly total is ≥ 0 iff the monthly one is |
| Mortgage.MonthlyTotalOf | src/hooks/use-expense-calculations.ts:107-115 | a non-finite payment gives a non-finite monthly total; otherwise it adds a third of the fees |
| Mortgage.WeeklyTotalOf | src/hooks/use-expense-calculations.ts:117-119 | the weekly total is finite iff the monthly one is, and then is 12/52 of it |
| ExpenseHook.ExpenseCalculations.Settled | src/hooks/use-expense-calculations.ts:86-120 | the state both effects leave: the loan, the payment over 360 months and both totals derived from the inputs |
| ExpenseHook.ExpenseCalculations.constructor | src/hooks/use-expense-calculations.ts:59-81 | the initial inputs: 0 for price and fees, 5% deposit, 5.93% rate, 0 additional; derived values 0 |
| ExpenseHook.ExpenseCalculations.RecomputeMortgage | src/hooks/use-expense-calculations.ts:86-105 | the loan is price × (1 − deposit/100); the payment is the formula over 360 months or 0; nothing else changes |
| ExpenseHook.ExpenseCalculations.RecomputeTotals | src/hooks/use-expense-calculations.ts:107-120 | the monthly and weekly totals follow the payment and fees; nothing else changes |
| ExpenseHook.ExpenseCalculations.Settle | src/hooks/use-expense-calculations.ts:86-120 | both effects in order leave every derived value consistent with the inputs |
| ExpenseHook.ExpenseCalculations.ResetAll | src/hooks/use-expense-calculations.ts:173-180 | resetAll puts every input back to its default and touches nothing else |
| ExpenseHook.SettledWithoutLoan | src/hooks/use-expense-calculations.ts:93-115 | settled without a positive loan: payment 0 and monthly total equal to the fees' thirds |
| ExpenseHook.SettledWithLoan | src/hooks/use-expense-calculations.ts:93-101 | settled with a positive loan and rate: the level payment over 360 months, above the first interest, with finite totals |
| ExpenseHook.DefaultsDeriveZero | src/hooks/use-expense-calculations.ts:173-180 | at the reset defaults every derived value is 0 |
| FixedRateHook.FixedRatePaymentIsFinite | src/components/expense-calculator/use-expense-calculations.ts:82-90 | at the fixed 5.93% rate the payment is finite for every loan and exceeds the first interest |
| FixedRateHook.ExpenseCalculations.Settled | src/components/expense-calculator/use-expense-calculations.ts:75-109 | the state both effects leave: 95% of the price borrowed, the payment at 5.93% over 360 months, both totals |
| FixedRateHook.ExpenseCalculations.constructor | src/components/expense-calculator/use-expense-calculations.ts:52-68 | every field starts at 0 |
| FixedRateHook.ExpenseCalculations.RecomputeMortgage | src/components/expense-calculator/use-expense-calculations.ts:75-94 | the loan is price × 0.95; the payment is the formula at 5.93% over 360 months or 0; the inputs are unchanged |
| FixedRateHook.ExpenseCalculations.RecomputeTotals | src/components/expense-calculator/use-expense-calculations.ts:96-109 | the monthly and weekly totals follow the payment and fees |
| FixedRateHook.ExpenseCalculations.Settle | src/components/expense-calculator/use-expense-calculations.ts:75-109 | both effects in order leave every derived value consistent with the inputs |
| FixedRateHook.ExpenseCalculations.ResetAll | src/components/expense-calculator/use-expense-calculations.ts:141-145 | resetAll zeroes exactly the price and the three fees |
| FixedRateHook.SettledFacts | src/components/expense-calculator/use-expense-calculations.ts:82-108 | settled: payment 0 without a loan, above the first interest with one; monthly = payment + fees/3; weekly ≥ 0 iff monthly ≥ 0 |
| BasicHook.ExpenseCalculations.constructor | src/components/use-expense-calculations.ts:20-28 | every field starts at 0 |
| BasicHook.ExpenseCalculations.RecomputeMortgage | src/components/use-expense-calculations.ts:35-54 | the loan is price × 0.95; the payment is the formula or 0, and exceeds the first interest for a positive loan |
| BasicHook.ExpenseCalculations.RecomputeTotals | src/components/use-expense-calculations.ts:56-69 | monthly = payment + fees/3, weekly = monthly × 12/52, weekly ≥ 0 iff monthly ≥ 0 |
| RepaymentGraph.Balance | src/components/expense-calculator/RepaymentGraph.tsx:75-86 | a track's running balance after a number of months; a balance that starts at or below 0 is never stepped |
| RepaymentGraph.Point | src/components/expense-calculator/RepaymentGraph.tsx:65-69 | the point for a year: its year, and each track's balance after 12 × year months rounded to within half a unit, floored at 0 |
| RepaymentGraph.Schedule | src/components/expense-calculator/RepaymentGraph.tsx:53-91 | empty exactly without a positive loan and payment (or with a negative term); otherwise one point per year 0 through the term, point i for year i |
| RepaymentGraph.Step | src/components/expense-calculator/RepaymentGraph.tsx:75-86 | one month keeps a non-negative balance non-negative and holds 0 at 0; it lowers the balance when principal is paid and raises it when the payment is below the interest |
| RepaymentGraph.BalanceNonNegative | src/components/expense-calculator/RepaymentGraph.tsx:75-86 | a running balance that starts ≥ 0 stays ≥ 0 |
| RepaymentGraph.ZeroIsAbsorbing | src/components/expense-calculator/RepaymentGraph.tsx:75-86 | once a running balance is 0 it stays 0 |
| RepaymentGraph.StepMonotone | src/components/expense-calculator/RepaymentGraph.tsx:75-86 | at a non-negative rate the clamped month is monotone in the balance |
| RepaymentGraph.StepWithExtraBelow | src/components/expense-calculator/RepaymentGraph.tsx:81-86 | a non-negative additional repayment never leaves more owing |
| RepaymentGraph.ExtraNeverAboveStandard | src/components/expense-calculator/RepaymentGraph.tsx:75-86 | with rate and additional ≥ 0 the extra track's running balance never exceeds the standard one |
| RepaymentGraph.RepaymentSchedule | src/components/expense-calculator/RepaymentGraph.tsx:53-91 | the nested loops build exactly `Schedule` |
| RepaymentGraph.ScheduleEmpty | src/components/expense-calculator/RepaymentGraph.tsx:54-56 | no positive loan or payment gives an empty schedule |
| RepaymentGraph.ScheduleShape | src/components/expense-calculator/RepaymentGraph.tsx:62-70 | a T-year term gives T + 1 points, point i is year i, balances ≥ 0, point 0 shows max(0, round(loan)) on both tracks |
| RepaymentGraph.ScheduleTracksOrdered | src/components/expense-calculator/RepaymentGraph.tsx:65-88 | with rate and additional ≥ 0 every point's extra balance is at most its standard balance |
| RepaymentGraph.ScheduleZeroStays | src/components/expense-calculator/RepaymentGraph.tsx:65-88 | once a track's running balance is 0 at the start of a year, every later point shows 0 |
| RepaymentGraph.LevelPaymentPaysOff | src/components/expense-calculator/RepaymentGraph.tsx:75-79 | with the level payment the standard balance is positive before month n and exactly 0 at month n |
| RepaymentGraph.ScheduleEndsAtZero | src/components/expense-calculator/RepaymentGraph.tsx:65-79 | with the hook's payment for the same term and a positive rate, the last point's standard balance is 0 |
| RepaymentGraph.Simulate | src/components/expense-calculator/RepaymentGraph.tsx:115-124 | the metrics loop runs at most the months allowed |
| RepaymentGraph.MonthCap | src/components/expense-calculator/RepaymentGraph.tsx:115 | the month bound is 12 × term, or none for a negative term |
| RepaymentGraph.SimulateTrack | src/components/expense-calculator/RepaymentGraph.tsx:111-124 | the while loop with its early break computes exactly `Simulate` |
| RepaymentGraph.ComputeLoanMetrics | src/components/expense-calculator/RepaymentGraph.tsx:93-167 | the component's metrics computation computes exactly `Metrics` |
| RepaymentGraph.SimulateAdditional | src/components/expense-calculator/RepaymentGraph.tsx:142 | the summed additional repayments are one per month paid |
| RepaymentGraph.SimulateInterestNonNegative | src/components/expense-calculator/RepaymentGraph.tsx:121 | at a rate ≥ 0 the accumulated interest is ≥ 0 |
| RepaymentGraph.SimulateLowersBalance | src/components/expense-calculator/RepaymentGraph.tsx:119-123 | a track ends between 0 and its start, and strictly lower if it paid any month |
| RepaymentGraph.SimulateStopReason | src/components/expense-calculator/RepaymentGraph.tsx:115-119 | a track stops paid off, at the month cap, or when the payment no longer covers the interest |
| RepaymentGraph.SimulateNeverStalls | src/components/expense-calculator/RepaymentGraph.tsx:115-123 | at a rate ≥ 0, a payment covering the first interest never trips the safety check |
| RepaymentGraph.SimulatePaymentsCover | src/components/expense-calculator/RepaymentGraph.tsx:116-126 | what a track pays covers the interest charged plus the principal cleared |
| RepaymentGraph.SimulateFollowsSchedule | src/components/expense-calculator/RepaymentGraph.tsx:115-124 | the metrics loop ends where the chart's running balance is after as many months |
| RepaymentGraph.ExtraFinishesNoLater | src/components/expense-calculator/RepaymentGraph.tsx:135-145 | at a rate ≥ 0, a track that starts no higher and adds at least as much each month takes no more months than one that ran to 0 or the cap (the standard track when the smaller addition is 0) |
| RepaymentGraph.ExtraPaysNoMoreInterest | src/components/expense-calculator/RepaymentGraph.tsx:135-145 | under the same conditions that track is charged no more interest |
| RepaymentGraph.StandardTrack | src/components/expense-calculator/RepaymentGraph.tsx:108-124 | the standard loop: at most 12 × term months, with non-negative interest at a non-negative rate |
| RepaymentGraph.ExtraTrack | src/components/expense-calculator/RepaymentGraph.tsx:129-145 | the extra loop: at most 12 × term months, all 0 unless the additional repayment is positive, one additional repayment per month paid |
| RepaymentGraph.Summary | src/components/expense-calculator/RepaymentGraph.tsx:126-163 | the figures keep both tracks' months and interest; the interest saved is at least 0 and the difference; a non-negative months saved splits into years and 0–11 months |
| RepaymentGraph.Metrics | src/components/expense-calculator/RepaymentGraph.tsx:93-167 | all 0 without a positive loan and payment; both terms within 12 × term months; interest saved ≥ 0; standard total repayments = standard term × payment and extra total repayments = extra term × (payment + additional), through `RepaymentsArePayments` |
| RepaymentGraph.MetricsWithoutLoan | src/components/expense-calculator/RepaymentGraph.tsx:94-106 | no positive loan or payment makes every metric 0 |
| RepaymentGraph.MetricsBounds | src/components/expense-calculator/RepaymentGraph.tsx:115-163 | month counts within 12 × term; extra metrics 0 when the additional repayment is not positive; interest saved ≥ 0 and ≥ the difference |
| RepaymentGraph.SummaryStandardRepayments | src/components/expense-calculator/RepaymentGraph.tsx:126 | standard total repayments = months × payment |
| RepaymentGraph.SummaryExtraRepayments | src/components/expense-calculator/RepaymentGraph.tsx:148 | extra total repayments = months × (payment + additional) |
| RepaymentGraph.SummaryRepayments | src/components/expense-calculator/RepaymentGraph.tsx:125-148 | both totals together, given one additional repayment per month of the extra track |
| RepaymentGraph.TimeSavedSplit | src/components/expense-calculator/RepaymentGraph.tsx:151-153 | when months saved ≥ 0: years × 12 + months = months saved, with 0 ≤ months < 12 |
| RepaymentGraph.FloorTwelfth | src/components/expense-calculator/RepaymentGraph.tsx:152 | `Math.floor(a / 12)` is the floor quotient for either sign of a |
| RepaymentGraph.ExtraRepaymentSaves | src/components/expense-calculator/RepaymentGraph.tsx:151-163 | with additional > 0, rate ≥ 0 and a payment above the first interest, the extra track takes no longer and pays no more interest; the time saved splits exactly and the interest saved is the plain difference |
| RepaymentGraph.LargerExtraSavesMore | src/components/expense-calculator/RepaymentGraph.tsx:135-163 | for additional repayments 0 < a1 ≤ a2 and a payment above the first interest: a2's extra track is no longer and pays no more interest, and the months saved and interest saved are no smaller |
| RepaymentGraph.NoExtraCountsAllSaved | src/components/expense-calculator/RepaymentGraph.tsx:135-163 | without a positive additional repayment the extra figures are 0, and the whole standard interest and term count as saved |
| RepaymentGraph.NegativeTimeSaved | src/components/expense-calculator/RepaymentGraph.tsx:151-153 | time saved is unclamped: a standard track stopped at once against an extra track paid in a month gives −1 year and −1 month |
| RepaymentGraph.LevelPaymentRunsFullTerm | src/components/expense-calculator/RepaymentGraph.tsx:115-124 | with the level payment for n months the metrics loop runs exactly n months |
| RepaymentGraph.StandardTrackRunsFullTerm | src/components/expense-calculator/RepaymentGraph.tsx:115-126 | with the hook's payment and a positive rate the standard term is 12 × term months |
| InputUtils.StripCommas | src/components/expense-calculator/input-utils.ts:5 | the result has no comma and keeps every other character's count |
| InputUtils.StripCommasConcat | src/components/expense-calculator/input-utils.ts:5 | stripping distributes over concatenation, so the remaining characters keep their order |
| InputUtils.NoCommaIdentity | src/components/expense-calculator/input-utils.ts:5 | text without commas is unchanged |
| InputUtils.StripCommasIdempotent | src/components/expense-calculator/input-utils.ts:5 | stripping twice is stripping once |
| InputUtils.NumericValue | src/components/expense-calculator/input-utils.ts:6 | the setter gets the parsed number whenever parsing succeeds, and 0 when it fails |
| InputUtils.NonZeroPassesThrough | src/components/expense-calculator/input-utils.ts:6-7 | every non-zero parsed number, negative ones included, reaches the setter unchanged |
| InputUtils.CommaIgnored | src/components/expense-calculator/input-utils.ts:5-6 | a comma anywhere does not change the number |
| InputUtils.HandleInputChange | src/components/expense-calculator/input-utils.ts:3-8 | the change handler passes `NumericValue` of the field's text to the setter |
| InputUtils.BlurredText | src/components/expense-calculator/input-utils.ts:10-15 | a blur shows the locale format of a positive number, and leaves the text unchanged otherwise |
| InputUtils.BlurIsStable | src/components/expense-calculator/input-utils.ts:10-15 | when the locale format parses back to the number, a blur keeps the number and a second blur changes nothing |
| InputUtils.HandleInputBlur | src/components/expense-calculator/input-utils.ts:10-15 | the blur handler leaves the element holding `BlurredText` of its old text |

## Left out

- Loading, saving and removing values in localStorage, and the 500 ms save debounce: these are browser storage and timers.
- React's effect and memo scheduling. Each effect is a synchronous method, and `Settle` runs the two effects in dependency order.
- React state setters: the hooks' fields are assigned directly. `HandleInputChange` returns the number it would pass to the setter.
- JSX rendering, the chart, `toFixed` and the chart's "render nothing without a loan" check: this is presentation.
- `toLocaleString` and `Number.parseFloat` are parameters of the input handlers. Their grammar and locale rules, and parseFloat's Infinity, are not modelled.
- IEEE-754 rounding and `Math.pow` precision: numbers are exact reals and `Pow` is repeated multiplication.
- A non-finite payment reaching the chart component is not modelled: the component's inputs are reals.
- The `useFormattedNumberInput` hook is not part of this model.
- Concrete figures, such as the payment on a 475000 loan at 5.93% over 30 years, are not computed: exact 360th powers of a rational are too large to evaluate in proofs.
- ExtraRepaymentSaves: proves that the extra track takes at most as many months as the standard one, not strictly fewer. A small enough additional repayment can finish in the same month.
- The chart's `loanTermYears` is modelled as a whole number. All three hooks fix it at 30.
