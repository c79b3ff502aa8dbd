# LibeFinance simulation engine in Dafny

This project models the financial engine of LibeFinance (`calculations.js`), a
savings and loan simulator:

- the four schedule builders:
  - `calculateConstantSavings` and `calculateGeometricSavings` build accumulation
    schedules;
  - `calculateConstantLoan` and `calculateGeometricLoan` build amortization schedules;
- `generateRecommendations`, which re-runs a builder with one parameter changed at a time
  and reports the effect;
- `compareScenarios`, which tabulates two saved scenarios side by side;
- the in-memory scenario list behind `saveScenario`, `getScenarioById` and
  `deleteScenario`.

Money and rates are exact `real`s. An optional number that JavaScript tests for
truthiness is absent when it is 0 (`Simulation.Given`). A thrown error is the `Err`
variant of `Simulation.Result`:

- `MissingTerm`: neither a duration nor a target or payment was given;
- `InsufficientPayment`: the payment does not cover the interest;
- `ShrinkingPayments`: a geometric loan period has a principal that is not positive.

Modules, one per file:

- `Powers`: `Pow`, and `LogPeriods`, the number of passes that a schedule loop bounded by
  `Math.ceil(Math.log(x) / Math.log(b))` makes. That loop runs 0 times when the value is
  0, negative or `NaN`. So `LogPeriods` is:
  - for a base above 1, the least `n` with `b^n >= x`;
  - for a base between 0 and 1 and a positive `x`, the least `n` with `b^n <= x`. Both
    logarithms are negative when `x < 1`, so a falling balance also gets periods;
  - otherwise 0.

  The logarithmic period counts (calculations.js:36, 203-204) are therefore modelled
  exactly, with no logarithm, for negative rates as well as positive ones.
- `Simulation`: parameters, records, errors, scenarios.
- `Savings`: the savings builders.
  - Each builder is a `method` whose loops are the source's loops.
  - Each is proved equal to a specification function (`Schedule`, `Run`,
    `TargetPeriods`).
  - `SavingsFacts` proves the properties of those functions.
- `Loans`: the loan builders, specified the same way (`ConstantLoan`, `GeometricLoan`,
  `LoanRun`, `GeometricPeriods`). `LoanFacts` holds their properties.
- `Recommendations`: `generateRecommendations` as pure functions.
  - An `Advice` holds the figures its sentence reports.
  - It is `Unavailable` for the fixed fallback sentence, and `Empty` for the `''` left
    when no duration is given.
  - A re-run falls back (`Failed`) when the builder throws, or when its schedule is empty
    (reading its first or last record throws a `TypeError` inside the same `try`).
- `Comparison`: `compareScenarios` as a pure function.
  - Each `Row` holds the first scenario's figure, the second's and their difference.
  - `Figure` defines, criterion by criterion, what one scenario shows.
  - A division by zero (a yield with no deposits, a zero frequency) is a `NonFinite`
    cell.
- `Store`: the scenario list as a class holding a `seq`. `getScenarioById` is the
  `find` it calls, `FirstWithId`; `deleteScenario` is the filter `WithoutId`.

Two behaviours of the code are modelled as written:

- An unreachable savings target is not reported. The target search stops at 1000 periods
  and the schedule has 1000 records.
- For a geometric loan given by its duration, the duration advice measures the payment
  increase from the parameters' payment amount, not from the current first payment. The
  duration wins over a payment amount, so that amount plays no other part in such a loan.
  When no payment amount was given it is 0, and the reported increase is the whole new
  first payment.

## Model

| member | source | states |
|---|---|---|
| Savings.Schedule | calculations.js:29-49 | a savings builder throws exactly when neither a duration nor a target is given, and then with the missing-term error |
| Savings.SearchTargetPeriods | calculations.js:39-45 | the target search loop returns the count of the search `TargetPeriods`: compound and deposit until the balance reaches the target or 1000 iterations |
| Savings.Accumulate | calculations.js:51-83 | the schedule loop returns the run `Run`: one record per period from 1 to the count, stopping after the first record whose balance reaches a given target |
| Savings.CalculateConstantSavings | calculations.js:15-86 | the constant builder returns `Schedule(p, false)`: duration count, logarithmic count or search count, then the schedule loop |
| Savings.CalculateGeometricSavings | calculations.js:93-168 | the geometric builder returns `Schedule(p, true)`: the deposit grows by 1 + growthRate/100 each period |
| SavingsFacts.ScheduleAccounts | calculations.js:53-67 | in every record, balance = totalDeposits + totalInterest; totalDeposits is the initial deposit plus the sum of deposits so far; totalInterest is the sum of interest so far; records are numbered 1..len, no more than the count; no record before the last reaches the target |
| SavingsFacts.TargetPeriodsLeast | calculations.js:39-45 | the search count is at most 1000, every earlier iteration is below the target, and below 1000 the count's iteration reaches it |
| SavingsFacts.TargetDrivenSchedule | calculations.js:58-82 | a target-driven schedule has exactly the search count of records, every record before the last is below the target, and the last reaches it unless the cap was hit |
| SavingsFacts.ScheduleDeposits | calculations.js:134-159 | record i deposits periodicDeposit × (1 + growthRate/100)^i in a geometric schedule, and periodicDeposit in a constant one |
| Powers.LogPeriods | calculations.js:36 | the count is the least n with b^n >= x for a base of at least 1, the least n with b^n <= x for a base between 0 and 1 and a positive x, and 0 for a base or an x of at most 0 |
| SavingsFacts.ClosedFormSchedule | calculations.js:34-36 | with no periodic deposit and a rate of at least 0, the logarithmic count gives a schedule that grows the initial deposit geometrically; its last record reaches the target and no earlier record does |
| SavingsFacts.ClosedFormDecline | calculations.js:34-36 | with no periodic deposit and a negative rate, the logarithmic branch gives exactly one record when 1 + rate > 0 and 0 < target < initial deposit, and no record otherwise; that record either reaches the target, and the loop stops there, or falls below it with a count of 1 |
| SavingsFacts.DeclineRun | calculations.js:36-82 | the same, stated on the schedule loop's state: a shrinking balance run over the logarithmic count stops after its first record, or has none |
| SavingsFacts.ClosedFormSearch | calculations.js:34-45 | for a rate of at least 0, whenever the search could be run, the logarithmic count equals the search count |
| SavingsFacts.ZeroGrowthIsConstant | calculations.js:93-168 | the geometric builder with growth rate 0 returns what the constant builder returns, except in the constant builder's logarithmic branch with a negative rate or a count above 1000 |
| Loans.ResolveGeometricPeriods | calculations.js:296-313 | the payment-driven resolver loop returns `GeometricPeriods`: repay until at most 0.01 remains or 1000 iterations, failing on a non-positive principal |
| Loans.Amortization | calculations.js:216-251 | the amortization loop, with the geometric builder's test when `checked`, returns `LoanSchedule`: the run of clamped installments, or the shrinking-payment error |
| Loans.CalculateConstantLoan | calculations.js:175-254 | the constant builder returns `ConstantLoan(p)`: the annuity over the duration's periods, or the given payment over the logarithmic count |
| Loans.CalculateGeometricLoan | calculations.js:261-371 | the geometric builder returns `GeometricLoan(p)`: the adjusted first payment or the resolver's count, then the tested loop |
| LoanFacts.LoanScheduleBooks | calculations.js:211-234 | in every record, payment = principal + interest, remainingCapital + totalPrincipal = loanAmount, remainingCapital >= 0, and totalInterest is the sum of interest so far |
| LoanFacts.LoanScheduleShape | calculations.js:248-250 | records are numbered 1..len, no more than the count; every record before the last leaves more than 0.01; a schedule shorter than the count ends at most 0.01 |
| LoanFacts.LoanSchedulePayments | calculations.js:326-362 | period k pays the resolved payment × factor^(k-1) (the growth factor, or 1 for a constant loan); the last period pays no more than that |
| LoanFacts.ConstantPayments | calculations.js:216-227 | a constant schedule pays the same amount every period but the last, and the last pays no more |
| LoanFacts.GeometricPeriodsCount | calculations.js:300-311 | the resolver fails only with the insufficient-payment error; otherwise its count is at most 1000, more than 0.01 remains before it, and at most 0.01 remains at it unless the cap was hit |
| LoanFacts.ConstantLoanErrors | calculations.js:190-207 | missing-term error exactly when neither duration nor payment is given; insufficient-payment error exactly when only a payment is given and it is <= loanAmount × rate; never the shrinking-payment error |
| LoanFacts.GeometricPlanErrors | calculations.js:280-316 | missing-term error exactly when neither term is given; insufficient-payment error exactly when the loan is payment-driven and some iteration k < 1000 of the resolver, entered with more than 0.01 left, has payment × factor^k minus the interest on the balance left after k iterations <= 0; in particular always when the payment is <= the first interest on more than 0.01 |
| LoanFacts.ResolverFailsExactly | calculations.js:300-311 | the resolver started at iteration n fails exactly when one of its remaining iterations, entered with more than 0.01 left, has a principal <= 0 |
| LoanFacts.LoanRunRepaid | calculations.js:216-250 | record i of a schedule leaves the balance `Repaid` after i + 1 payments (the resolver's balance, clamped at 0), and repays the principal payment × factor^i minus that period's interest, cut down to what remains |
| LoanFacts.GeometricPaymentRepays | calculations.js:296-362 | a payment-driven geometric loan whose resolver returns a count m always builds a schedule, never the shrinking-payment error; it has m records, each leaving the resolver's balance clamped at 0, and below the cap the last leaves at most 0.01 |
| LoanFacts.AnnuityRepays | calculations.js:189-194 | after k annuity payments over n periods the balance is L × ((1+r)^n − (1+r)^k) / ((1+r)^n − 1) |
| LoanFacts.AnnuitySettles | calculations.js:189-194 | the annuity over n periods leaves exactly 0 after n payments |
| LoanFacts.ConstantDurationRepays | calculations.js:189-250 | a duration-driven constant loan of at least one period builds a schedule of at most n records whose last leaves at most 0.01, and exactly 0 when all n records are used; each record leaves the annuity's balance clamped at 0 |
| LoanFacts.PaymentBalanceSign | calculations.js:203-204 | with a payment above the first interest, the balance after k payments is positive exactly when (1+r)^k < P / (P − L × r) |
| LoanFacts.PaymentPeriodsRepay | calculations.js:203-204 | the logarithmic count is the least number of payments after which nothing of the loan remains |
| LoanFacts.ConstantPaymentRepays | calculations.js:195-250 | a payment-driven constant loan with a positive rate and amount builds a schedule of at most the logarithmic count of records whose last leaves at most 0.01, and exactly 0 when the count is used up; each record leaves the given payment's balance clamped at 0 |
| LoanFacts.ZeroRatePaymentLoanEmpty | calculations.js:195-216 | at rate 0 a payment-driven constant loan has an empty schedule when the payment is positive (the count is 0/0, `NaN`), and otherwise the insufficient-payment error |
| LoanFacts.ShrinkingPaymentsExactly | calculations.js:334-336 | the geometric builder fails with the shrinking-payment error exactly when its plan resolves and the untested schedule has a period with principal <= 0 |
| LoanFacts.OverpaymentSettles | calculations.js:287-291 | any first payment of at least the capital plus its interest gives the same single clamped record, so an infinite first payment is modelled by that amount |
| Recommendations.LoanPaymentAdvice | calculations.js:395-415 | the payment advice falls back exactly when the re-run with payment × 1.1 and no duration fails; otherwise it reports the figures |
| Recommendations.LoanGrowthAdvice | calculations.js:417-449 | the annuity advice falls back exactly when the toggled-annuity re-run fails; otherwise it favours the current annuity exactly when its total interest is not above the alternative's, by the absolute difference |
| Recommendations.LoanDurationAdvice | calculations.js:451-473 | the duration advice is empty exactly when no duration is given, and falls back exactly when the re-run over duration × 0.8 fails |
| Recommendations.SavingsPaymentAdvice | calculations.js:481-499 | the deposit advice falls back exactly when the re-run with deposit × 1.2 fails |
| Recommendations.SavingsGrowthAdvice | calculations.js:501-533 | the annuity advice falls back exactly when the toggled-annuity re-run fails; otherwise it favours the geometric plan exactly when the geometric final balance is larger, by the absolute difference |
| Recommendations.SavingsDurationAdvice | calculations.js:535-556 | the duration advice is empty exactly when no duration is given, and falls back exactly when the re-run over duration × 1.5 fails |
| Recommendations.GenerateRecommendations | calculations.js:379-559 | each field falls back exactly when its own re-run fails, whatever the other re-runs do; the duration field is empty exactly when no duration is given |
| Recommendations.DurationLoanPaymentFallsBack | calculations.js:396-397 | a loan given without a payment amount always gets the payment fallback: the raised payment is still absent and the duration is dropped |
| Recommendations.ConstantPaymentAdviceComputed | calculations.js:395-412 | a payment-driven constant loan of positive amount always gets a computed payment advice |
| Recommendations.LongerSavingsComputed | calculations.js:535-553 | a duration-driven savings plan with at least one record always gets a computed duration advice |
| Comparison.CompareScenarios | calculations.js:626-757 | every row shows both scenarios' figure for its criterion and their difference; a loan table lists 6 criteria, or 7 with the last payment when both schedules have more than one record; a savings table lists 8, or 9 with the growth rate when both are geometric; the duration is records / frequency |
| Comparison.LoanRowsCompare | calculations.js:630-684 | each row of the loan table is a criterion's figure for each loan and their difference |
| Comparison.LoanRowsListed | calculations.js:630-684 | the loan table's criteria are amount, rate, duration, first payment, last payment (only when both schedules have more than one record), total interest, total cost |
| Comparison.SavingsRowsCompare | calculations.js:686-754 | each row of the savings table is a criterion's figure for each plan and their difference, including the yield, whose difference (i1/d1 - i2/d2) × 100 is the difference of the two yields |
| Comparison.SavingsRowsListed | calculations.js:686-754 | the savings table's criteria are initial deposit, first deposit, rate, duration, growth rate (only when both are geometric), total deposits, total interest, final balance, yield |
| Store.ScenarioStore.constructor | calculations.js:8 | the list starts as the stored list |
| Store.ScenarioStore.Save | calculations.js:568-583 | the scenario is appended under the id `scenario_` + clock, and that id is returned |
| Store.ScenarioIdsDiffer | calculations.js:569 | scenarios saved at different clock readings get different ids |
| Store.FirstWithId | calculations.js:600-602 | the lookup finds nothing exactly when no scenario has the id, and otherwise the first scenario with it |
| Store.ScenarioStore.Delete | calculations.js:609-618 | the list becomes the list without the id; the result is true exactly when some scenario had the id, exactly when the length changed; on false the list is unchanged |
| Store.WithoutIdRemovesExactly | calculations.js:611 | the filtered list holds exactly the entries whose id differs, and it is shorter exactly when some entry had the id |
| Store.WithoutIdKeepsOrder | calculations.js:611 | filtering a concatenation is concatenating the filtered parts, so the kept entries stay in order |
| Store.WithoutIdUnchanged | calculations.js:611-617 | a list without the id is left as it is |

## Left out

- Floating point: the model computes over exact reals. IEEE-754 rounding, `NaN` and
  `Infinity` are not reproduced, except as `NonFinite` comparison cells.
- The `toFixed` text of recommendation sentences and comparison cells, with its units:
  the model keeps the numbers.
- `localStorage` (reading the list at start-up, writing it after a save or a deletion) and
  `getSavedScenarios`, which only reloads that storage: the list is the class's field,
  and the stored list is the constructor's argument.
- `Date.now()` is the `clock` parameter of `Save`. The scenario's timestamp and its
  date-stamped display name are not modelled.
- Null and absent parameters are both 0. `(initialDeposit || 0)` and the default
  `initialDeposit = 0` are therefore the field itself.
- `toFixed` on a null parameter throws in the comparison table; the model reads 0 instead.
- Loans.CalculateConstantLoan: requires an interest rate of at least 0, and a positive
  one when a duration is given. With a duration at rate 0 the annuity formula is 0/0, so
  every installment is `NaN`. A payment-driven loan at rate 0 is modelled: its count is
  `NaN` and its schedule empty (`LoanFacts.ZeroRatePaymentLoanEmpty`). Negative rates are
  not modelled.
- Loans.CalculateGeometricLoan: requires an interest rate of at least 0, and a positive
  one when a duration is given, for the same reason. A payment-driven loan at rate 0 is
  modelled.
- Savings.CalculateConstantSavings: requires a rate other than 0 when the logarithmic
  branch must grow the balance to a target above the initial deposit. There the source's
  count is `Infinity` and its loop never ends. Negative rates are modelled.
- SavingsFacts.ZeroGrowthIsConstant: stated only where the constant builder's logarithmic
  branch has a rate of at least 0 and a count of at most 1000. Elsewhere in that branch the
  two builders differ: a falling balance gets the logarithmic count, which the geometric
  builder's search does not reproduce, and the search stops at 1000.
- LoanFacts.ConstantDurationRepays: stated for a duration of at least one period. A shorter
  duration gives no periods and an empty schedule.
- LoanFacts.ConstantPaymentRepays: stated for a positive rate and a positive loan amount.
  The rate-0 case is `LoanFacts.ZeroRatePaymentLoanEmpty`.
- LoanFacts.GeometricPaymentRepays: at the cap of 1000 iterations the last record may
  leave more than 0.01, as in the source.
- Comparison.CompareScenarios: requires both scenarios to have at least one record, of
  the kind the first scenario's operation names. Otherwise the source throws a
  `TypeError` reading a missing record or field.
- Recommendations.GenerateRecommendations: requires a schedule with at least one record,
  since the source reads its last record outside any `try`. It also requires parameters
  for which every re-run terminates.
- Loans.GeometricFirstPayment: when the divisor 1 + g(n - 1)/2 is 0, the source's first
  payment is `Infinity`. The model uses the capital plus its interest, which gives the
  same single record (`LoanFacts.OverpaymentSettles`).
- The user-interface validation (non-negative deposits and rates, a positive loan amount)
  is not imposed. The builders' own requirements are listed above.
