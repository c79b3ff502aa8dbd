/** The data the engine works on: the parameter object a simulation is run with,
    the per-period records the four schedule builders produce, their errors, and
    a saved scenario. */
module Simulation {

  datatype Operation = Savings | Loan

  datatype Annuity = Constant | Geometric

  /** The parameter object of a simulation, as the forms build it. Optional amounts the
      source leaves `null` (and the ones a form parses to 0 or NaN) are 0.0 here: the
      engine only ever tests them for truthiness, and `null` counts as 0 in its arithmetic. */
  datatype Params = Params(
    operation: Operation,
    annuity: Annuity,
    initialDeposit: real,     // savings: balance at period 0
    periodicDeposit: real,    // savings: deposit of the first period
    loanAmount: real,         // loan: capital borrowed
    interestRate: real,       // annual rate, in percent
    paymentFrequency: int,    // periods per year
    duration: real,           // years; 0.0 when absent
    targetAmount: real,       // savings: balance to reach; 0.0 when absent
    paymentAmount: real,      // loan: (first) payment; 0.0 when absent
    growthRate: real          // geometric: percent growth of the cash flow per period
  )

  /** The iteration cap of the engine's period-count searches: the savings target search
      and the geometric loan's payment-driven resolver. */
  const Cap: nat := 1000

  /** JavaScript truthiness of a number: `if (duration)` is false for null and for 0. */
  predicate Given(x: real) {
    x != 0.0
  }

  /** `interestRate / 100 / paymentFrequency`. */
  function PeriodicRate(p: Params): real
    requires p.paymentFrequency > 0
  {
    p.interestRate / 100.0 / (p.paymentFrequency as real)
  }

  /** `1 + growthRate / 100`: the factor a geometric cash flow is multiplied by after
      each period. The annual growth rate is applied per period, not converted. */
  function GrowthFactor(p: Params): real {
    1.0 + p.growthRate / 100.0
  }

  /** `Math.floor(duration * paymentFrequency)`. */
  function DurationPeriods(p: Params): int {
    (p.duration * (p.paymentFrequency as real)).Floor
  }

  /** The errors the builders throw. */
  datatype Error =
    | MissingTerm          // neither a duration nor a target amount / payment amount
    | InsufficientPayment  // the payment does not cover the interest of the capital
    | ShrinkingPayments    // a geometric loan period whose payment no longer covers the interest

  datatype Result<T> = Ok(value: T) | Err(error: Error)

  /** One record of a savings schedule. */
  datatype SavingsRecord = SavingsRecord(
    period: int, deposit: real, interest: real, balance: real,
    totalDeposits: real, totalInterest: real)

  /** One record of an amortization schedule. */
  datatype LoanRecord = LoanRecord(
    period: int, payment: real, interest: real, principal: real,
    remainingCapital: real, totalInterest: real, totalPrincipal: real)

  /** The records a simulation produced, of either kind. */
  datatype ScenarioData = SavingsData(savings: seq<SavingsRecord>) | LoanData(loan: seq<LoanRecord>)

  /** A saved scenario. The source also stores a display name and an ISO timestamp,
      both derived from the clock. */
  datatype Scenario = Scenario(id: string, params: Params, data: ScenarioData)

  /** Sum of the per-period interest of a run of savings records. */
  function SavingsInterestSum(rows: seq<SavingsRecord>): real
    decreases |rows|
  {
    if rows == [] then 0.0 else rows[0].interest + SavingsInterestSum(rows[1..])
  }

  /** Sum of the deposits of a run of savings records. */
  function DepositSum(rows: seq<SavingsRecord>): real
    decreases |rows|
  {
    if rows == [] then 0.0 else rows[0].deposit + DepositSum(rows[1..])
  }

  /** Sum of the per-period interest of a run of loan records. */
  function LoanInterestSum(rows: seq<LoanRecord>): real
    decreases |rows|
  {
    if rows == [] then 0.0 else rows[0].interest + LoanInterestSum(rows[1..])
  }
}
