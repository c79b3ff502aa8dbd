/** `generateRecommendations`: three pieces of advice, each obtained by re-running a
    builder on the parameters with one change and comparing the new schedule with the
    current one. Each re-run is guarded on its own: a builder error, or a schedule too
    short to read (the source indexes its last or first record), turns that one piece of
    advice into its fixed fallback sentence. The sentences themselves are not modelled;
    an advice holds the figures its sentence reports, or says which sentence it is. */
module Recommendations {
  import opened Simulation
  import opened Savings
  import opened Loans
  import opened Powers
  import opened SavingsFacts
  import opened LoanFacts

  /** One field of the recommendations object. */
  datatype Advice =
    | Empty                                                        // left '' (no duration given)
    | Unavailable                                                  // the fixed fallback sentence
    | PaymentAdvice(increase: real, newPayment: real, interestSaved: real, yearsSaved: real)
    | DepositAdvice(increase: real, newDeposit: real, extraBalance: real, newBalance: real)
    | AnnuityAdvice(better: Annuity, growthRate: real, amount: real) // `better` saves or yields `amount`
    | ShorterAdvice(from: real, to: real, paymentIncrease: real, interestSaved: real)
    | LongerAdvice(from: real, to: real, extraBalance: real, extraInterest: real)

  datatype Recommendations = Recommendations(payment: Advice, growth: Advice, duration: Advice)

  /** Whether a re-run lands in the source's `catch`: the builder threw, or the schedule
      has no record to read. */
  predicate Failed<T>(r: Result<seq<T>>) {
    r.Err? || |r.value| == 0
  }

  function Abs(x: real): real {
    if x < 0.0 then -x else x
  }

  // ---------------------------------------------------------------- loans

  function IncreasedPayment(p: Params): Params {
    p.(paymentAmount := p.paymentAmount * 1.1, duration := 0.0)
  }

  function LoanToggled(p: Params): Params {
    if p.annuity == Geometric then p.(annuity := Constant, growthRate := 0.0)
    else p.(annuity := Geometric, growthRate := 2.0)
  }

  function ShorterLoan(p: Params): Params {
    p.(duration := p.duration * 0.8, paymentAmount := 0.0)
  }

  /** The schedule the annuity advice compares a loan with. */
  function AlternativeLoan(p: Params): Result<seq<LoanRecord>>
    requires LoanRequires(p)
  {
    if p.annuity == Geometric then ConstantLoan(LoanToggled(p)) else GeometricLoan(LoanToggled(p))
  }

  /** The payment advice: the payment raised by 10% with the duration dropped. */
  function LoanPaymentAdvice(p: Params, results: seq<LoanRecord>): (a: Advice)
    requires LoanRequires(p) && |results| > 0
    ensures a == Unavailable <==> Failed(LoanBuilt(IncreasedPayment(p), p.annuity == Geometric))
    ensures a != Unavailable ==> a.PaymentAdvice?
  {
    var geometric := p.annuity == Geometric;
    var r := LoanBuilt(IncreasedPayment(p), geometric);
    if Failed(r) then Unavailable
    else
      var freq := p.paymentFrequency as real;
      PaymentAdvice(p.paymentAmount * 0.1, p.paymentAmount * 1.1,
                    results[|results| - 1].totalInterest - r.value[|r.value| - 1].totalInterest,
                    (|results| as real) / freq - (|r.value| as real) / freq)
  }

  /** The annuity advice: a geometric loan is compared with the constant one, a constant
      loan with a geometric one growing by 2%; a positive interest difference favours the
      alternative. */
  function LoanGrowthAdvice(p: Params, results: seq<LoanRecord>): (a: Advice)
    requires LoanRequires(p) && |results| > 0
    ensures a == Unavailable <==> Failed(AlternativeLoan(p))
    ensures a != Unavailable ==>
      var alt := AlternativeLoan(p).value;
      var current := results[|results| - 1].totalInterest;
      var other := alt[|alt| - 1].totalInterest;
      && a.AnnuityAdvice?
      && (a.better == p.annuity <==> current <= other)
      && a.amount == Abs(current - other)
  {
    var alternative := LoanToggled(p);
    var r := AlternativeLoan(p);
    if Failed(r) then Unavailable
    else
      var diff := results[|results| - 1].totalInterest - r.value[|r.value| - 1].totalInterest;
      var growth := if p.annuity == Geometric then p.growthRate else 2.0;
      if diff > 0.0 then AnnuityAdvice(alternative.annuity, growth, diff)
      else AnnuityAdvice(p.annuity, growth, Abs(diff))
  }

  /** The duration advice, only when a duration is given: the duration shortened by 20%
      with the payment dropped. The payment increase is measured from the current first
      payment for a constant loan, and from the parameters' payment amount for a
      geometric one. */
  function LoanDurationAdvice(p: Params, results: seq<LoanRecord>): (a: Advice)
    requires LoanRequires(p) && |results| > 0
    ensures a == Empty <==> !Given(p.duration)
    ensures a == Unavailable <==> Given(p.duration) && Failed(LoanBuilt(ShorterLoan(p), p.annuity == Geometric))
    ensures a != Empty && a != Unavailable ==> a.ShorterAdvice?
  {
    if !Given(p.duration) then Empty
    else
      var geometric := p.annuity == Geometric;
      var r := LoanBuilt(ShorterLoan(p), geometric);
      if Failed(r) then Unavailable
      else
        ShorterAdvice(p.duration, p.duration * 0.8,
                      r.value[0].payment - (if geometric then p.paymentAmount else results[0].payment),
                      results[|results| - 1].totalInterest - r.value[|r.value| - 1].totalInterest)
  }

  /** `generateRecommendations` for a loan schedule. */
  function LoanRecommendations(p: Params, results: seq<LoanRecord>): Recommendations
    requires LoanRequires(p) && |results| > 0
  {
    Recommendations(LoanPaymentAdvice(p, results), LoanGrowthAdvice(p, results), LoanDurationAdvice(p, results))
  }

  // ---------------------------------------------------------------- savings

  function IncreasedDeposit(p: Params): Params {
    p.(periodicDeposit := p.periodicDeposit * 1.2)
  }

  function SavingsToggled(p: Params): Params {
    if p.annuity == Geometric then p.(annuity := Constant, growthRate := 0.0)
    else p.(annuity := Geometric, growthRate := 3.0)
  }

  function LongerSavings(p: Params): Params {
    p.(duration := p.duration * 1.5)
  }

  /** What the savings re-runs need in order to terminate. */
  predicate SavingsAdviceComputable(p: Params) {
    && Computable(IncreasedDeposit(p), p.annuity == Geometric)
    && Computable(SavingsToggled(p), p.annuity != Geometric)
    && Computable(LongerSavings(p), p.annuity == Geometric)
  }

  /** The deposit advice: the periodic deposit raised by 20%. */
  function SavingsPaymentAdvice(p: Params, results: seq<SavingsRecord>): (a: Advice)
    requires SavingsAdviceComputable(p) && |results| > 0
    ensures a == Unavailable <==> Failed(Schedule(IncreasedDeposit(p), p.annuity == Geometric))
    ensures a != Unavailable ==> a.DepositAdvice?
  {
    var r := Schedule(IncreasedDeposit(p), p.annuity == Geometric);
    if Failed(r) then Unavailable
    else
      var newBalance := r.value[|r.value| - 1].balance;
      DepositAdvice(p.periodicDeposit * 0.2, p.periodicDeposit * 1.2,
                    newBalance - results[|results| - 1].balance, newBalance)
  }

  /** The annuity advice: a geometric plan is compared with the constant one, a constant
      plan with a geometric one growing by 3%; the geometric plan is favoured when it ends
      with the larger balance. */
  function SavingsGrowthAdvice(p: Params, results: seq<SavingsRecord>): (a: Advice)
    requires SavingsAdviceComputable(p) && |results| > 0
    ensures a == Unavailable <==> Failed(Schedule(SavingsToggled(p), p.annuity != Geometric))
    ensures a != Unavailable ==>
      var alt := Schedule(SavingsToggled(p), p.annuity != Geometric).value;
      var current := results[|results| - 1].balance;
      var other := alt[|alt| - 1].balance;
      var geometricBalance := if p.annuity == Geometric then current else other;
      var constantBalance := if p.annuity == Geometric then other else current;
      && a.AnnuityAdvice?
      && (a.better == Geometric <==> geometricBalance > constantBalance)
      && a.amount == Abs(geometricBalance - constantBalance)
  {
    var r := Schedule(SavingsToggled(p), p.annuity != Geometric);
    if Failed(r) then Unavailable
    else
      var current := results[|results| - 1].balance;
      var other := r.value[|r.value| - 1].balance;
      if p.annuity == Geometric then
        var diff := current - other;
        if diff > 0.0 then AnnuityAdvice(Geometric, p.growthRate, diff)
        else AnnuityAdvice(Constant, p.growthRate, Abs(diff))
      else
        var diff := other - current;
        if diff > 0.0 then AnnuityAdvice(Geometric, 3.0, diff)
        else AnnuityAdvice(Constant, 3.0, Abs(diff))
  }

  /** The duration advice, only when a duration is given: the duration lengthened by 50%. */
  function SavingsDurationAdvice(p: Params, results: seq<SavingsRecord>): (a: Advice)
    requires SavingsAdviceComputable(p) && |results| > 0
    ensures a == Empty <==> !Given(p.duration)
    ensures a == Unavailable <==> Given(p.duration) && Failed(Schedule(LongerSavings(p), p.annuity == Geometric))
    ensures a != Empty && a != Unavailable ==> a.LongerAdvice?
  {
    if !Given(p.duration) then Empty
    else
      var r := Schedule(LongerSavings(p), p.annuity == Geometric);
      if Failed(r) then Unavailable
      else
        var last := r.value[|r.value| - 1];
        LongerAdvice(p.duration, p.duration * 1.5,
                     last.balance - results[|results| - 1].balance,
                     last.totalInterest - results[|results| - 1].totalInterest)
  }

  /** `generateRecommendations` for a savings schedule. */
  function SavingsRecommendations(p: Params, results: seq<SavingsRecord>): Recommendations
    requires SavingsAdviceComputable(p) && |results| > 0
  {
    Recommendations(SavingsPaymentAdvice(p, results), SavingsGrowthAdvice(p, results), SavingsDurationAdvice(p, results))
  }

  /** What `generateRecommendations` needs: a schedule of the parameters' own kind with at
      least one record (its last record is read outside any guard), and parameters every
      re-run can be computed from. */
  predicate Recommendable(p: Params, data: ScenarioData) {
    match data
    case LoanData(rows) => p.operation == Loan && LoanRequires(p) && |rows| > 0
    case SavingsData(rows) => p.operation == Savings && SavingsAdviceComputable(p) && |rows| > 0
  }

  /** `generateRecommendations`. */
  function GenerateRecommendations(p: Params, data: ScenarioData): (r: Recommendations)
    requires Recommendable(p, data)
    ensures r.duration == Empty <==> !Given(p.duration)
    ensures data.LoanData? ==>
      && (r.payment == Unavailable <==> Failed(LoanBuilt(IncreasedPayment(p), p.annuity == Geometric)))
      && (r.growth == Unavailable <==> Failed(AlternativeLoan(p)))
      && (r.duration == Unavailable <==> Given(p.duration) && Failed(LoanBuilt(ShorterLoan(p), p.annuity == Geometric)))
    ensures data.SavingsData? ==>
      && (r.payment == Unavailable <==> Failed(Schedule(IncreasedDeposit(p), p.annuity == Geometric)))
      && (r.growth == Unavailable <==> Failed(Schedule(SavingsToggled(p), p.annuity != Geometric)))
      && (r.duration == Unavailable <==> Given(p.duration) && Failed(Schedule(LongerSavings(p), p.annuity == Geometric)))
  {
    match data
    case LoanData(rows) => LoanRecommendations(p, rows)
    case SavingsData(rows) => SavingsRecommendations(p, rows)
  }

  // ---------------------------------------------------------------- properties

  /** A loan resolved from its duration has no payment amount, so raising it by 10% while
      dropping the duration leaves neither term: the payment advice always falls back. */
  lemma {:induction false} DurationLoanPaymentFallsBack(p: Params, results: seq<LoanRecord>)
    requires LoanRequires(p) && |results| > 0 && !Given(p.paymentAmount)
    ensures LoanPaymentAdvice(p, results) == Unavailable
  {
    var q := IncreasedPayment(p);
    assert !Given(q.duration) && !Given(q.paymentAmount);
    ConstantLoanErrors(q);
    GeometricPlanErrors(q);
  }

  /** A constant loan of a positive amount at a positive rate resolved from a payment
      always gets a computed payment advice: the raised payment still exceeds the first
      interest, and its schedule has at least one period. (At rate 0 the re-run's schedule
      is empty, see `LoanFacts.ZeroRatePaymentLoanEmpty`, and the advice falls back.) */
  lemma {:induction false} ConstantPaymentAdviceComputed(p: Params, results: seq<LoanRecord>)
    requires LoanRequires(p) && |results| > 0 && p.annuity == Constant && p.interestRate > 0.0
    requires !Given(p.duration) && p.loanAmount > 0.0 && ConstantLoan(p).Ok?
    ensures LoanPaymentAdvice(p, results).PaymentAdvice?
  {
    var rate := PeriodicRate(p);
    LoanRateSign(p);
    ConstantLoanErrors(p);
    var first := Interest(p.loanAmount, rate);
    MulPositive(p.loanAmount, rate);
    var q := IncreasedPayment(p);
    var payment := q.paymentAmount;
    assert payment > first;
    ScaleBelow(payment - first, 1.0, payment);
    var n := PaymentPeriods(p.loanAmount, payment, rate);
    assert ConstantPlan(q) == Ok(Plan(n, payment));
    LoanRunShape(Opening(p.loanAmount, payment), rate, 1.0, 1, n);
  }

  /** A duration lengthened by 50% covers at least one period when the original does. */
  lemma {:induction false} LongerCovers(d: real, f: real)
    requires f > 0.0 && (d * f).Floor >= 1
    ensures ((d * 1.5) * f).Floor >= 1
  {
    assert (d * 1.5) * f == 1.5 * (d * f);
  }

  /** A savings plan with a duration whose schedule has a record always gets a computed
      duration advice: the lengthened duration covers at least as many periods. */
  lemma {:induction false} LongerSavingsComputed(p: Params)
    requires SavingsAdviceComputable(p) && Computable(p, p.annuity == Geometric)
    requires Given(p.duration)
    requires var r := Schedule(p, p.annuity == Geometric); r.Ok? && |r.value| > 0
    ensures SavingsDurationAdvice(p, Schedule(p, p.annuity == Geometric).value).LongerAdvice?
  {
    var geometric := p.annuity == Geometric;
    var q := LongerSavings(p);
    DurationCovered(p, geometric);
    LongerCovers(p.duration, p.paymentFrequency as real);
    DurationCovered(q, geometric);
  }

  /** A savings schedule with a duration has a record exactly when the duration covers at
      least one period. */
  lemma {:induction false} DurationCovered(p: Params, geometric: bool)
    requires Computable(p, geometric) && Given(p.duration)
    ensures Schedule(p, geometric).Ok?
    ensures |Schedule(p, geometric).value| > 0 <==> DurationPeriods(p) >= 1
  {
    ScheduleIsRun(p, geometric);
    RunShape(Start(p), PeriodicRate(p), Factor(p, geometric), p.targetAmount, 1, DurationPeriods(p));
  }
}
