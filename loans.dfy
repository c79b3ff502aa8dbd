/** The two loan builders, `calculateConstantLoan` and `calculateGeometricLoan`. Both
    resolve a period count and a first payment (from the duration by the annuity formula,
    or from a given payment), then amortize period by period: interest on the remaining
    capital, the rest of the payment repays capital, the last payment is cut down to what
    is left, and the loop stops once at most 0.01 remains. A constant loan pays the same
    amount every period (its payment is multiplied by 1); a geometric loan multiplies it by
    1 + growthRate / 100 after each period and fails on a period whose payment does not
    exceed its interest. */
module Loans {
  import opened Powers
  import opened Simulation

  /** The loop variables of a loan builder between two periods. */
  datatype LoanState = LoanState(remaining: real, totalInterest: real, totalPrincipal: real, payment: real)

  /** What a loan builder resolves before its schedule loop. */
  datatype Plan = Plan(periods: int, payment: real)

  /** The loop ends once the remaining capital is at most this amount. */
  const Settled: real := 0.01

  /** What the loan builders need: a positive frequency, a rate of at least 0, and a
      positive rate when a duration is given (with rate 0 the annuity formula is 0/0, so
      every installment of the duration-driven loop is `NaN`). */
  predicate LoanRequires(p: Params) {
    && p.paymentFrequency > 0 && p.interestRate >= 0.0
    && (Given(p.duration) ==> p.interestRate > 0.0)
  }

  lemma {:induction false} LoanRateSign(p: Params)
    requires LoanRequires(p)
    ensures PeriodicRate(p) >= 0.0
    ensures p.interestRate > 0.0 ==> PeriodicRate(p) > 0.0
  {
    assert p.interestRate / 100.0 >= 0.0;
  }

  /** The interest that `remaining` capital earns in one period at `rate`. */
  function Interest(remaining: real, rate: real): real {
    remaining * rate
  }

  /** The state before period 1. */
  function Opening(loanAmount: real, payment: real): LoanState {
    LoanState(loanAmount, 0.0, 0.0, payment)
  }

  /** The record of `period` when the loop enters it in state `s` and the remaining capital
      earns `interest`: the rest of the payment as principal, cut down to the remaining
      capital (and the payment with it) when it would repay more than is owed. */
  function Installment(period: int, s: LoanState, interest: real): LoanRecord {
    var raw := s.payment - interest;
    var principal := if raw > s.remaining then s.remaining else raw;
    var payment := if raw > s.remaining then principal + interest else s.payment;
    LoanRecord(period, payment, interest, principal, s.remaining - principal,
               s.totalInterest + interest, s.totalPrincipal + principal)
  }

  /** The state after the installment `rec`: its capital and totals carried over, its
      payment scaled by `factor` for the next period. */
  function Carry(rec: LoanRecord, factor: real): LoanState {
    LoanState(rec.remainingCapital, rec.totalInterest, rec.totalPrincipal, rec.payment * factor)
  }

  /** The records the schedule loop pushes for periods `period..total`, entered in state `s`. */
  function LoanRun(s: LoanState, rate: real, factor: real, period: int, total: int): seq<LoanRecord>
    decreases total - period
  {
    if period > total then []
    else
      var rec := Installment(period, s, Interest(s.remaining, rate));
      if rec.remainingCapital <= Settled then [rec]
      else [rec] + LoanRun(Carry(rec, factor), rate, factor, period + 1, total)
  }

  /** Whether the geometric schedule loop, entered in state `s` at `period`, meets a period
      whose payment does not exceed its interest before it stops. */
  predicate Shrinks(s: LoanState, rate: real, factor: real, period: int, total: int)
    decreases total - period
  {
    && period <= total
    && (|| s.payment - Interest(s.remaining, rate) <= 0.0
        || (var rec := Installment(period, s, Interest(s.remaining, rate));
            rec.remainingCapital > Settled && Shrinks(Carry(rec, factor), rate, factor, period + 1, total)))
  }

  /** The schedule a loan builder returns from its resolved plan; `checked` is the geometric
      builder's test of every period. */
  function LoanSchedule(start: LoanState, rate: real, factor: real, checked: bool, total: int): Result<seq<LoanRecord>> {
    if checked && Shrinks(start, rate, factor, 1, total) then Err(ShrinkingPayments)
    else Ok(LoanRun(start, rate, factor, 1, total))
  }

  /** The constant annuity that repays `loanAmount` in `n` periods:
      L * r * (1 + r)^n / ((1 + r)^n - 1). With fewer than one period the schedule loop does
      not run and the value is never read; it is 0 here. */
  function AnnuityPayment(loanAmount: real, rate: real, n: int): real
    requires rate > 0.0
  {
    if n < 1 then 0.0
    else
      var g := Pow(1.0 + rate, n);
      PowAboveOne(1.0 + rate, n);
      loanAmount * (rate * g) / (g - 1.0)
  }

  /** The constant builder's period count for a given payment P:
      ceil(log(P / (P - L * r)) / log(1 + r)), the least n with (1 + r)^n >= P / (P - L * r).
      At rate 0 the quotient is 0/0, `NaN`, and the schedule loop does not run. */
  function PaymentPeriods(loanAmount: real, payment: real, rate: real): nat
    requires rate >= 0.0 && payment > Interest(loanAmount, rate)
  {
    assert rate == 0.0 ==> payment / (payment - Interest(loanAmount, rate)) == 1.0;
    LogPeriods(payment / (payment - Interest(loanAmount, rate)), 1.0 + rate)
  }

  /** The geometric builder's first payment for a duration of `n` periods: the constant
      annuity divided by 1 + g * (n - 1) / 2. When that divisor is 0 the source divides by
      zero and gets an infinite payment, which the first period cuts down to the whole
      capital plus its interest; that payment is used here (see `OverpaymentSettles`). */
  function GeometricFirstPayment(loanAmount: real, rate: real, growth: real, n: int): real
    requires rate > 0.0
  {
    if n < 1 then 0.0
    else
      var d := 1.0 + growth * ((n - 1) as real) / 2.0;
      if d == 0.0 then loanAmount * (1.0 + rate)
      else AnnuityPayment(loanAmount, rate, n) / d
  }

  /** The geometric payment-driven resolver from iteration `n` on, with `remaining` capital
      and the current `payment`: repay until at most 0.01 remains or the cap is hit, failing
      on an iteration whose payment does not exceed its interest. */
  function GeometricPeriods(remaining: real, payment: real, rate: real, factor: real, n: nat): Result<nat>
    requires n <= Cap
    decreases Cap - n
  {
    if remaining > Settled && n < Cap then
      var principal := payment - Interest(remaining, rate);
      if principal <= 0.0 then Err(InsufficientPayment)
      else GeometricPeriods(remaining - principal, payment * factor, rate, factor, n + 1)
    else Ok(n)
  }

  /** An iteration of the resolver that neither stops nor fails moves on to the next one. */
  lemma {:induction false} ResolverStep(remaining: real, payment: real, principal: real, rate: real, factor: real, n: nat)
    requires n < Cap && remaining > Settled
    requires principal == payment - Interest(remaining, rate) && principal > 0.0
    ensures GeometricPeriods(remaining, payment, rate, factor, n)
         == GeometricPeriods(remaining - principal, payment * factor, rate, factor, n + 1)
  {
  }

  /** The constant builder's plan: the annuity over the duration's periods, or the given
      payment over the least number of periods n with (1 + r)^n >= P / (P - L * r). */
  function ConstantPlan(p: Params): Result<Plan>
    requires LoanRequires(p)
  {
    var rate := PeriodicRate(p);
    LoanRateSign(p);
    if Given(p.duration) then
      var n := DurationPeriods(p);
      Ok(Plan(n, AnnuityPayment(p.loanAmount, rate, n)))
    else if Given(p.paymentAmount) then
      var payment := p.paymentAmount;
      if payment <= Interest(p.loanAmount, rate) then Err(InsufficientPayment)
      else Ok(Plan(PaymentPeriods(p.loanAmount, payment, rate), payment))
    else Err(MissingTerm)
  }

  /** The geometric builder's plan: the adjusted annuity over the duration's periods, or the
      given payment over the resolver's count. */
  function GeometricPlan(p: Params): Result<Plan>
    requires LoanRequires(p)
  {
    var rate := PeriodicRate(p);
    LoanRateSign(p);
    if Given(p.duration) then
      var n := DurationPeriods(p);
      Ok(Plan(n, GeometricFirstPayment(p.loanAmount, rate, p.growthRate / 100.0, n)))
    else if Given(p.paymentAmount) then
      match GeometricPeriods(p.loanAmount, p.paymentAmount, rate, GrowthFactor(p), 0)
      case Err(e) => Err(e)
      case Ok(n) => Ok(Plan(n, p.paymentAmount))
    else Err(MissingTerm)
  }

  /** What `calculateConstantLoan` returns or throws. */
  function ConstantLoan(p: Params): Result<seq<LoanRecord>>
    requires LoanRequires(p)
  {
    match ConstantPlan(p)
    case Err(e) => Err(e)
    case Ok(plan) => LoanSchedule(Opening(p.loanAmount, plan.payment), PeriodicRate(p), 1.0, false, plan.periods)
  }

  /** What `calculateGeometricLoan` returns or throws. */
  function GeometricLoan(p: Params): Result<seq<LoanRecord>>
    requires LoanRequires(p)
  {
    match GeometricPlan(p)
    case Err(e) => Err(e)
    case Ok(plan) => LoanSchedule(Opening(p.loanAmount, plan.payment), PeriodicRate(p), GrowthFactor(p), true, plan.periods)
  }

  /** The geometric payment-driven resolver loop (calculations.js:296-313). */
  method ResolveGeometricPeriods(loanAmount: real, initialPayment: real, rate: real, factor: real)
    returns (result: Result<nat>)
    ensures result == GeometricPeriods(loanAmount, initialPayment, rate, factor, 0)
  {
    var n: nat := 0;
    var remaining := loanAmount;
    var currentPayment := initialPayment;
    while remaining > Settled && n < Cap
      invariant n <= Cap
      invariant GeometricPeriods(remaining, currentPayment, rate, factor, n)
             == GeometricPeriods(loanAmount, initialPayment, rate, factor, 0)
      decreases Cap - n
    {
      var interest := Interest(remaining, rate);
      var principal := currentPayment - interest;
      if principal <= 0.0 {
        return Err(InsufficientPayment);
      }
      ResolverStep(remaining, currentPayment, principal, rate, factor, n);
      remaining := remaining - principal;
      currentPayment := currentPayment * factor;
      n := n + 1;
    }
    return Ok(n);
  }

  /** A period that leaves at most 0.01 is the run's last. */
  lemma {:induction false} RunStops(s: LoanState, interest: real, rec: LoanRecord, rate: real, factor: real, period: int, total: int)
    requires period <= total && interest == Interest(s.remaining, rate) && rec == Installment(period, s, interest)
    requires rec.remainingCapital <= Settled
    ensures LoanRun(s, rate, factor, period, total) == [rec]
  {
  }

  /** A period that leaves more than 0.01 is followed by the run from the carried state. */
  lemma {:induction false} RunContinues(s: LoanState, interest: real, rec: LoanRecord, rate: real, factor: real, period: int, total: int)
    requires period <= total && interest == Interest(s.remaining, rate) && rec == Installment(period, s, interest)
    requires rec.remainingCapital > Settled
    ensures LoanRun(s, rate, factor, period, total) == [rec] + LoanRun(Carry(rec, factor), rate, factor, period + 1, total)
  {
  }

  /** A period whose payment does not exceed its interest fails the geometric test. */
  lemma {:induction false} ShrinksNow(s: LoanState, interest: real, rate: real, factor: real, period: int, total: int)
    requires period <= total && interest == Interest(s.remaining, rate) && s.payment - interest <= 0.0
    ensures Shrinks(s, rate, factor, period, total)
  {
  }

  /** A last period whose payment exceeds its interest passes the geometric test. */
  lemma {:induction false} ShrinksStops(s: LoanState, interest: real, rec: LoanRecord, rate: real, factor: real, period: int, total: int)
    requires period <= total && interest == Interest(s.remaining, rate) && rec == Installment(period, s, interest)
    requires s.payment - interest > 0.0 && rec.remainingCapital <= Settled
    ensures !Shrinks(s, rate, factor, period, total)
  {
  }

  /** After a period that passes the geometric test and does not stop, the test goes on from
      the carried state. */
  lemma {:induction false} ShrinksContinues(s: LoanState, interest: real, rec: LoanRecord, rate: real, factor: real, period: int, total: int)
    requires period <= total && interest == Interest(s.remaining, rate) && rec == Installment(period, s, interest)
    requires s.payment - interest > 0.0 && rec.remainingCapital > Settled
    ensures Shrinks(s, rate, factor, period, total) == Shrinks(Carry(rec, factor), rate, factor, period + 1, total)
  {
  }

  /** Past the last period the run is empty and nothing fails. */
  lemma {:induction false} RunEnds(s: LoanState, rate: real, factor: real, period: int, total: int)
    requires period > total
    ensures LoanRun(s, rate, factor, period, total) == []
    ensures !Shrinks(s, rate, factor, period, total)
  {
  }

  lemma {:induction false} AppendOne<T>(before: seq<T>, x: T, rest: seq<T>)
    ensures before + ([x] + rest) == (before + [x]) + rest
  {
  }

  /** The schedule loop shared by both builders (calculations.js:210-253 and 319-370); the
      constant builder's payment is multiplied by 1 and never tested. */
  method Amortization(start: LoanState, rate: real, factor: real, checked: bool, totalPeriods: int)
    returns (result: Result<seq<LoanRecord>>)
    ensures result == LoanSchedule(start, rate, factor, checked, totalPeriods)
  {
    ghost var full := LoanRun(start, rate, factor, 1, totalPeriods);
    ghost var s := start;
    var results := [];
    var remaining := start.remaining;
    var totalInterest := start.totalInterest;
    var totalPrincipal := start.totalPrincipal;
    var currentPayment := start.payment;
    var period := 1;
    while period <= totalPeriods
      invariant s == LoanState(remaining, totalInterest, totalPrincipal, currentPayment)
      invariant results + LoanRun(s, rate, factor, period, totalPeriods) == full
      invariant checked ==> Shrinks(s, rate, factor, period, totalPeriods) == Shrinks(start, rate, factor, 1, totalPeriods)
      decreases totalPeriods - period
    {
      ghost var before := results;
      var interest := Interest(remaining, rate);
      var principal := currentPayment - interest;
      if checked && principal <= 0.0 {
        ShrinksNow(s, interest, rate, factor, period, totalPeriods);
        return Err(ShrinkingPayments);
      }
      if principal > remaining {
        principal := remaining;
        currentPayment := principal + interest;
      }
      remaining := remaining - principal;
      totalInterest := totalInterest + interest;
      totalPrincipal := totalPrincipal + principal;
      var rec := LoanRecord(period, currentPayment, interest, principal, remaining, totalInterest, totalPrincipal);
      assert rec == Installment(period, s, interest);
      results := results + [rec];
      currentPayment := currentPayment * factor;
      if remaining <= Settled {
        RunStops(s, interest, rec, rate, factor, period, totalPeriods);
        if checked {
          ShrinksStops(s, interest, rec, rate, factor, period, totalPeriods);
        }
        return Ok(results);
      }
      RunContinues(s, interest, rec, rate, factor, period, totalPeriods);
      if checked {
        ShrinksContinues(s, interest, rec, rate, factor, period, totalPeriods);
      }
      AppendOne(before, rec, LoanRun(Carry(rec, factor), rate, factor, period + 1, totalPeriods));
      s := Carry(rec, factor);
      period := period + 1;
    }
    RunEnds(s, rate, factor, period, totalPeriods);
    assert results + [] == results;
    return Ok(results);
  }

  /** `calculateConstantLoan`. */
  method CalculateConstantLoan(p: Params) returns (result: Result<seq<LoanRecord>>)
    requires LoanRequires(p)
    ensures result == ConstantLoan(p)
  {
    var rate := PeriodicRate(p);
    LoanRateSign(p);
    var totalPeriods: int;
    var payment: real;
    if Given(p.duration) {
      totalPeriods := DurationPeriods(p);
      payment := AnnuityPayment(p.loanAmount, rate, totalPeriods);
      assert ConstantPlan(p) == Ok(Plan(totalPeriods, payment));
    } else if Given(p.paymentAmount) {
      payment := p.paymentAmount;
      if payment <= Interest(p.loanAmount, rate) {
        assert ConstantPlan(p) == Err(InsufficientPayment);
        return Err(InsufficientPayment);
      }
      totalPeriods := PaymentPeriods(p.loanAmount, payment, rate);
      assert ConstantPlan(p) == Ok(Plan(totalPeriods, payment));
    } else {
      return Err(MissingTerm);
    }
    result := Amortization(Opening(p.loanAmount, payment), rate, 1.0, false, totalPeriods);
  }

  /** `calculateGeometricLoan`. */
  method CalculateGeometricLoan(p: Params) returns (result: Result<seq<LoanRecord>>)
    requires LoanRequires(p)
    ensures result == GeometricLoan(p)
  {
    var rate := PeriodicRate(p);
    LoanRateSign(p);
    var periodicGrowthRate := p.growthRate / 100.0;
    var totalPeriods: int;
    var initialPayment: real;
    if Given(p.duration) {
      totalPeriods := DurationPeriods(p);
      initialPayment := GeometricFirstPayment(p.loanAmount, rate, periodicGrowthRate, totalPeriods);
    } else if Given(p.paymentAmount) {
      initialPayment := p.paymentAmount;
      var resolved := ResolveGeometricPeriods(p.loanAmount, initialPayment, rate, 1.0 + periodicGrowthRate);
      if resolved.Err? {
        return Err(resolved.error);
      }
      totalPeriods := resolved.value;
    } else {
      return Err(MissingTerm);
    }
    result := Amortization(Opening(p.loanAmount, initialPayment), rate, 1.0 + periodicGrowthRate, true, totalPeriods);
  }
}
