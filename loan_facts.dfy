/** Properties of the loan builders: every schedule keeps its books (each payment is
    principal plus interest, remaining capital plus repaid principal is the loan amount,
    the remaining capital never goes negative, total interest is a running sum), is
    numbered 1..len within the resolved count and stops only once at most 0.01 remains;
    payments are the resolved payment (constant) or grow by the growth factor (geometric)
    until the last one, which is cut down; the geometric builder fails exactly when a
    period's principal is not positive; and the error cases of each builder. */
module LoanFacts {
  import opened Powers
  import opened Simulation
  import opened Loans

  /** The record a run entered in state `s` at `period` starts with. */
  function FirstInstallment(s: LoanState, rate: real, period: int): LoanRecord {
    Installment(period, s, Interest(s.remaining, rate))
  }

  /** The shape of a run: numbered from `period`, no longer than the periods left, every
      record but the last leaves more than 0.01, and a run cut short ends on a record
      that leaves at most 0.01. */
  lemma {:induction false} LoanRunShape(s: LoanState, rate: real, factor: real, period: int, total: int)
    ensures var rows := LoanRun(s, rate, factor, period, total);
      && (rows == [] <==> period > total)
      && |rows| <= (if period > total then 0 else total - period + 1)
      && (forall i :: 0 <= i < |rows| ==> rows[i].period == period + i)
      && (forall i :: 0 <= i < |rows| - 1 ==> rows[i].remainingCapital > Settled)
      && (0 < |rows| < total - period + 1 ==> rows[|rows| - 1].remainingCapital <= Settled)
    decreases total - period
  {
    if period > total {
      RunEnds(s, rate, factor, period, total);
    } else {
      var interest := Interest(s.remaining, rate);
      var rec := Installment(period, s, interest);
      if rec.remainingCapital <= Settled {
        RunStops(s, interest, rec, rate, factor, period, total);
      } else {
        RunContinues(s, interest, rec, rate, factor, period, total);
        LoanRunShape(Carry(rec, factor), rate, factor, period + 1, total);
      }
    }
  }

  /** One installment keeps the books: its payment is principal plus interest, remaining
      capital plus total principal is unchanged, total interest grows by its interest, and
      the remaining capital stays non-negative. */
  lemma {:induction false} InstallmentBooks(period: int, s: LoanState, interest: real)
    requires s.remaining >= 0.0
    ensures var rec := Installment(period, s, interest);
      && rec.payment == rec.principal + rec.interest
      && rec.remainingCapital + rec.totalPrincipal == s.remaining + s.totalPrincipal
      && rec.totalInterest == s.totalInterest + rec.interest
      && rec.remainingCapital >= 0.0
  {
  }

  lemma {:induction false} LoanSumOfCons(rec: LoanRecord, rest: seq<LoanRecord>, i: nat)
    requires i <= |rest|
    ensures LoanInterestSum(([rec] + rest)[..i + 1]) == rec.interest + LoanInterestSum(rest[..i])
  {
    assert ([rec] + rest)[..i + 1] == [rec] + rest[..i];
    assert ([rec] + rest[..i])[1..] == rest[..i];
  }

  /** The books of a run entered in state `s`. */
  ghost predicate LoanLedgered(rows: seq<LoanRecord>, s: LoanState) {
    forall i :: 0 <= i < |rows| ==>
      && rows[i].payment == rows[i].principal + rows[i].interest
      && rows[i].remainingCapital + rows[i].totalPrincipal == s.remaining + s.totalPrincipal
      && rows[i].totalInterest == s.totalInterest + LoanInterestSum(rows[..i + 1])
      && rows[i].remainingCapital >= 0.0
  }

  lemma {:induction false} LoanLedgerCons(rec: LoanRecord, rest: seq<LoanRecord>, s: LoanState, next: LoanState)
    requires rec.payment == rec.principal + rec.interest
    requires rec.remainingCapital + rec.totalPrincipal == s.remaining + s.totalPrincipal
    requires rec.totalInterest == s.totalInterest + rec.interest
    requires rec.remainingCapital >= 0.0
    requires next.remaining == rec.remainingCapital && next.totalPrincipal == rec.totalPrincipal
    requires next.totalInterest == rec.totalInterest
    requires LoanLedgered(rest, next)
    ensures LoanLedgered([rec] + rest, s)
  {
    var rows := [rec] + rest;
    forall i | 0 <= i < |rows|
      ensures rows[i].payment == rows[i].principal + rows[i].interest
      ensures rows[i].remainingCapital + rows[i].totalPrincipal == s.remaining + s.totalPrincipal
      ensures rows[i].totalInterest == s.totalInterest + LoanInterestSum(rows[..i + 1])
      ensures rows[i].remainingCapital >= 0.0
    {
      LoanSumOfCons(rec, rest, i);
      if i > 0 {
        assert rows[i] == rest[i - 1];
        assert rest[..i - 1 + 1] == rest[..i];
      } else {
        assert rest[..0] == [];
      }
    }
  }

  /** Every record of a run entered with non-negative capital keeps the books. */
  lemma {:induction false} LoanRunLedger(s: LoanState, rate: real, factor: real, period: int, total: int)
    requires s.remaining >= 0.0
    ensures LoanLedgered(LoanRun(s, rate, factor, period, total), s)
    decreases total - period
  {
    if period > total {
      RunEnds(s, rate, factor, period, total);
    } else {
      var interest := Interest(s.remaining, rate);
      var rec := Installment(period, s, interest);
      var next := Carry(rec, factor);
      InstallmentBooks(period, s, interest);
      if rec.remainingCapital <= Settled {
        RunStops(s, interest, rec, rate, factor, period, total);
        assert [rec] == [rec] + [];
        LoanLedgerCons(rec, [], s, next);
      } else {
        RunContinues(s, interest, rec, rate, factor, period, total);
        LoanRunLedger(next, rate, factor, period + 1, total);
        LoanLedgerCons(rec, LoanRun(next, rate, factor, period + 1, total), s, next);
      }
    }
  }

  /** The payments of a run: the i-th is at most `payment * f^i`, and equal to it on every
      record but the last. */
  ghost predicate Scheduled(rows: seq<LoanRecord>, payment: real, f: real) {
    forall i :: 0 <= i < |rows| ==>
      && rows[i].payment <= Grown(payment, f, i)
      && (i < |rows| - 1 ==> rows[i].payment == Grown(payment, f, i))
  }

  lemma {:induction false} ScheduledCons(rec: LoanRecord, rest: seq<LoanRecord>, payment: real, f: real)
    requires rec.payment <= payment && (rest != [] ==> rec.payment == payment)
    requires Scheduled(rest, payment * f, f)
    ensures Scheduled([rec] + rest, payment, f)
  {
    var rows := [rec] + rest;
    forall i | 0 <= i < |rows|
      ensures rows[i].payment <= Grown(payment, f, i)
      ensures i < |rows| - 1 ==> rows[i].payment == Grown(payment, f, i)
    {
      if i > 0 {
        assert rows[i] == rest[i - 1];
        GrownShift(payment, f, i);
      } else {
        assert Pow(f, 0) == 1.0;
      }
    }
  }

  /** One installment pays at most the current payment, and exactly it unless it leaves
      nothing to repay. */
  lemma {:induction false} InstallmentPayment(period: int, s: LoanState, interest: real)
    ensures var rec := Installment(period, s, interest);
      && rec.payment <= s.payment
      && (rec.remainingCapital != 0.0 ==> rec.payment == s.payment)
  {
  }

  lemma {:induction false} PaymentsContinue(s: LoanState, rec: LoanRecord, rest: seq<LoanRecord>, factor: real)
    requires rec.payment <= s.payment && rec.remainingCapital > Settled
    requires rec.remainingCapital != 0.0 ==> rec.payment == s.payment
    requires Scheduled(rest, Carry(rec, factor).payment, factor)
    ensures Scheduled([rec] + rest, s.payment, factor)
  {
    ScheduledCons(rec, rest, s.payment, factor);
  }

  /** The payments of a run entered in state `s` start at `s.payment` and are multiplied by
      the factor each period; only the last can be cut down. */
  lemma {:induction false} LoanRunPayments(s: LoanState, rate: real, factor: real, period: int, total: int)
    ensures Scheduled(LoanRun(s, rate, factor, period, total), s.payment, factor)
    decreases total - period
  {
    if period > total {
      RunEnds(s, rate, factor, period, total);
    } else {
      var interest := Interest(s.remaining, rate);
      var rec := Installment(period, s, interest);
      var next := Carry(rec, factor);
      InstallmentPayment(period, s, interest);
      if rec.remainingCapital <= Settled {
        RunStops(s, interest, rec, rate, factor, period, total);
        assert [rec] == [rec] + [];
        ScheduledCons(rec, [], s.payment, factor);
      } else {
        RunContinues(s, interest, rec, rate, factor, period, total);
        LoanRunPayments(next, rate, factor, period + 1, total);
        PaymentsContinue(s, rec, LoanRun(next, rate, factor, period + 1, total), factor);
      }
    }
  }

  /** The first record of a non-empty run. */
  lemma {:induction false} LoanRunHead(s: LoanState, rate: real, factor: real, period: int, total: int)
    requires period <= total
    ensures LoanRun(s, rate, factor, period, total)[0] == FirstInstallment(s, rate, period)
  {
    var interest := Interest(s.remaining, rate);
    var rec := Installment(period, s, interest);
    if rec.remainingCapital <= Settled {
      RunStops(s, interest, rec, rate, factor, period, total);
    } else {
      RunContinues(s, interest, rec, rate, factor, period, total);
    }
  }

  /** A failing geometric test shows up in the run as a record whose principal is not
      positive ... */
  lemma {:induction false} ShrinksFound(s: LoanState, rate: real, factor: real, period: int, total: int)
    requires s.remaining > 0.0 && Shrinks(s, rate, factor, period, total)
    ensures exists i :: 0 <= i < |LoanRun(s, rate, factor, period, total)|
                     && LoanRun(s, rate, factor, period, total)[i].principal <= 0.0
    decreases total - period
  {
    var interest := Interest(s.remaining, rate);
    var rec := Installment(period, s, interest);
    LoanRunHead(s, rate, factor, period, total);
    if s.payment - interest <= 0.0 {
      assert LoanRun(s, rate, factor, period, total)[0].principal <= 0.0;
    } else {
      ShrinksContinues(s, interest, rec, rate, factor, period, total);
      RunContinues(s, interest, rec, rate, factor, period, total);
      var rest := LoanRun(Carry(rec, factor), rate, factor, period + 1, total);
      ShrinksFound(Carry(rec, factor), rate, factor, period + 1, total);
      var j :| 0 <= j < |rest| && rest[j].principal <= 0.0;
      assert LoanRun(s, rate, factor, period, total)[j + 1] == rest[j];
    }
  }

  /** ... and a record whose principal is not positive fails the geometric test. */
  lemma {:induction false} ShrinksFromRecord(s: LoanState, rate: real, factor: real, period: int, total: int, i: nat)
    requires s.remaining > 0.0
    requires i < |LoanRun(s, rate, factor, period, total)| && LoanRun(s, rate, factor, period, total)[i].principal <= 0.0
    ensures Shrinks(s, rate, factor, period, total)
    decreases i
  {
    var interest := Interest(s.remaining, rate);
    var rec := Installment(period, s, interest);
    LoanRunShape(s, rate, factor, period, total);
    LoanRunHead(s, rate, factor, period, total);
    if s.payment - interest <= 0.0 {
      ShrinksNow(s, interest, rate, factor, period, total);
    } else if i == 0 {
      assert false;
    } else {
      assert rec.remainingCapital > Settled;
      RunContinues(s, interest, rec, rate, factor, period, total);
      var rest := LoanRun(Carry(rec, factor), rate, factor, period + 1, total);
      assert LoanRun(s, rate, factor, period, total)[i] == rest[i - 1];
      ShrinksFromRecord(Carry(rec, factor), rate, factor, period + 1, total, i - 1);
      ShrinksContinues(s, interest, rec, rate, factor, period, total);
    }
  }

  /** The remaining capital of the geometric payment-driven resolver after `k` of its
      iterations, from `remaining` capital and the current `payment`. */
  function Repaid(remaining: real, payment: real, rate: real, factor: real, k: nat): real
    decreases k
  {
    if k == 0 then remaining
    else Repaid(remaining - (payment - Interest(remaining, rate)), payment * factor, rate, factor, k - 1)
  }

  /** The resolver fails only with `InsufficientPayment`; when it succeeds its count is at
      most 1000, the capital stays above 0.01 before it, and unless the cap was hit at most
      0.01 remains after it. */
  lemma {:induction false} GeometricPeriodsCount(remaining: real, payment: real, rate: real, factor: real, n: nat)
    requires n <= Cap
    ensures match GeometricPeriods(remaining, payment, rate, factor, n)
      case Err(e) => e == InsufficientPayment
      case Ok(m) =>
        && n <= m <= Cap
        && (forall k: nat :: k < m - n ==> Repaid(remaining, payment, rate, factor, k) > Settled)
        && (m < Cap ==> Repaid(remaining, payment, rate, factor, m - n) <= Settled)
    decreases Cap - n
  {
    if remaining > Settled && n < Cap {
      var principal := payment - Interest(remaining, rate);
      if principal > 0.0 {
        var next := remaining - principal;
        GeometricPeriodsCount(next, payment * factor, rate, factor, n + 1);
        match GeometricPeriods(remaining, payment, rate, factor, n)
        case Err(e) =>
        case Ok(m) =>
          forall k: nat | k < m - n ensures Repaid(remaining, payment, rate, factor, k) > Settled {
            if k > 0 {
              assert Repaid(remaining, payment, rate, factor, k) == Repaid(next, payment * factor, rate, factor, k - 1);
            }
          }
          if m < Cap {
            assert Repaid(remaining, payment, rate, factor, m - n) == Repaid(next, payment * factor, rate, factor, m - (n + 1));
          }
      }
    }
  }

  /** The builder for either annuity. */
  function LoanBuilt(p: Params, geometric: bool): Result<seq<LoanRecord>>
    requires LoanRequires(p)
  {
    if geometric then GeometricLoan(p) else ConstantLoan(p)
  }

  /** The plan the builder resolved. */
  function PlanOf(p: Params, geometric: bool): Result<Plan>
    requires LoanRequires(p)
  {
    if geometric then GeometricPlan(p) else ConstantPlan(p)
  }

  function PaymentFactor(p: Params, geometric: bool): real {
    if geometric then GrowthFactor(p) else 1.0
  }

  /** A schedule a builder returns is the run of its plan. */
  lemma {:induction false} LoanBuiltIsRun(p: Params, geometric: bool)
    requires LoanRequires(p) && LoanBuilt(p, geometric).Ok?
    ensures PlanOf(p, geometric).Ok?
    ensures var plan := PlanOf(p, geometric).value;
      LoanBuilt(p, geometric).value
      == LoanRun(Opening(p.loanAmount, plan.payment), PeriodicRate(p), PaymentFactor(p, geometric), 1, plan.periods)
  {
  }

  /** Books of a returned schedule: every payment is principal plus interest, remaining
      capital plus total principal is the loan amount, the remaining capital is never
      negative, and total interest is the running sum of the interest. */
  lemma {:induction false} LoanScheduleBooks(p: Params, geometric: bool)
    requires LoanRequires(p) && LoanBuilt(p, geometric).Ok? && p.loanAmount >= 0.0
    ensures var rows := LoanBuilt(p, geometric).value;
      forall i :: 0 <= i < |rows| ==>
        && rows[i].payment == rows[i].principal + rows[i].interest
        && rows[i].remainingCapital + rows[i].totalPrincipal == p.loanAmount
        && rows[i].remainingCapital >= 0.0
        && rows[i].totalInterest == LoanInterestSum(rows[..i + 1])
  {
    LoanBuiltIsRun(p, geometric);
    var plan := PlanOf(p, geometric).value;
    LoanRunLedger(Opening(p.loanAmount, plan.payment), PeriodicRate(p), PaymentFactor(p, geometric), 1, plan.periods);
  }

  /** Shape of a returned schedule: numbered 1..len, no longer than the resolved count,
      every record but the last leaves more than 0.01 of capital, and a schedule shorter
      than the count ends with at most 0.01 left. */
  lemma {:induction false} LoanScheduleShape(p: Params, geometric: bool)
    requires LoanRequires(p) && LoanBuilt(p, geometric).Ok?
    ensures PlanOf(p, geometric).Ok?
    ensures var n := PlanOf(p, geometric).value.periods;
      var rows := LoanBuilt(p, geometric).value;
      && |rows| <= (if n < 1 then 0 else n)
      && (forall i :: 0 <= i < |rows| ==> rows[i].period == i + 1)
      && (forall i :: 0 <= i < |rows| - 1 ==> rows[i].remainingCapital > Settled)
      && (0 < |rows| < n ==> rows[|rows| - 1].remainingCapital <= Settled)
  {
    LoanBuiltIsRun(p, geometric);
    var plan := PlanOf(p, geometric).value;
    LoanRunShape(Opening(p.loanAmount, plan.payment), PeriodicRate(p), PaymentFactor(p, geometric), 1, plan.periods);
  }

  /** Payments of a returned schedule: period k pays the resolved payment times the
      factor to the power k - 1 (the growth factor for a geometric loan, 1 for a constant
      one), except the last, which may be cut down to what is owed. */
  lemma {:induction false} LoanSchedulePayments(p: Params, geometric: bool)
    requires LoanRequires(p) && LoanBuilt(p, geometric).Ok?
    ensures PlanOf(p, geometric).Ok?
    ensures var payment := PlanOf(p, geometric).value.payment;
      var rows := LoanBuilt(p, geometric).value;
      forall i :: 0 <= i < |rows| ==>
        && rows[i].payment <= Grown(payment, PaymentFactor(p, geometric), i)
        && (i < |rows| - 1 ==> rows[i].payment == Grown(payment, PaymentFactor(p, geometric), i))
  {
    LoanBuiltIsRun(p, geometric);
    var plan := PlanOf(p, geometric).value;
    LoanRunPayments(Opening(p.loanAmount, plan.payment), PeriodicRate(p), PaymentFactor(p, geometric), 1, plan.periods);
  }

  /** A constant schedule pays the same amount every period but the last, and the last no
      more than that. */
  lemma {:induction false} ConstantPayments(p: Params)
    requires LoanRequires(p) && ConstantLoan(p).Ok?
    ensures ConstantPlan(p).Ok?
    ensures var payment := ConstantPlan(p).value.payment;
      var rows := ConstantLoan(p).value;
      forall i :: 0 <= i < |rows| ==>
        && rows[i].payment <= payment
        && (i < |rows| - 1 ==> rows[i].payment == payment)
  {
    LoanSchedulePayments(p, false);
    var payment := ConstantPlan(p).value.payment;
    forall i: nat ensures Grown(payment, 1.0, i) == payment {
      PowOne(i);
    }
  }

  /** The constant builder fails with `MissingTerm` exactly when neither a duration nor a
      payment is given, with `InsufficientPayment` exactly when only a payment is given and
      it does not exceed the first period's interest, and never otherwise. */
  lemma {:induction false} ConstantLoanErrors(p: Params)
    requires LoanRequires(p)
    ensures ConstantLoan(p) == Err(MissingTerm) <==> !Given(p.duration) && !Given(p.paymentAmount)
    ensures ConstantLoan(p) == Err(InsufficientPayment)
        <==> !Given(p.duration) && Given(p.paymentAmount) && p.paymentAmount <= Interest(p.loanAmount, PeriodicRate(p))
    ensures ConstantLoan(p) != Err(ShrinkingPayments)
  {
  }

  /** The geometric builder fails with `MissingTerm` exactly when neither a duration nor a
      payment is given; with `InsufficientPayment` only when only a payment is given, and
      always when that payment does not exceed the first period's interest on more than
      0.01 of capital. */
  lemma {:induction false} GeometricPlanErrors(p: Params)
    requires LoanRequires(p)
    ensures GeometricLoan(p) == Err(MissingTerm) <==> !Given(p.duration) && !Given(p.paymentAmount)
    ensures GeometricLoan(p) == Err(InsufficientPayment) ==> !Given(p.duration) && Given(p.paymentAmount)
    ensures && !Given(p.duration) && Given(p.paymentAmount) && p.loanAmount > Settled
            && p.paymentAmount <= Interest(p.loanAmount, PeriodicRate(p))
            ==> GeometricLoan(p) == Err(InsufficientPayment)
    ensures GeometricLoan(p) == Err(InsufficientPayment)
        <==> && !Given(p.duration) && Given(p.paymentAmount)
             && exists k: nat :: k < Cap && Outstanding(p.loanAmount, p.paymentAmount, PeriodicRate(p), GrowthFactor(p), k + 1)
                                && Falls(p.loanAmount, p.paymentAmount, PeriodicRate(p), GrowthFactor(p), k)
  {
    if !Given(p.duration) && Given(p.paymentAmount) {
      GeometricPeriodsCount(p.loanAmount, p.paymentAmount, PeriodicRate(p), GrowthFactor(p), 0);
      ResolverFailsExactly(p.loanAmount, p.paymentAmount, PeriodicRate(p), GrowthFactor(p), 0);
    }
  }

  /** For a positive loan, the geometric builder fails with `ShrinkingPayments` exactly when
      its plan resolves and the schedule of that plan, computed without the test, has a
      period whose principal is not positive. */
  lemma {:induction false} ShrinkingPaymentsExactly(p: Params)
    requires LoanRequires(p) && p.loanAmount > 0.0
    ensures GeometricLoan(p) == Err(ShrinkingPayments)
        <==> && GeometricPlan(p).Ok?
             && var plan := GeometricPlan(p).value;
                var rows := LoanRun(Opening(p.loanAmount, plan.payment), PeriodicRate(p), GrowthFactor(p), 1, plan.periods);
                exists i :: 0 <= i < |rows| && rows[i].principal <= 0.0
  {
    if !Given(p.duration) && Given(p.paymentAmount) {
      GeometricPeriodsCount(p.loanAmount, p.paymentAmount, PeriodicRate(p), GrowthFactor(p), 0);
    }
    if GeometricPlan(p).Ok? {
      var plan := GeometricPlan(p).value;
      var start := Opening(p.loanAmount, plan.payment);
      var rows := LoanRun(start, PeriodicRate(p), GrowthFactor(p), 1, plan.periods);
      if Shrinks(start, PeriodicRate(p), GrowthFactor(p), 1, plan.periods) {
        ShrinksFound(start, PeriodicRate(p), GrowthFactor(p), 1, plan.periods);
      }
      if i :| 0 <= i < |rows| && rows[i].principal <= 0.0 {
        ShrinksFromRecord(start, PeriodicRate(p), GrowthFactor(p), 1, plan.periods, i);
      }
    }
  }

  /** Any first payment of at least the capital plus its interest repays a positive loan in
      one record, paying exactly the capital plus its interest, and passes the geometric
      test: the payment used for the source's infinite first payment (a zero divisor in
      the geometric duration formula) gives the source's schedule. */
  lemma {:induction false} OverpaymentSettles(loanAmount: real, payment: real, rate: real, factor: real, total: int)
    requires loanAmount > 0.0 && total >= 1
    requires payment >= loanAmount + Interest(loanAmount, rate)
    ensures var interest := Interest(loanAmount, rate);
      LoanRun(Opening(loanAmount, payment), rate, factor, 1, total)
      == [LoanRecord(1, loanAmount + interest, interest, loanAmount, 0.0, interest, loanAmount)]
    ensures !Shrinks(Opening(loanAmount, payment), rate, factor, 1, total)
  {
    var s := Opening(loanAmount, payment);
    var interest := Interest(loanAmount, rate);
    var rec := Installment(1, s, interest);
    assert rec == LoanRecord(1, loanAmount + interest, interest, loanAmount, 0.0, interest, loanAmount);
    RunStops(s, interest, rec, rate, factor, 1, total);
    ShrinksStops(s, interest, rec, rate, factor, 1, total);
  }

  // The remaining capital of a schedule follows the resolver's recurrence `Repaid`.

  /** One more iteration of the resolver is one iteration from the state after the first. */
  lemma {:induction false} RepaidStep(remaining: real, payment: real, rate: real, factor: real, k: nat)
    ensures Repaid(remaining, payment, rate, factor, k + 1)
         == Repaid(remaining - (payment - Interest(remaining, rate)), payment * factor, rate, factor, k)
  {
  }

  /** `x`, or 0 when it is negative: what an installment cut down to the remaining capital
      leaves. */
  function Clamped(x: real): real {
    if x < 0.0 then 0.0 else x
  }

  /** The principal `raw` of an installment, cut down to the `remaining` capital. */
  function Cut(raw: real, remaining: real): real {
    if raw > remaining then remaining else raw
  }

  /** The rows of a run entered with `remaining` capital and `payment`: row i leaves what the
      resolver owes after i + 1 iterations (nothing, when that is negative and the
      installment is cut down), and repays period i's payment minus the interest on what the
      resolver owes after i iterations, cut down to that amount. */
  ghost predicate Follows(rows: seq<LoanRecord>, remaining: real, payment: real, rate: real, factor: real) {
    && Leaves(rows, remaining, payment, rate, factor)
    && forall i :: 0 <= i < |rows| ==>
         rows[i].principal == Cut(Grown(payment, factor, i) - Interest(Repaid(remaining, payment, rate, factor, i), rate),
                                  Repaid(remaining, payment, rate, factor, i))
  }

  /** The remaining capital half of `Follows`. */
  ghost predicate Leaves(rows: seq<LoanRecord>, remaining: real, payment: real, rate: real, factor: real) {
    forall i :: 0 <= i < |rows| ==> rows[i].remainingCapital == Clamped(Repaid(remaining, payment, rate, factor, i + 1))
  }

  /** A schedule that repays the loan within `n` periods: it is not empty, has at most `n`
      records, its last record leaves at most 0.01, and nothing when it has all `n`. */
  ghost predicate PaysOff(rows: seq<LoanRecord>, n: int) {
    && 0 < |rows| <= n
    && rows[|rows| - 1].remainingCapital <= Settled
    && (|rows| == n ==> rows[|rows| - 1].remainingCapital == 0.0)
  }

  /** An installment that leaves more than 0.01 is one iteration of the resolver. */
  lemma {:induction false} InstallmentRepaid(period: int, s: LoanState, rec: LoanRecord, rate: real, factor: real, k: nat)
    requires rec == Installment(period, s, Interest(s.remaining, rate)) && rec.remainingCapital > Settled
    ensures Repaid(s.remaining, s.payment, rate, factor, k + 1) == Repaid(rec.remainingCapital, rec.payment * factor, rate, factor, k)
  {
    var next, later := s.remaining - (s.payment - Interest(s.remaining, rate)), s.payment * factor;
    RepaidStep(s.remaining, s.payment, rate, factor, k);
    assert rec.remainingCapital == next && rec.payment * factor == later;
  }

  lemma {:induction false} FollowsCons(period: int, s: LoanState, rec: LoanRecord, rest: seq<LoanRecord>, rate: real, factor: real)
    requires rec == Installment(period, s, Interest(s.remaining, rate))
    requires rest != [] ==> rec.remainingCapital > Settled
    requires Follows(rest, rec.remainingCapital, rec.payment * factor, rate, factor)
    ensures Follows([rec] + rest, s.remaining, s.payment, rate, factor)
  {
    var rows := [rec] + rest;
    forall i | 0 <= i < |rows|
      ensures rows[i].remainingCapital == Clamped(Repaid(s.remaining, s.payment, rate, factor, i + 1))
      ensures rows[i].principal == Cut(Grown(s.payment, factor, i) - Interest(Repaid(s.remaining, s.payment, rate, factor, i), rate),
                                       Repaid(s.remaining, s.payment, rate, factor, i))
    {
      if i > 0 {
        assert rows[i] == rest[i - 1];
        FollowsLater(period, s, rec, rest[i - 1], rate, factor, i - 1);
      } else {
        FollowsFirst(period, s, rec, rate, factor);
      }
    }
  }

  /** The first row of a run follows the recurrence ... */
  lemma {:induction false} FollowsFirst(period: int, s: LoanState, rec: LoanRecord, rate: real, factor: real)
    requires rec == Installment(period, s, Interest(s.remaining, rate))
    ensures rec.remainingCapital == Clamped(Repaid(s.remaining, s.payment, rate, factor, 1))
    ensures rec.principal == Cut(Grown(s.payment, factor, 0) - Interest(Repaid(s.remaining, s.payment, rate, factor, 0), rate),
                                 Repaid(s.remaining, s.payment, rate, factor, 0))
  {
    assert Repaid(s.remaining, s.payment, rate, factor, 0 + 1)
        == s.remaining - (s.payment - Interest(s.remaining, rate)) by {
      RepaidStep(s.remaining, s.payment, rate, factor, 0);
    }
    assert Grown(s.payment, factor, 0) == s.payment by {
      assert Pow(factor, 0) == 1.0;
    }
  }

  /** ... and so does a later row `row`, the j-th after the first one `rec`, when `rec`
      leaves more than 0.01. */
  lemma {:induction false} FollowsLater(period: int, s: LoanState, rec: LoanRecord, row: LoanRecord, rate: real, factor: real, j: nat)
    requires rec == Installment(period, s, Interest(s.remaining, rate)) && rec.remainingCapital > Settled
    requires row.remainingCapital == Clamped(Repaid(rec.remainingCapital, rec.payment * factor, rate, factor, j + 1))
    requires row.principal == Cut(Grown(rec.payment * factor, factor, j) - Interest(Repaid(rec.remainingCapital, rec.payment * factor, rate, factor, j), rate),
                                  Repaid(rec.remainingCapital, rec.payment * factor, rate, factor, j))
    ensures row.remainingCapital == Clamped(Repaid(s.remaining, s.payment, rate, factor, j + 2))
    ensures row.principal == Cut(Grown(s.payment, factor, j + 1) - Interest(Repaid(s.remaining, s.payment, rate, factor, j + 1), rate),
                                 Repaid(s.remaining, s.payment, rate, factor, j + 1))
  {
    InstallmentRepaid(period, s, rec, rate, factor, j + 1);
    InstallmentRepaid(period, s, rec, rate, factor, j);
    assert Grown(s.payment, factor, j + 1) == Grown(rec.payment * factor, factor, j) by {
      GrownShift(s.payment, factor, j + 1);
      assert rec.payment == s.payment;
    }
  }

  /** Every run follows the resolver's recurrence from its entry state. */
  lemma {:induction false} LoanRunRepaid(s: LoanState, rate: real, factor: real, period: int, total: int)
    ensures Follows(LoanRun(s, rate, factor, period, total), s.remaining, s.payment, rate, factor)
    decreases total - period
  {
    if period > total {
      RunEnds(s, rate, factor, period, total);
    } else {
      var interest := Interest(s.remaining, rate);
      var rec := Installment(period, s, interest);
      if rec.remainingCapital <= Settled {
        RunStops(s, interest, rec, rate, factor, period, total);
        assert [rec] == [rec] + [];
        FollowsCons(period, s, rec, [], rate, factor);
      } else {
        RunContinues(s, interest, rec, rate, factor, period, total);
        LoanRunRepaid(Carry(rec, factor), rate, factor, period + 1, total);
        assert Carry(rec, factor).remaining == rec.remainingCapital && Carry(rec, factor).payment == rec.payment * factor;
        FollowsCons(period, s, rec, LoanRun(Carry(rec, factor), rate, factor, period + 1, total), rate, factor);
      }
    }
  }

  // The geometric resolver's error, exactly.

  /** More than 0.01 is owed at each of the resolver's first `m` iterations. */
  ghost predicate Outstanding(remaining: real, payment: real, rate: real, factor: real, m: nat) {
    forall j: nat :: j < m ==> Repaid(remaining, payment, rate, factor, j) > Settled
  }

  /** The payment of the resolver's iteration `k` does not exceed the interest on what is
      then owed: the principal of that iteration is not positive. */
  predicate Falls(remaining: real, payment: real, rate: real, factor: real, k: nat) {
    Grown(payment, factor, k) - Interest(Repaid(remaining, payment, rate, factor, k), rate) <= 0.0
  }

  /** Both predicates seen from the state after the first iteration. */
  lemma {:induction false} ResolverShift(remaining: real, payment: real, rate: real, factor: real, k: nat)
    ensures var next := remaining - (payment - Interest(remaining, rate));
      && (Outstanding(remaining, payment, rate, factor, k + 1)
          <==> remaining > Settled && Outstanding(next, payment * factor, rate, factor, k))
      && (Falls(remaining, payment, rate, factor, k + 1) <==> Falls(next, payment * factor, rate, factor, k))
  {
    var next, later := remaining - (payment - Interest(remaining, rate)), payment * factor;
    assert Repaid(remaining, payment, rate, factor, 0) == remaining;
    RepaidStep(remaining, payment, rate, factor, k);
    GrownShift(payment, factor, k + 1);
    if Outstanding(remaining, payment, rate, factor, k + 1) {
      forall j: nat | j < k ensures Repaid(next, later, rate, factor, j) > Settled {
        RepaidStep(remaining, payment, rate, factor, j);
        assert Repaid(remaining, payment, rate, factor, j + 1) > Settled;
      }
    }
    if remaining > Settled && Outstanding(next, later, rate, factor, k) {
      forall j: nat | j < k + 1 ensures Repaid(remaining, payment, rate, factor, j) > Settled {
        if j > 0 {
          RepaidStep(remaining, payment, rate, factor, j - 1);
          assert Repaid(remaining, payment, rate, factor, (j - 1) + 1) == Repaid(next, later, rate, factor, j - 1);
        }
      }
    }
  }

  /** The resolver fails exactly when some iteration before the cap, reached while more than
      0.01 is still owed at it and at every earlier one, has a principal that is not
      positive. */
  lemma {:induction false} ResolverFailsExactly(remaining: real, payment: real, rate: real, factor: real, n: nat)
    requires n <= Cap
    ensures GeometricPeriods(remaining, payment, rate, factor, n).Err?
        <==> exists k: nat :: k < Cap - n && Outstanding(remaining, payment, rate, factor, k + 1)
                             && Falls(remaining, payment, rate, factor, k)
    decreases Cap - n
  {
    assert Repaid(remaining, payment, rate, factor, 0) == remaining;
    if remaining > Settled && n < Cap {
      var next, later := remaining - (payment - Interest(remaining, rate)), payment * factor;
      assert Pow(factor, 0) == 1.0;
      if payment - Interest(remaining, rate) <= 0.0 {
        assert Outstanding(remaining, payment, rate, factor, 0 + 1);
        assert Falls(remaining, payment, rate, factor, 0);
      } else {
        ResolverFailsExactly(next, later, rate, factor, n + 1);
        assert !Falls(remaining, payment, rate, factor, 0);
        if k: nat :| k < Cap - (n + 1) && Outstanding(next, later, rate, factor, k + 1) && Falls(next, later, rate, factor, k) {
          ResolverShift(remaining, payment, rate, factor, k);
          ResolverShift(remaining, payment, rate, factor, k + 1);
          assert Outstanding(remaining, payment, rate, factor, (k + 1) + 1) && Falls(remaining, payment, rate, factor, k + 1);
        }
        if k: nat :| k < Cap - n && Outstanding(remaining, payment, rate, factor, k + 1) && Falls(remaining, payment, rate, factor, k) {
          ResolverShift(remaining, payment, rate, factor, k);
          assert k > 0;
          ResolverShift(remaining, payment, rate, factor, k - 1);
          assert Outstanding(next, later, rate, factor, (k - 1) + 1);
        }
      }
    }
  }

  /** A run over `total` periods, entered owing more than 0.01 at each of the resolver's
      first `total` iterations, has a record for every period ... */
  lemma {:induction false} OutstandingRunLength(s: LoanState, rate: real, factor: real, total: nat)
    requires Outstanding(s.remaining, s.payment, rate, factor, total)
    ensures |LoanRun(s, rate, factor, 1, total)| == total
  {
    var rows := LoanRun(s, rate, factor, 1, total);
    LoanRunShape(s, rate, factor, 1, total);
    LoanRunRepaid(s, rate, factor, 1, total);
    if total > 0 {
      var j: nat := |rows| - 1;
      assert rows[j].remainingCapital == Clamped(Repaid(s.remaining, s.payment, rate, factor, j + 1));
    }
  }

  /** ... and passes the geometric builder's test when no iteration among them falls. */
  lemma {:induction false} OutstandingRunPasses(s: LoanState, rate: real, factor: real, total: nat)
    requires Outstanding(s.remaining, s.payment, rate, factor, total)
    requires forall k: nat :: k < total ==> !Falls(s.remaining, s.payment, rate, factor, k)
    ensures !Shrinks(s, rate, factor, 1, total)
  {
    if total > 0 {
      assert Repaid(s.remaining, s.payment, rate, factor, 0) == s.remaining;
      if Shrinks(s, rate, factor, 1, total) {
        var rows := LoanRun(s, rate, factor, 1, total);
        ShrinksFound(s, rate, factor, 1, total);
        var i :| 0 <= i < |rows| && rows[i].principal <= 0.0;
        LoanRunRepaid(s, rate, factor, 1, total);
        LoanRunShape(s, rate, factor, 1, total);
        assert Repaid(s.remaining, s.payment, rate, factor, i) > Settled;
        assert Falls(s.remaining, s.payment, rate, factor, i);
      }
    }
  }

  /** A geometric loan given by its payment, whose resolver finds the count m: the schedule
      passes the test of every period and has exactly m records; record i leaves what the
      resolver owes after i + 1 iterations (nothing, when that is negative), so unless the
      cap was hit the last record leaves at most 0.01. */
  lemma {:induction false} GeometricPaymentRepays(p: Params)
    requires LoanRequires(p) && !Given(p.duration) && Given(p.paymentAmount) && GeometricPlan(p).Ok?
    ensures GeometricLoan(p).Ok?
    ensures |GeometricLoan(p).value| == GeometricPlan(p).value.periods
    ensures Leaves(GeometricLoan(p).value, p.loanAmount, p.paymentAmount, PeriodicRate(p), GrowthFactor(p))
    ensures 0 < GeometricPlan(p).value.periods < Cap ==>
              GeometricLoan(p).value[GeometricPlan(p).value.periods - 1].remainingCapital <= Settled
  {
    var r, f := PeriodicRate(p), GrowthFactor(p);
    var L, P := p.loanAmount, p.paymentAmount;
    GeometricPeriodsCount(L, P, r, f, 0);
    ResolverFailsExactly(L, P, r, f, 0);
    var m := GeometricPlan(p).value.periods;
    assert GeometricPeriods(L, P, r, f, 0) == Ok(m);
    var start := Opening(L, P);
    assert Outstanding(L, P, r, f, m);
    forall k: nat | k < m ensures !Falls(L, P, r, f, k) {
      assert Outstanding(L, P, r, f, k + 1);
    }
    OutstandingRunPasses(start, r, f, m);
    OutstandingRunLength(start, r, f, m);
    LoanRunRepaid(start, r, f, 1, m);
    assert GeometricLoan(p) == Ok(LoanRun(start, r, f, 1, m));
    if 0 < m < Cap {
      var j := m - 1;
      assert Repaid(L, P, r, f, j + 1) <= Settled;
    }
  }

  // Constant loans: the remaining capital in closed form.

  /** The resolver's recurrence with a constant payment `a` (factor 1), in closed form:
      r * R_k = r * L * (1 + r)^k - a * ((1 + r)^k - 1). */
  lemma {:induction false} ConstantRepaidClosedForm(loanAmount: real, a: real, r: real, k: nat)
    ensures r * Repaid(loanAmount, a, r, 1.0, k)
         == r * loanAmount * Pow(1.0 + r, k) - a * (Pow(1.0 + r, k) - 1.0)
    decreases k
  {
    if k > 0 {
      var next := loanAmount - (a - Interest(loanAmount, r));
      var x, y, R := Pow(1.0 + r, k - 1), Pow(1.0 + r, k), Repaid(loanAmount, a, r, 1.0, k);
      assert y == (1.0 + r) * x;
      assert R == Repaid(next, a, r, 1.0, k - 1) by {
        RepaidStep(loanAmount, a, r, 1.0, k - 1);
        assert a * 1.0 == a;
      }
      assert r * R == r * next * x - a * (x - 1.0) by {
        ConstantRepaidClosedForm(next, a, r, k - 1);
      }
      ClosedFormAlgebra(loanAmount, a, r, x, y, R);
    }
  }

  /** One step of `ConstantRepaidClosedForm`, on plain numbers. */
  lemma {:induction false} ClosedFormAlgebra(loanAmount: real, a: real, r: real, x: real, y: real, R: real)
    requires y == (1.0 + r) * x
    requires r * R == r * (loanAmount - (a - loanAmount * r)) * x - a * (x - 1.0)
    ensures r * R == r * loanAmount * y - a * (y - 1.0)
  {
  }

  /** The algebra behind `AnnuityRepays`, on plain numbers, with g = (1 + r)^n and
      b = (1 + r)^k: from a * (g - 1) = L * r * g and r * R = r * L * b - a * (b - 1) follows
      R * (g - 1) = L * (g - b). */
  lemma {:induction false} BalanceAlgebra(loanAmount: real, r: real, a: real, g: real, b: real, R: real)
    requires r > 0.0
    requires a * (g - 1.0) == loanAmount * (r * g)
    requires r * R == r * loanAmount * b - a * (b - 1.0)
    ensures R * (g - 1.0) == loanAmount * (g - b)
  {
    var d := g - 1.0;
    calc {
      r * (R * d);
      (r * R) * d;
      r * loanAmount * b * d - (a * d) * (b - 1.0);
      r * loanAmount * b * d - r * loanAmount * (g * (b - 1.0));
      r * (loanAmount * (b * d - g * (b - 1.0)));
      r * (loanAmount * (g - b));
    }
  }

  /** The constant builder's annuity leaves after `k` periods the textbook balance
      L * ((1 + r)^n - (1 + r)^k) / ((1 + r)^n - 1), stated here multiplied out. */
  lemma {:induction false} AnnuityRepays(loanAmount: real, r: real, n: nat, k: nat)
    requires r > 0.0 && n >= 1
    ensures Repaid(loanAmount, AnnuityPayment(loanAmount, r, n), r, 1.0, k) * (Pow(1.0 + r, n) - 1.0)
         == loanAmount * (Pow(1.0 + r, n) - Pow(1.0 + r, k))
  {
    AnnuityScaled(loanAmount, r, n);
    BalanceOfPayment(loanAmount, r, AnnuityPayment(loanAmount, r, n), n, k);
  }

  /** The same for any payment `a` with a * ((1 + r)^n - 1) = L * r * (1 + r)^n. */
  lemma {:induction false} BalanceOfPayment(loanAmount: real, r: real, a: real, n: nat, k: nat)
    requires r > 0.0 && n >= 1
    requires a * (Pow(1.0 + r, n) - 1.0) == loanAmount * (r * Pow(1.0 + r, n))
    ensures Repaid(loanAmount, a, r, 1.0, k) * (Pow(1.0 + r, n) - 1.0) == loanAmount * (Pow(1.0 + r, n) - Pow(1.0 + r, k))
  {
    var g, b, R := Pow(1.0 + r, n), Pow(1.0 + r, k), Repaid(loanAmount, a, r, 1.0, k);
    assert r * R == r * loanAmount * b - a * (b - 1.0) by {
      ConstantRepaidClosedForm(loanAmount, a, r, k);
    }
    BalanceAlgebra(loanAmount, r, a, g, b, R);
  }

  /** The annuity times (1 + r)^n - 1 is L * r * (1 + r)^n. */
  lemma {:induction false} AnnuityScaled(loanAmount: real, r: real, n: nat)
    requires r > 0.0 && n >= 1
    ensures AnnuityPayment(loanAmount, r, n) * (Pow(1.0 + r, n) - 1.0) == loanAmount * (r * Pow(1.0 + r, n))
  {
    PowAboveOne(1.0 + r, n);
  }

  /** For a positive `d`, `x * d == y` gives `x` the sign of `y`. */
  lemma {:induction false} Quotient(x: real, y: real, d: real)
    requires d > 0.0 && x * d == y
    ensures y >= 0.0 ==> x >= 0.0
    ensures y == 0.0 ==> x == 0.0
  {
    if x < 0.0 {
      MulPositive(-x, d);
    } else if x > 0.0 {
      MulPositive(x, d);
    }
  }

  /** A constant loan given by its duration of at least one period repays the loan within
      that many periods; record i leaves what the annuity's recurrence leaves after i + 1
      periods, the textbook balance of `AnnuityRepays`. */
  lemma {:induction false} ConstantDurationRepays(p: Params)
    requires LoanRequires(p) && Given(p.duration) && DurationPeriods(p) >= 1
    ensures ConstantLoan(p).Ok?
    ensures PaysOff(ConstantLoan(p).value, DurationPeriods(p))
    ensures Leaves(ConstantLoan(p).value, p.loanAmount,
                   AnnuityPayment(p.loanAmount, PeriodicRate(p), DurationPeriods(p)), PeriodicRate(p), 1.0)
  {
    LoanRateSign(p);
    var r, n, L := PeriodicRate(p), DurationPeriods(p), p.loanAmount;
    var a := AnnuityPayment(L, r, n);
    assert ConstantLoan(p) == Ok(LoanRun(Opening(L, a), r, 1.0, 1, n));
    AnnuitySettles(L, r, n);
    SettledRun(L, a, r, n);
  }

  /** The annuity leaves nothing after its n-th period. */
  lemma {:induction false} AnnuitySettles(loanAmount: real, r: real, n: nat)
    requires r > 0.0 && n >= 1
    ensures Repaid(loanAmount, AnnuityPayment(loanAmount, r, n), r, 1.0, n) == 0.0
  {
    var a := AnnuityPayment(loanAmount, r, n);
    var g, R := Pow(1.0 + r, n), Repaid(loanAmount, a, r, 1.0, n);
    assert R * (g - 1.0) == loanAmount * (g - g) by {
      AnnuityScaled(loanAmount, r, n);
      BalanceOfPayment(loanAmount, r, a, n, n);
    }
    assert g > 1.0 by {
      PowAboveOne(1.0 + r, n);
    }
    Quotient(R, 0.0, g - 1.0);
  }

  /** The run over `n` >= 1 periods of a constant payment that leaves nothing after the
      n-th iteration of the recurrence repays the loan within those periods. */
  lemma {:induction false} SettledRun(loanAmount: real, a: real, r: real, n: nat)
    requires n >= 1 && Repaid(loanAmount, a, r, 1.0, n) == 0.0
    ensures PaysOff(LoanRun(Opening(loanAmount, a), r, 1.0, 1, n), n)
    ensures Leaves(LoanRun(Opening(loanAmount, a), r, 1.0, 1, n), loanAmount, a, r, 1.0)
  {
    var start := Opening(loanAmount, a);
    var rows := LoanRun(start, r, 1.0, 1, n);
    LoanRunShape(start, r, 1.0, 1, n);
    LoanRunRepaid(start, r, 1.0, 1, n);
    if |rows| == n {
      var j: nat := n - 1;
      assert rows[j].remainingCapital == Clamped(Repaid(loanAmount, a, r, 1.0, j + 1));
    }
  }

  /** For a payment above the first period's interest, the capital is still owed before
      the `k`-th period exactly while (1 + r)^k stays below P / (P - L * r). */
  lemma {:induction false} PaymentBalanceSign(loanAmount: real, payment: real, r: real, k: nat)
    requires r > 0.0 && payment > Interest(loanAmount, r)
    ensures Repaid(loanAmount, payment, r, 1.0, k) > 0.0
        <==> Pow(1.0 + r, k) < payment / (payment - Interest(loanAmount, r))
  {
    var c := payment - Interest(loanAmount, r);
    var b := Pow(1.0 + r, k);
    var R := Repaid(loanAmount, payment, r, 1.0, k);
    ConstantRepaidClosedForm(loanAmount, payment, r, k);
    assert r * R == payment - c * b;
    ScaleBelow(c, b, payment);
    if R > 0.0 {
      MulPositive(r, R);
    } else {
      MulNonNegative(r, -R);
    }
  }

  /** The constant builder's count for a given payment is the number of periods that
      payment needs: capital is still owed before each of them, and none after the last. */
  lemma {:induction false} PaymentPeriodsRepay(loanAmount: real, payment: real, r: real)
    requires r > 0.0 && payment > Interest(loanAmount, r)
    ensures Repaid(loanAmount, payment, r, 1.0, PaymentPeriods(loanAmount, payment, r)) <= 0.0
    ensures forall k: nat :: k < PaymentPeriods(loanAmount, payment, r) ==> Repaid(loanAmount, payment, r, 1.0, k) > 0.0
  {
    var n := PaymentPeriods(loanAmount, payment, r);
    PaymentBalanceSign(loanAmount, payment, r, n);
    forall k: nat | k < n ensures Repaid(loanAmount, payment, r, 1.0, k) > 0.0 {
      PaymentBalanceSign(loanAmount, payment, r, k);
    }
  }

  /** A constant loan given by a payment above the first period's interest, of a positive
      amount at a positive rate: the schedule has at most the resolved count of records,
      each leaving what the recurrence leaves (nothing, when that is negative); it ends
      once at most 0.01 remains, and when it runs the full count the last record leaves
      nothing. */
  lemma {:induction false} ConstantPaymentRepays(p: Params)
    requires LoanRequires(p) && !Given(p.duration) && p.interestRate > 0.0 && p.loanAmount > 0.0
    requires p.paymentAmount > Interest(p.loanAmount, PeriodicRate(p))
    ensures ConstantLoan(p).Ok?
    ensures PaysOff(ConstantLoan(p).value, PaymentPeriods(p.loanAmount, p.paymentAmount, PeriodicRate(p)))
    ensures Leaves(ConstantLoan(p).value, p.loanAmount, p.paymentAmount, PeriodicRate(p), 1.0)
  {
    LoanRateSign(p);
    var r, L, P := PeriodicRate(p), p.loanAmount, p.paymentAmount;
    MulPositive(L, r);
    var n := PaymentPeriods(L, P, r);
    PaymentPeriodsRepay(L, P, r);
    assert Repaid(L, P, r, 1.0, 0) == L;
    var start := Opening(L, P);
    var rows := LoanRun(start, r, 1.0, 1, n);
    assert ConstantLoan(p) == Ok(rows);
    LoanRunShape(start, r, 1.0, 1, n);
    LoanRunRepaid(start, r, 1.0, 1, n);
  }

  /** A constant loan given by a payment at rate 0: the period count is
      ceil(log(P / P) / log(1)), which is `NaN`, so the schedule is empty (or the payment is
      refused when it is not positive). */
  lemma {:induction false} ZeroRatePaymentLoanEmpty(p: Params)
    requires LoanRequires(p) && p.interestRate == 0.0 && !Given(p.duration) && Given(p.paymentAmount)
    ensures ConstantLoan(p) == if p.paymentAmount > 0.0 then Ok([]) else Err(InsufficientPayment)
  {
    assert PeriodicRate(p) == 0.0;
    assert Interest(p.loanAmount, 0.0) == 0.0;
    if p.paymentAmount > 0.0 {
      assert p.paymentAmount / (p.paymentAmount - 0.0) == 1.0;
      assert Pow(1.0, 0) == 1.0;
      var n := PaymentPeriods(p.loanAmount, p.paymentAmount, 0.0);
      assert n == 0;
      RunEnds(Opening(p.loanAmount, p.paymentAmount), 0.0, 1.0, 1, 0);
    }
  }
}
