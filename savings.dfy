/** The two savings builders, `calculateConstantSavings` and `calculateGeometricSavings`.
    Both resolve a period count (from the duration, from the target amount by a bounded
    search, or, for a constant plan without deposits, by the logarithmic closed form) and
    then accumulate period by period: interest on the opening balance, then interest and
    deposit added, stopping early once a given target is reached. A constant plan is the
    run whose deposit is multiplied by 1 after each period; a geometric plan multiplies it
    by 1 + growthRate / 100. */
module Savings {
  import opened Powers
  import opened Simulation

  /** The loop variables of a savings builder between two periods. */
  datatype SavingsState = SavingsState(balance: real, totalDeposits: real, totalInterest: real, deposit: real)

  /** The state before period 1. */
  function Start(p: Params): SavingsState {
    SavingsState(p.initialDeposit, p.initialDeposit, 0.0, p.periodicDeposit)
  }

  /** One pass of the schedule loop: interest on the opening balance, balance and totals
      updated, deposit scaled by `factor` for the next period. */
  function Accrue(s: SavingsState, rate: real, factor: real): SavingsState {
    var interest := s.balance * rate;
    SavingsState(s.balance + interest + s.deposit, s.totalDeposits + s.deposit,
                 s.totalInterest + interest, s.deposit * factor)
  }

  /** The record pushed for `period` when the loop enters it in state `s`. */
  function RecordOf(period: int, s: SavingsState, rate: real): SavingsRecord {
    var interest := s.balance * rate;
    SavingsRecord(period, s.deposit, interest, s.balance + interest + s.deposit,
                  s.totalDeposits + s.deposit, s.totalInterest + interest)
  }

  /** The early stop `targetAmount && balance >= targetAmount`. */
  predicate Reached(target: real, balance: real) {
    Given(target) && balance >= target
  }

  /** The records the schedule loop pushes for periods `period..total`, entered in state `s`. */
  function Run(s: SavingsState, rate: real, factor: real, target: real, period: int, total: int): seq<SavingsRecord>
    decreases total - period
  {
    if period > total then []
    else
      var rec := RecordOf(period, s, rate);
      if Reached(target, rec.balance) then [rec]
      else [rec] + Run(Accrue(s, rate, factor), rate, factor, target, period + 1, total)
  }

  /** The target-driven search loop from iteration `n` on: compound the balance and add the
      deposit until the target is reached or the cap is hit. The loop keeps only a balance
      and a deposit; it is stated here on the schedule loop's state, whose balance and
      deposit evolve identically (`balance * (1 + rate) + deposit` equals
      `balance + balance * rate + deposit`), and whose totals the search never reads. */
  function TargetPeriods(s: SavingsState, rate: real, factor: real, target: real, n: nat): nat
    requires n <= Cap
    decreases Cap - n
  {
    if s.balance < target && n < Cap then TargetPeriods(Accrue(s, rate, factor), rate, factor, target, n + 1)
    else n
  }

  /** The state of the search loop after `k` iterations. */
  function Compound(s: SavingsState, rate: real, factor: real, k: nat): SavingsState
    decreases k
  {
    if k == 0 then s else Compound(Accrue(s, rate, factor), rate, factor, k - 1)
  }

  function Factor(p: Params, geometric: bool): real {
    if geometric then GrowthFactor(p) else 1.0
  }

  /** The constant builder's logarithmic branch: no periodic deposit, a positive initial deposit. */
  predicate ClosedForm(p: Params, geometric: bool) {
    !geometric && p.periodicDeposit == 0.0 && p.initialDeposit > 0.0
  }

  /** What a savings builder needs in order to terminate: a positive frequency and, when the
      logarithmic branch must grow the balance, a rate other than 0 (with rate 0 the
      source's period count is Infinity and its loop never breaks). */
  predicate Computable(p: Params, geometric: bool) {
    && p.paymentFrequency > 0
    && ((!Given(p.duration) && Given(p.targetAmount) && ClosedForm(p, geometric)
         && p.targetAmount > p.initialDeposit) ==> p.interestRate != 0.0)
  }

  /** The periodic rate has the sign of the annual rate. */
  lemma {:induction false} RateSign(p: Params)
    requires p.paymentFrequency > 0
    ensures PeriodicRate(p) > 0.0 <==> p.interestRate > 0.0
    ensures PeriodicRate(p) == 0.0 <==> p.interestRate == 0.0
  {
    var f := p.paymentFrequency as real;
    assert PeriodicRate(p) * f == p.interestRate / 100.0;
    if PeriodicRate(p) > 0.0 {
      MulPositive(PeriodicRate(p), f);
    } else if PeriodicRate(p) < 0.0 {
      MulPositive(-PeriodicRate(p), f);
    }
  }

  lemma {:induction false} RatioAtMostOne(t: real, i: real)
    requires i > 0.0 && t <= i
    ensures t / i <= 1.0
  {
  }

  /** The ratio handed to the logarithmic branch satisfies `LogPeriods`'s requirement. */
  lemma {:induction false} ClosedFormDefined(p: Params)
    requires Computable(p, false) && ClosedForm(p, false)
    requires !Given(p.duration) && Given(p.targetAmount)
    ensures 1.0 + PeriodicRate(p) != 1.0 || p.targetAmount / p.initialDeposit <= 1.0
  {
    RateSign(p);
    if p.targetAmount <= p.initialDeposit {
      RatioAtMostOne(p.targetAmount, p.initialDeposit);
    }
  }

  /** The period count a savings builder resolves before its schedule loop. */
  function Periods(p: Params, geometric: bool): Result<int>
    requires Computable(p, geometric)
  {
    var rate := PeriodicRate(p);
    if Given(p.duration) then Ok(DurationPeriods(p))
    else if Given(p.targetAmount) then
      if ClosedForm(p, geometric) then
        ClosedFormDefined(p);
        Ok(LogPeriods(p.targetAmount / p.initialDeposit, 1.0 + rate))
      else
        Ok(TargetPeriods(Start(p), rate, Factor(p, geometric), p.targetAmount, 0))
    else Err(MissingTerm)
  }

  /** What `calculateConstantSavings` (geometric == false) or `calculateGeometricSavings`
      (geometric == true) returns or throws. */
  function Schedule(p: Params, geometric: bool): (r: Result<seq<SavingsRecord>>)
    requires Computable(p, geometric)
    ensures r.Err? <==> !Given(p.duration) && !Given(p.targetAmount)
    ensures r.Err? ==> r.error == MissingTerm
  {
    match Periods(p, geometric)
    case Err(e) => Err(e)
    case Ok(n) => Ok(Run(Start(p), PeriodicRate(p), Factor(p, geometric), p.targetAmount, 1, n))
  }

  /** The target-driven search loop shared by both builders (calculations.js:39-45 and
      116-124; the constant builder's deposit never changes, i.e. `factor` is 1). */
  method SearchTargetPeriods(initialDeposit: real, periodicDeposit: real, rate: real, factor: real, target: real)
    returns (n: nat)
    ensures n == TargetPeriods(SavingsState(initialDeposit, initialDeposit, 0.0, periodicDeposit), rate, factor, target, 0)
  {
    ghost var start := SavingsState(initialDeposit, initialDeposit, 0.0, periodicDeposit);
    ghost var s := start;
    n := 0;
    var balance := initialDeposit;
    var currentDeposit := periodicDeposit;
    while balance < target && n < Cap
      invariant n <= Cap && s.balance == balance && s.deposit == currentDeposit
      invariant TargetPeriods(s, rate, factor, target, n) == TargetPeriods(start, rate, factor, target, 0)
      decreases Cap - n
    {
      balance := balance * (1.0 + rate) + currentDeposit;
      currentDeposit := currentDeposit * factor;
      s := Accrue(s, rate, factor);
      n := n + 1;
    }
  }

  /** The schedule loop shared by both builders (calculations.js:52-85 and 130-167). */
  method Accumulate(start: SavingsState, rate: real, factor: real, target: real, totalPeriods: int)
    returns (results: seq<SavingsRecord>)
    ensures results == Run(start, rate, factor, target, 1, totalPeriods)
  {
    ghost var full := Run(start, rate, factor, target, 1, totalPeriods);
    results := [];
    var balance := start.balance;
    var totalDeposits := start.totalDeposits;
    var totalInterest := start.totalInterest;
    var currentDeposit := start.deposit;
    var period := 1;
    while period <= totalPeriods
      invariant results + Run(SavingsState(balance, totalDeposits, totalInterest, currentDeposit),
                              rate, factor, target, period, totalPeriods) == full
      decreases totalPeriods - period
    {
      ghost var s := SavingsState(balance, totalDeposits, totalInterest, currentDeposit);
      ghost var before := results;
      var interest := balance * rate;
      balance := balance + interest + currentDeposit;
      totalDeposits := totalDeposits + currentDeposit;
      totalInterest := totalInterest + interest;
      var rec := SavingsRecord(period, currentDeposit, interest, balance, totalDeposits, totalInterest);
      assert rec == RecordOf(period, s, rate);
      results := results + [rec];
      currentDeposit := currentDeposit * factor;
      assert SavingsState(balance, totalDeposits, totalInterest, currentDeposit) == Accrue(s, rate, factor);
      if Given(target) && balance >= target {
        assert Run(s, rate, factor, target, period, totalPeriods) == [rec];
        break;
      }
      assert Run(s, rate, factor, target, period, totalPeriods)
          == [rec] + Run(Accrue(s, rate, factor), rate, factor, target, period + 1, totalPeriods);
      assert before + ([rec] + Run(Accrue(s, rate, factor), rate, factor, target, period + 1, totalPeriods))
          == results + Run(Accrue(s, rate, factor), rate, factor, target, period + 1, totalPeriods);
      period := period + 1;
    }
  }

  /** `calculateConstantSavings`. */
  method CalculateConstantSavings(p: Params) returns (result: Result<seq<SavingsRecord>>)
    requires Computable(p, false)
    ensures result == Schedule(p, false)
  {
    var rate := PeriodicRate(p);
    var totalPeriods: int;
    if Given(p.duration) {
      totalPeriods := DurationPeriods(p);
    } else if Given(p.targetAmount) {
      if p.periodicDeposit == 0.0 && p.initialDeposit > 0.0 {
        ClosedFormDefined(p);
        totalPeriods := LogPeriods(p.targetAmount / p.initialDeposit, 1.0 + rate);
      } else {
        totalPeriods := SearchTargetPeriods(p.initialDeposit, p.periodicDeposit, rate, 1.0, p.targetAmount);
      }
    } else {
      return Err(MissingTerm);
    }
    var results := Accumulate(Start(p), rate, 1.0, p.targetAmount, totalPeriods);
    result := Ok(results);
  }

  /** `calculateGeometricSavings`. */
  method CalculateGeometricSavings(p: Params) returns (result: Result<seq<SavingsRecord>>)
    requires Computable(p, true)
    ensures result == Schedule(p, true)
  {
    var rate := PeriodicRate(p);
    var periodicGrowthFactor := GrowthFactor(p);
    var totalPeriods: int;
    if Given(p.duration) {
      totalPeriods := DurationPeriods(p);
    } else if Given(p.targetAmount) {
      totalPeriods := SearchTargetPeriods(p.initialDeposit, p.periodicDeposit, rate, periodicGrowthFactor, p.targetAmount);
    } else {
      return Err(MissingTerm);
    }
    var results := Accumulate(Start(p), rate, periodicGrowthFactor, p.targetAmount, totalPeriods);
    result := Ok(results);
  }
}
