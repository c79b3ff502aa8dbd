/** Properties of the savings builders: every schedule keeps its books (balance equals
    deposits plus interest, totals are running sums), is numbered 1..len within the
    resolved count and stops only at its last record; deposits are constant or grow by the
    growth factor; the target-driven count is the first period that reaches the target;
    the logarithmic count is exact; and a geometric plan with zero growth is the constant
    plan. */
module SavingsFacts {
  import opened Powers
  import opened Simulation
  import opened Savings

  /** The shape of a run: numbered from `period`, no longer than the periods left, and
      cut short only by a record that reaches the target. */
  lemma {:induction false} RunShape(s: SavingsState, rate: real, factor: real, target: real, period: int, total: int)
    ensures var rows := Run(s, rate, factor, target, period, total);
      && (rows == [] <==> period > total)
      && |rows| <= (if period > total then 0 else total - period + 1)
      && (forall i :: 0 <= i < |rows| ==> rows[i].period == period + i)
      && (forall i :: 0 <= i < |rows| - 1 ==> !Reached(target, rows[i].balance))
      && (0 < |rows| < total - period + 1 ==> Reached(target, rows[|rows| - 1].balance))
    decreases total - period
  {
    if period <= total {
      var rec := RecordOf(period, s, rate);
      if !Reached(target, rec.balance) {
        var next := Accrue(s, rate, factor);
        RunShape(next, rate, factor, target, period + 1, total);
        var rest := Run(next, rate, factor, target, period + 1, total);
        assert Run(s, rate, factor, target, period, total) == [rec] + rest;
      }
    }
  }

  lemma {:induction false} SumsOfCons(rec: SavingsRecord, rest: seq<SavingsRecord>, i: nat)
    requires i <= |rest|
    ensures SavingsInterestSum(([rec] + rest)[..i + 1]) == rec.interest + SavingsInterestSum(rest[..i])
    ensures DepositSum(([rec] + rest)[..i + 1]) == rec.deposit + DepositSum(rest[..i])
  {
    assert ([rec] + rest)[..i + 1] == [rec] + rest[..i];
    assert ([rec] + rest[..i])[1..] == rest[..i];
  }

  /** The books of a run entered in state `s`: every balance is total deposits plus total
      interest, and both totals are `s`'s plus the running sums of the run so far. */
  ghost predicate Ledgered(rows: seq<SavingsRecord>, s: SavingsState) {
    forall i :: 0 <= i < |rows| ==>
      && rows[i].balance == rows[i].totalDeposits + rows[i].totalInterest
      && rows[i].totalInterest == s.totalInterest + SavingsInterestSum(rows[..i + 1])
      && rows[i].totalDeposits == s.totalDeposits + DepositSum(rows[..i + 1])
  }

  lemma {:induction false} LedgerCons(rec: SavingsRecord, rest: seq<SavingsRecord>, s: SavingsState, next: SavingsState)
    requires rec.balance == rec.totalDeposits + rec.totalInterest
    requires rec.totalInterest == s.totalInterest + rec.interest && rec.totalDeposits == s.totalDeposits + rec.deposit
    requires next.totalInterest == rec.totalInterest && next.totalDeposits == rec.totalDeposits
    requires Ledgered(rest, next)
    ensures Ledgered([rec] + rest, s)
  {
    var rows := [rec] + rest;
    forall i | 0 <= i < |rows|
      ensures rows[i].balance == rows[i].totalDeposits + rows[i].totalInterest
      ensures rows[i].totalInterest == s.totalInterest + SavingsInterestSum(rows[..i + 1])
      ensures rows[i].totalDeposits == s.totalDeposits + DepositSum(rows[..i + 1])
    {
      SumsOfCons(rec, rest, i);
      if i > 0 {
        assert rows[i] == rest[i - 1];
        assert rest[..i - 1 + 1] == rest[..i];
      } else {
        assert rest[..0] == [];
      }
    }
  }

  /** Every record of a run that starts with balance == deposits + interest keeps that
      equation, and its totals are the running sums of the per-period amounts. */
  lemma {:induction false} RunLedger(s: SavingsState, rate: real, factor: real, target: real, period: int, total: int)
    requires s.balance == s.totalDeposits + s.totalInterest
    ensures Ledgered(Run(s, rate, factor, target, period, total), s)
    decreases total - period
  {
    if period <= total {
      var rec := RecordOf(period, s, rate);
      var next := Accrue(s, rate, factor);
      if Reached(target, rec.balance) {
        assert Run(s, rate, factor, target, period, total) == [rec] + [];
        LedgerCons(rec, [], s, next);
      } else {
        RunLedger(next, rate, factor, target, period + 1, total);
        LedgerCons(rec, Run(next, rate, factor, target, period + 1, total), s, next);
      }
    }
  }

  /** The deposits of a run: `d * f^i` in its i-th record. */
  ghost predicate Growing(rows: seq<SavingsRecord>, d: real, f: real) {
    forall i :: 0 <= i < |rows| ==> rows[i].deposit == Grown(d, f, i)
  }

  lemma {:induction false} GrowingCons(rec: SavingsRecord, rest: seq<SavingsRecord>, d: real, f: real)
    requires rec.deposit == d && Growing(rest, d * f, f)
    ensures Growing([rec] + rest, d, f)
  {
    var rows := [rec] + rest;
    forall i | 0 <= i < |rows| ensures rows[i].deposit == Grown(d, f, i) {
      if i > 0 {
        assert rows[i] == rest[i - 1];
        GrownShift(d, f, i);
      }
    }
  }

  /** The deposit of a run starts at the entry deposit and is multiplied by the factor after
      every period. */
  lemma {:induction false} RunDeposits(s: SavingsState, rate: real, factor: real, target: real, period: int, total: int)
    ensures Growing(Run(s, rate, factor, target, period, total), s.deposit, factor)
    decreases total - period
  {
    if period <= total {
      var rec := RecordOf(period, s, rate);
      var next := Accrue(s, rate, factor);
      if Reached(target, rec.balance) {
        assert Run(s, rate, factor, target, period, total) == [rec] + [];
        GrowingCons(rec, [], s.deposit, factor);
      } else {
        RunDeposits(next, rate, factor, target, period + 1, total);
        GrowingCons(rec, Run(next, rate, factor, target, period + 1, total), s.deposit, factor);
      }
    }
  }

  /** The target-driven search stops at the first iteration count whose balance reaches the
      target, and never goes past the cap of 1000. */
  lemma {:induction false} TargetPeriodsLeast(s: SavingsState, rate: real, factor: real, target: real, n: nat)
    requires n <= Cap
    ensures var m := TargetPeriods(s, rate, factor, target, n);
      && n <= m <= Cap
      && (forall k: nat :: k < m - n ==> Compound(s, rate, factor, k).balance < target)
      && (m < Cap ==> Compound(s, rate, factor, m - n).balance >= target)
    decreases Cap - n
  {
    if s.balance < target && n < Cap {
      var next := Accrue(s, rate, factor);
      TargetPeriodsLeast(next, rate, factor, target, n + 1);
      var m := TargetPeriods(s, rate, factor, target, n);
      forall k: nat | k < m - n ensures Compound(s, rate, factor, k).balance < target {
        if k > 0 {
          assert Compound(s, rate, factor, k) == Compound(next, rate, factor, k - 1);
        }
      }
      if m < Cap {
        assert Compound(s, rate, factor, m - n) == Compound(next, rate, factor, m - (n + 1));
      }
    }
  }

  /** Running the schedule for the count the search returned reproduces the search: it has
      exactly that many records, and (below the cap) its last one reaches the target. */
  lemma {:induction false} ResolvedRun(s: SavingsState, rate: real, factor: real, target: real, n: nat, period: int)
    requires Given(target) && n <= Cap
    ensures var m := TargetPeriods(s, rate, factor, target, n);
      var rows := Run(s, rate, factor, target, period, period + m - n - 1);
      && |rows| == m - n
      && (n < m < Cap ==> rows[|rows| - 1].balance >= target)
    decreases Cap - n
  {
    TargetPeriodsLeast(s, rate, factor, target, n);
    var m := TargetPeriods(s, rate, factor, target, n);
    var total := period + m - n - 1;
    if s.balance < target && n < Cap {
      var rec := RecordOf(period, s, rate);
      var next := Accrue(s, rate, factor);
      assert rec.balance == next.balance;
      TargetPeriodsLeast(next, rate, factor, target, n + 1);
      if !Reached(target, rec.balance) {
        ResolvedRun(next, rate, factor, target, n + 1, period + 1);
        assert Run(s, rate, factor, target, period, total)
            == [rec] + Run(next, rate, factor, target, period + 1, total);
        if m == n + 1 {
          assert Compound(next, rate, factor, 0).balance < target;
        }
      }
    }
  }

  /** A successful savings builder returns the run over its resolved period count. */
  lemma {:induction false} ScheduleIsRun(p: Params, geometric: bool)
    requires Computable(p, geometric) && Schedule(p, geometric).Ok?
    ensures Periods(p, geometric).Ok?
    ensures Schedule(p, geometric).value
         == Run(Start(p), PeriodicRate(p), Factor(p, geometric), p.targetAmount, 1, Periods(p, geometric).value)
  {
  }

  /** What a savings builder returns, whatever the way its count was resolved: records
      numbered 1..len, no more than the resolved count, each balance equal to total deposits
      plus total interest, the totals being the initial deposit plus the running sum of the
      deposits and the running sum of the interest, and only the last record may reach the
      target. */
  lemma {:induction false} ScheduleAccounts(p: Params, geometric: bool)
    requires Computable(p, geometric) && Schedule(p, geometric).Ok?
    ensures var rows := Schedule(p, geometric).value;
      var n := Periods(p, geometric).value;
      && |rows| <= (if n < 0 then 0 else n)
      && (forall i :: 0 <= i < |rows| ==> rows[i].period == i + 1)
      && (forall i :: 0 <= i < |rows| ==> rows[i].balance == rows[i].totalDeposits + rows[i].totalInterest)
      && (forall i :: 0 <= i < |rows| ==> rows[i].totalInterest == SavingsInterestSum(rows[..i + 1]))
      && (forall i :: 0 <= i < |rows| ==> rows[i].totalDeposits == p.initialDeposit + DepositSum(rows[..i + 1]))
      && (forall i :: 0 <= i < |rows| - 1 ==> !Reached(p.targetAmount, rows[i].balance))
  {
    ScheduleIsRun(p, geometric);
    var n := Periods(p, geometric).value;
    RunShape(Start(p), PeriodicRate(p), Factor(p, geometric), p.targetAmount, 1, n);
    RunLedger(Start(p), PeriodicRate(p), Factor(p, geometric), p.targetAmount, 1, n);
  }

  /** Deposits: period k deposits `periodicDeposit * (1 + growthRate / 100)^(k - 1)` in a
      geometric plan, and `periodicDeposit` in every period of a constant plan. */
  lemma {:induction false} ScheduleDeposits(p: Params, geometric: bool)
    requires Computable(p, geometric) && Schedule(p, geometric).Ok?
    ensures var rows := Schedule(p, geometric).value;
      && (geometric ==> forall i :: 0 <= i < |rows| ==> rows[i].deposit == Grown(p.periodicDeposit, GrowthFactor(p), i))
      && (!geometric ==> forall i :: 0 <= i < |rows| ==> rows[i].deposit == p.periodicDeposit)
  {
    ScheduleIsRun(p, geometric);
    var rows := Schedule(p, geometric).value;
    RunDeposits(Start(p), PeriodicRate(p), Factor(p, geometric), p.targetAmount, 1, Periods(p, geometric).value);
    if !geometric {
      forall i | 0 <= i < |rows| ensures rows[i].deposit == p.periodicDeposit {
        assert rows[i].deposit == Grown(p.periodicDeposit, 1.0, i);
        PowOne(i);
      }
    }
  }

  /** Target-driven search branch (no duration, a target, not the logarithmic branch): the
      search count n is at most 1000, the schedule has exactly n records, every record
      before the last is below the target, and when the cap was not hit the last reaches it. */
  lemma {:induction false} TargetDrivenSchedule(p: Params, geometric: bool)
    requires Computable(p, geometric)
    requires !Given(p.duration) && Given(p.targetAmount) && !ClosedForm(p, geometric)
    ensures var n := Periods(p, geometric).value;
      var rows := Schedule(p, geometric).value;
      && 0 <= n <= Cap
      && |rows| == n
      && (forall i :: 0 <= i < n - 1 ==> rows[i].balance < p.targetAmount)
      && (0 < n < Cap ==> rows[n - 1].balance >= p.targetAmount)
  {
    var rate, factor := PeriodicRate(p), Factor(p, geometric);
    var n := Periods(p, geometric).value;
    TargetPeriodsLeast(Start(p), rate, factor, p.targetAmount, 0);
    ResolvedRun(Start(p), rate, factor, p.targetAmount, 0, 1);
    RunShape(Start(p), rate, factor, p.targetAmount, 1, n);
  }

  /** The i-th record of `rows` holds the search loop's balance after i + 1 iterations from
      state `s`. */
  ghost predicate Tracks(rows: seq<SavingsRecord>, s: SavingsState, rate: real, factor: real) {
    forall i :: 0 <= i < |rows| ==> rows[i].balance == Compound(s, rate, factor, i + 1).balance
  }

  lemma {:induction false} TracksCons(rec: SavingsRecord, rest: seq<SavingsRecord>, s: SavingsState, rate: real, factor: real)
    requires rec.balance == Accrue(s, rate, factor).balance
    requires Tracks(rest, Accrue(s, rate, factor), rate, factor)
    ensures Tracks([rec] + rest, s, rate, factor)
  {
    var rows := [rec] + rest;
    forall i | 0 <= i < |rows| ensures rows[i].balance == Compound(s, rate, factor, i + 1).balance {
      if i > 0 {
        assert rows[i] == rest[i - 1];
      }
    }
  }

  /** The schedule loop and the search loop compute the same balances: the record of the
      k-th period of a run holds the search balance after k iterations from the run's entry
      state. When those balances stay below the target for all but the last period, the
      run has a record for every period. */
  lemma {:induction false} RunTracksSearch(s: SavingsState, rate: real, factor: real, target: real, period: int, total: int)
    requires period <= total + 1
    requires forall k: nat :: 0 < k <= total - period ==> Compound(s, rate, factor, k).balance < target
    ensures |Run(s, rate, factor, target, period, total)| == total - period + 1
    ensures Tracks(Run(s, rate, factor, target, period, total), s, rate, factor)
    decreases total - period
  {
    if period <= total {
      var rec := RecordOf(period, s, rate);
      var next := Accrue(s, rate, factor);
      assert rec.balance == next.balance;
      if period < total {
        assert Compound(s, rate, factor, 1) == next;
        forall k: nat | 0 < k <= total - (period + 1)
          ensures Compound(next, rate, factor, k).balance < target
        {
          assert Compound(s, rate, factor, k + 1) == Compound(next, rate, factor, k);
        }
        RunTracksSearch(next, rate, factor, target, period + 1, total);
        var rest := Run(next, rate, factor, target, period + 1, total);
        assert Run(s, rate, factor, target, period, total) == [rec] + rest;
        TracksCons(rec, rest, s, rate, factor);
      } else {
        assert Run(next, rate, factor, target, period + 1, total) == [];
        assert Run(s, rate, factor, target, period, total) == [rec] + [];
        TracksCons(rec, [], s, rate, factor);
      }
    }
  }

  /** Without deposits the search balance compounds: balance * (1 + rate)^k after k
      iterations. */
  lemma {:induction false} CompoundNoDeposit(s: SavingsState, rate: real, b: real, k: nat)
    requires s.deposit == 0.0 && b == 1.0 + rate
    ensures Compound(s, rate, 1.0, k).balance == s.balance * Pow(b, k)
    decreases k
  {
    if k > 0 {
      var next := Accrue(s, rate, 1.0);
      CompoundNoDeposit(next, rate, b, k - 1);
      assert next.balance == s.balance * b;
      assert Pow(b, k) == b * Pow(b, k - 1);
      assert s.balance * b * Pow(b, k - 1) == s.balance * (b * Pow(b, k - 1));
    }
  }

  /** Two counts that both are the first at which the search balance reaches the target
      (the second one within the cap) are equal. */
  lemma {:induction false} LeastIsUnique(s: SavingsState, rate: real, factor: real, target: real, m: nat, c: nat)
    requires forall k: nat :: k < m ==> Compound(s, rate, factor, k).balance < target
    requires m < Cap ==> Compound(s, rate, factor, m).balance >= target
    requires forall k: nat :: k < c ==> Compound(s, rate, factor, k).balance < target
    requires Compound(s, rate, factor, c).balance >= target && c <= Cap
    ensures m == c
  {
  }

  /** A plan without periodic deposit compounds its initial deposit. */
  lemma {:induction false} StartCompounds(p: Params, k: nat)
    requires p.paymentFrequency > 0 && p.periodicDeposit == 0.0
    ensures Compound(Start(p), PeriodicRate(p), 1.0, k).balance == p.initialDeposit * Pow(1.0 + PeriodicRate(p), k)
  {
    CompoundNoDeposit(Start(p), PeriodicRate(p), 1.0 + PeriodicRate(p), k);
  }

  /** With a rate of at least 0, the logarithmic branch's base is at least 1, and it is 1
      only when the target is already reached. */
  lemma {:induction false} ClosedFormGrows(p: Params)
    requires Computable(p, false) && ClosedForm(p, false) && p.interestRate >= 0.0
    requires !Given(p.duration) && Given(p.targetAmount)
    ensures 1.0 + PeriodicRate(p) >= 1.0
    ensures 1.0 + PeriodicRate(p) != 1.0 || p.targetAmount / p.initialDeposit <= 1.0
  {
    RateSign(p);
    ClosedFormDefined(p);
  }

  /** The logarithmic count c is reached by the search balance after c iterations ... */
  lemma {:induction false} ClosedFormReaches(p: Params)
    requires Computable(p, false) && ClosedForm(p, false) && p.interestRate >= 0.0
    requires !Given(p.duration) && Given(p.targetAmount)
    ensures Compound(Start(p), PeriodicRate(p), 1.0, Periods(p, false).value).balance >= p.targetAmount
  {
    ClosedFormGrows(p);
    var c := LogPeriods(p.targetAmount / p.initialDeposit, 1.0 + PeriodicRate(p));
    ScaledLogReaches(p.initialDeposit, 1.0 + PeriodicRate(p), p.targetAmount);
    assert Periods(p, false).value == c;
    StartCompounds(p, c);
  }

  /** ... and by no smaller count. */
  lemma {:induction false} ClosedFormBelow(p: Params, k: nat)
    requires Computable(p, false) && ClosedForm(p, false) && p.interestRate >= 0.0
    requires !Given(p.duration) && Given(p.targetAmount)
    requires k < Periods(p, false).value
    ensures Compound(Start(p), PeriodicRate(p), 1.0, k).balance < p.targetAmount
  {
    ClosedFormGrows(p);
    var c := LogPeriods(p.targetAmount / p.initialDeposit, 1.0 + PeriodicRate(p));
    assert Periods(p, false).value == c;
    ScaledLogBelow(p.initialDeposit, 1.0 + PeriodicRate(p), p.targetAmount, k);
    StartCompounds(p, k);
  }

  lemma {:induction false} ClosedFormBelowAll(p: Params)
    requires Computable(p, false) && ClosedForm(p, false) && p.interestRate >= 0.0
    requires !Given(p.duration) && Given(p.targetAmount)
    ensures forall k: nat :: k < Periods(p, false).value ==> Compound(Start(p), PeriodicRate(p), 1.0, k).balance < p.targetAmount
  {
    forall k: nat | k < Periods(p, false).value
      ensures Compound(Start(p), PeriodicRate(p), 1.0, k).balance < p.targetAmount
    {
      ClosedFormBelow(p, k);
    }
  }

  /** The logarithmic branch's run has a record for each of its periods, holding the search
      balance after that many iterations. */
  lemma {:induction false} ClosedFormRun(p: Params)
    requires Computable(p, false) && ClosedForm(p, false) && p.interestRate >= 0.0
    requires !Given(p.duration) && Given(p.targetAmount)
    ensures var n := Periods(p, false).value;
      var rows := Schedule(p, false).value;
      && |rows| == n
      && Tracks(rows, Start(p), PeriodicRate(p), 1.0)
  {
    ScheduleIsRun(p, false);
    var n := Periods(p, false).value;
    forall k: nat | 0 < k <= n - 1
      ensures Compound(Start(p), PeriodicRate(p), 1.0, k).balance < p.targetAmount
    {
      ClosedFormBelow(p, k);
    }
    RunTracksSearch(Start(p), PeriodicRate(p), 1.0, p.targetAmount, 1, n);
  }

  /** The balance of the i-th record is `init * b^(i + 1)`. */
  ghost predicate Compounds(rows: seq<SavingsRecord>, init: real, b: real) {
    forall i :: 0 <= i < |rows| ==> rows[i].balance == init * Pow(b, i + 1)
  }

  /** A run without deposits that tracks the search, whose search balances stay below the
      target before its last period and reach it there, compounds its entry balance and
      stops at its last record. */
  lemma {:induction false} CompoundingRun(rows: seq<SavingsRecord>, s: SavingsState, rate: real, b: real, target: real)
    requires s.deposit == 0.0 && b == 1.0 + rate
    requires Tracks(rows, s, rate, 1.0)
    requires forall k: nat :: 0 < k < |rows| ==> Compound(s, rate, 1.0, k).balance < target
    requires |rows| > 0 ==> Compound(s, rate, 1.0, |rows|).balance >= target
    ensures Compounds(rows, s.balance, b)
    ensures forall i :: 0 <= i < |rows| - 1 ==> rows[i].balance < target
    ensures |rows| > 0 ==> rows[|rows| - 1].balance >= target
  {
    forall i | 0 <= i < |rows| ensures rows[i].balance == s.balance * Pow(b, i + 1) {
      CompoundNoDeposit(s, rate, b, i + 1);
    }
  }

  /** The logarithmic branch (no duration, a target, no periodic deposit, a positive initial
      deposit): the schedule has exactly the closed-form count n = ceil(log(target/initial)
      / log(1 + rate)) of records, the balance compounds as initial * (1 + rate)^period,
      every record before the last is below the target and the last reaches it. */
  lemma {:induction false} ClosedFormSchedule(p: Params)
    requires Computable(p, false) && ClosedForm(p, false) && p.interestRate >= 0.0
    requires !Given(p.duration) && Given(p.targetAmount)
    ensures var n := Periods(p, false).value;
      var rows := Schedule(p, false).value;
      && |rows| == n
      && Compounds(rows, p.initialDeposit, 1.0 + PeriodicRate(p))
      && (forall i :: 0 <= i < n - 1 ==> rows[i].balance < p.targetAmount)
      && (n > 0 ==> rows[n - 1].balance >= p.targetAmount)
  {
    ClosedFormRun(p);
    ClosedFormReaches(p);
    ClosedFormBelowAll(p);
    assert Start(p).balance == p.initialDeposit;
    CompoundingRun(Schedule(p, false).value, Start(p), PeriodicRate(p), 1.0 + PeriodicRate(p), p.targetAmount);
  }

  /** With a base below 1, the logarithmic count is 0 unless the base is positive and the
      ratio lies strictly between 0 and 1; then it is at least 1, and exactly 1 when the
      base is already below the ratio. */
  lemma {:induction false} DeclineCount(x: real, b: real)
    requires b < 1.0
    ensures 0.0 < b && 0.0 < x < 1.0 ==> LogPeriods(x, b) >= 1 && (b < x ==> LogPeriods(x, b) == 1)
    ensures !(0.0 < b && 0.0 < x < 1.0) ==> LogPeriods(x, b) == 0
  {
    var n := LogPeriods(x, b);
    assert Pow(b, 0) == 1.0;
    if 0.0 < b && 0.0 < x < 1.0 && b < x && n > 1 {
      assert Pow(b, 1) == b;
    }
  }

  /** For a positive initial deposit, the ratio target / initialDeposit lies strictly
      between 0 and 1 exactly when the target does between 0 and the initial deposit, and
      the balance `initialDeposit * b` is below the target exactly when `b` is below the
      ratio. */
  lemma {:induction false} RatioBetween(init: real, target: real, b: real)
    requires init > 0.0
    ensures 0.0 < target / init < 1.0 <==> 0.0 < target < init
    ensures init * b < target <==> b < target / init
  {
    ScaleBelow(init, 0.0, target);
    ScaleBelow(init, 1.0, target);
    ScaleBelow(init, b, target);
    if target == init {
      assert target / init == 1.0;
    }
  }

  /** A run of at least one period whose first record reaches the target, or which has only
      one period, is that first record alone. */
  lemma {:induction false} RunFirstOnly(s: SavingsState, rate: real, factor: real, target: real, n: int)
    requires n >= 1
    requires Reached(target, RecordOf(1, s, rate).balance) || n == 1
    ensures Run(s, rate, factor, target, 1, n) == [RecordOf(1, s, rate)]
  {
    if !Reached(target, RecordOf(1, s, rate).balance) {
      RunPastTotal(Accrue(s, rate, factor), rate, factor, target, 2, n);
    }
  }

  /** The logarithmic branch with a negative rate, whose base 1 + rate is below 1: the
      schedule is the first period's record alone when the base is positive and the target
      lies strictly between 0 and the initial deposit, and empty otherwise. In the first
      case the count is at least 1, and the first record either reaches the target and
      stops the loop, or lies below it, which makes the count exactly 1. */
  lemma {:induction false} ClosedFormDecline(p: Params)
    requires Computable(p, false) && ClosedForm(p, false) && p.interestRate < 0.0
    requires !Given(p.duration) && Given(p.targetAmount)
    ensures Schedule(p, false).Ok?
    ensures Schedule(p, false).value
         == if 1.0 + PeriodicRate(p) > 0.0 && 0.0 < p.targetAmount < p.initialDeposit
            then [RecordOf(1, Start(p), PeriodicRate(p))] else []
  {
    var rate := PeriodicRate(p);
    RateSign(p);
    ClosedFormDefined(p);
    var n := LogPeriods(p.targetAmount / p.initialDeposit, 1.0 + rate);
    assert Periods(p, false) == Ok(n);
    assert Schedule(p, false) == Ok(Run(Start(p), rate, 1.0, p.targetAmount, 1, n));
    DeclineRun(Start(p), rate, p.targetAmount);
  }

  /** `ClosedFormDecline` on the loop's own values: a start without deposits and a rate
      below 0. */
  lemma {:induction false} DeclineRun(s: SavingsState, rate: real, target: real)
    requires s.balance > 0.0 && s.deposit == 0.0 && rate < 0.0 && Given(target)
    ensures Run(s, rate, 1.0, target, 1, LogPeriods(target / s.balance, 1.0 + rate))
         == if 1.0 + rate > 0.0 && 0.0 < target < s.balance then [RecordOf(1, s, rate)] else []
  {
    var b, x := 1.0 + rate, target / s.balance;
    var n := LogPeriods(x, b);
    var rec := RecordOf(1, s, rate);
    assert rec.balance == s.balance * b;
    if b > 0.0 && 0.0 < target < s.balance {
      assert n >= 1 && (Reached(target, rec.balance) || n == 1) by {
        DeclineCount(x, b);
        RatioBetween(s.balance, target, b);
      }
      RunFirstOnly(s, rate, 1.0, target, n);
    } else {
      assert n == 0 by {
        DeclineCount(x, b);
        RatioBetween(s.balance, target, b);
      }
      RunPastTotal(s, rate, 1.0, target, 1, n);
    }
  }

  lemma {:induction false} RunPastTotal(s: SavingsState, rate: real, factor: real, target: real, period: int, total: int)
    requires period > total
    ensures Run(s, rate, factor, target, period, total) == []
  {
  }

  /** In the logarithmic branch, the bounded search without deposits finds the same count
      whenever that count is within the cap. */
  lemma {:induction false} ClosedFormSearch(p: Params)
    requires Computable(p, false) && ClosedForm(p, false) && p.interestRate >= 0.0
    requires !Given(p.duration) && Given(p.targetAmount) && Periods(p, false).value <= Cap
    ensures TargetPeriods(Start(p), PeriodicRate(p), 1.0, p.targetAmount, 0) == Periods(p, false).value
  {
    var rate := PeriodicRate(p);
    var c := Periods(p, false).value;
    ClosedFormReaches(p);
    forall k: nat | k < c ensures Compound(Start(p), rate, 1.0, k).balance < p.targetAmount {
      ClosedFormBelow(p, k);
    }
    TargetPeriodsLeast(Start(p), rate, 1.0, p.targetAmount, 0);
    LeastIsUnique(Start(p), rate, 1.0, p.targetAmount, TargetPeriods(Start(p), rate, 1.0, p.targetAmount, 0), c);
  }

  /** A geometric plan with growth rate 0 produces exactly the constant plan's output,
      unless the constant plan takes its logarithmic branch with a count above the cap
      (the geometric builder always searches, and its search stops at 1000) or with a
      negative rate (see `ClosedFormDecline`). */
  lemma {:induction false} ZeroGrowthIsConstant(p: Params)
    requires Computable(p, false)
    requires !Given(p.duration) && Given(p.targetAmount) && ClosedForm(p, false)
             ==> p.interestRate >= 0.0 && Periods(p, false).value <= Cap
    ensures Computable(p.(growthRate := 0.0), true)
    ensures Schedule(p.(growthRate := 0.0), true) == Schedule(p, false)
  {
    var q := p.(growthRate := 0.0);
    assert PeriodicRate(q) == PeriodicRate(p);
    assert Start(q) == Start(p);
    assert Factor(q, true) == 1.0 == Factor(p, false);
    if Given(p.duration) {
      assert DurationPeriods(q) == DurationPeriods(p);
    } else if Given(p.targetAmount) {
      var search := TargetPeriods(Start(p), PeriodicRate(p), 1.0, p.targetAmount, 0);
      assert Periods(q, true) == Ok(search);
      if ClosedForm(p, false) {
        ClosedFormSearch(p);
      } else {
        assert Periods(p, false) == Ok(search);
      }
    }
    assert Periods(q, true) == Periods(p, false);
  }
}
