/** `compareScenarios`: a table of criteria for two saved scenarios of the same kind, each
    row holding the first scenario's figure, the second's, and their difference. Which
    table is built is decided by the first scenario's operation. The figures are kept as
    numbers; their two-decimal text and unit suffix are not modelled. */
module Comparison {
  import opened Simulation

  datatype Criterion =
    // loans
    | LoanAmount | FirstPayment | LastPayment | TotalCost
    // savings
    | InitialDeposit | FirstPeriodicDeposit | GrowthRate | TotalDeposits | FinalBalance | Yield
    // both
    | InterestRate | Duration | TotalInterest

  /** A figure as the table prints it: a number, or a division by zero, which the source
      prints as `Infinity` or `NaN`. */
  datatype Cell = Num(x: real) | NonFinite

  datatype Row = Row(criterion: Criterion, value1: Cell, value2: Cell, difference: Cell)

  /** The difference of two figures: anything but a number on either side gives no number. */
  function Difference(a: Cell, b: Cell): Cell {
    if a.Num? && b.Num? then Num(a.x - b.x) else NonFinite
  }

  /** `count / frequency`, the duration in years of a schedule of `count` records. */
  function Years(count: nat, frequency: int): Cell {
    if frequency == 0 then NonFinite else Num(count as real / frequency as real)
  }

  /** A schedule with at least one record: the table reads the first and the last. */
  predicate HasRecords(data: ScenarioData) {
    match data
    case LoanData(rows) => |rows| > 0
    case SavingsData(rows) => |rows| > 0
  }

  function RecordCount(data: ScenarioData): nat {
    match data
    case LoanData(rows) => |rows|
    case SavingsData(rows) => |rows|
  }

  /** Whether a criterion describes a scenario whose schedule is `data`. */
  predicate Applies(c: Criterion, data: ScenarioData) {
    match c
    case LoanAmount => data.LoanData?
    case FirstPayment => data.LoanData?
    case LastPayment => data.LoanData?
    case TotalCost => data.LoanData?
    case InitialDeposit => data.SavingsData?
    case FirstPeriodicDeposit => data.SavingsData?
    case GrowthRate => data.SavingsData?
    case TotalDeposits => data.SavingsData?
    case FinalBalance => data.SavingsData?
    case Yield => data.SavingsData?
    case InterestRate => true
    case Duration => true
    case TotalInterest => true
  }

  /** What one scenario shows under a criterion, defined criterion by criterion. */
  function Figure(s: Scenario, c: Criterion): Cell
    requires HasRecords(s.data) && Applies(c, s.data)
  {
    var p := s.params;
    match c
    case InterestRate => Num(p.interestRate)
    case Duration => Years(RecordCount(s.data), p.paymentFrequency)
    case TotalInterest =>
      (match s.data
       case LoanData(rows) => Num(rows[|rows| - 1].totalInterest)
       case SavingsData(rows) => Num(rows[|rows| - 1].totalInterest))
    case LoanAmount => Num(p.loanAmount)
    case FirstPayment => Num(s.data.loan[0].payment)
    case LastPayment => Num(s.data.loan[|s.data.loan| - 1].payment)
    case TotalCost => Num(p.loanAmount + s.data.loan[|s.data.loan| - 1].totalInterest)
    case InitialDeposit => Num(p.initialDeposit)
    case FirstPeriodicDeposit => Num(p.periodicDeposit)
    case GrowthRate => Num(p.growthRate)
    case TotalDeposits => Num(s.data.savings[|s.data.savings| - 1].totalDeposits)
    case FinalBalance => Num(s.data.savings[|s.data.savings| - 1].balance)
    case Yield =>
      var last := s.data.savings[|s.data.savings| - 1];
      if last.totalDeposits == 0.0 then NonFinite else Num(last.totalInterest / last.totalDeposits * 100.0)
  }

  /** What the source demands of two scenarios it compares: schedules with records, both of
      the kind the first scenario's operation names (the other kind lacks the fields read). */
  predicate Comparable(s1: Scenario, s2: Scenario) {
    && HasRecords(s1.data) && HasRecords(s2.data)
    && (if s1.params.operation == Loan then s1.data.LoanData? && s2.data.LoanData?
        else s1.data.SavingsData? && s2.data.SavingsData?)
  }

  /** A row compares a criterion of both scenarios: the first scenario's figure, the
      second's, and their difference. */
  predicate Compares(r: Row, s1: Scenario, s2: Scenario)
    requires HasRecords(s1.data) && HasRecords(s2.data)
  {
    && Applies(r.criterion, s1.data) && Applies(r.criterion, s2.data)
    && r.value1 == Figure(s1, r.criterion)
    && r.value2 == Figure(s2, r.criterion)
    && r.difference == Difference(r.value1, r.value2)
  }

  predicate Tabulates(rows: seq<Row>, s1: Scenario, s2: Scenario)
    requires HasRecords(s1.data) && HasRecords(s2.data)
  {
    forall r :: r in rows ==> Compares(r, s1, s2)
  }

  /** The criteria of a table, in order. */
  function Criteria(rows: seq<Row>): seq<Criterion> {
    seq(|rows|, i requires 0 <= i < |rows| => rows[i].criterion)
  }

  /** The loan table's criteria, in the order they are listed. */
  function LoanCriteria(withLastPayment: bool): seq<Criterion> {
    [LoanAmount, InterestRate, Duration, FirstPayment]
    + (if withLastPayment then [LastPayment] else [])
    + [TotalInterest, TotalCost]
  }

  /** The savings table's criteria, in the order they are listed. */
  function SavingsCriteria(withGrowthRate: bool): seq<Criterion> {
    [InitialDeposit, FirstPeriodicDeposit, InterestRate, Duration]
    + (if withGrowthRate then [GrowthRate] else [])
    + [TotalDeposits, TotalInterest, FinalBalance, Yield]
  }

  /** A row of plain numbers. */
  function NumRow(c: Criterion, a: real, b: real): Row {
    Row(c, Num(a), Num(b), Num(a - b))
  }

  /** The duration row. */
  function DurationRow(count1: nat, frequency1: int, count2: nat, frequency2: int): Row {
    if frequency1 == 0 || frequency2 == 0 then
      Row(Duration, Years(count1, frequency1), Years(count2, frequency2), NonFinite)
    else
      var y1 := count1 as real / frequency1 as real;
      var y2 := count2 as real / frequency2 as real;
      NumRow(Duration, y1, y2)
  }

  /** The loan table: amount, rate, duration, first payment, the last payment when both
      schedules have more than one record, total interest, total cost. */
  function LoanComparison(s1: Scenario, s2: Scenario): seq<Row>
    requires s1.data.LoanData? && s2.data.LoanData? && HasRecords(s1.data) && HasRecords(s2.data)
  {
    var p1, p2 := s1.params, s2.params;
    var d1, d2 := s1.data.loan, s2.data.loan;
    var last1, last2 := d1[|d1| - 1], d2[|d2| - 1];
    var amount := NumRow(LoanAmount, p1.loanAmount, p2.loanAmount);
    var rate := NumRow(InterestRate, p1.interestRate, p2.interestRate);
    var duration := DurationRow(|d1|, p1.paymentFrequency, |d2|, p2.paymentFrequency);
    var first := NumRow(FirstPayment, d1[0].payment, d2[0].payment);
    var interest := NumRow(TotalInterest, last1.totalInterest, last2.totalInterest);
    var cost := NumRow(TotalCost, p1.loanAmount + last1.totalInterest, p2.loanAmount + last2.totalInterest);
    if |d1| > 1 && |d2| > 1 then
      [amount, rate, duration, first, NumRow(LastPayment, last1.payment, last2.payment), interest, cost]
    else
      [amount, rate, duration, first, interest, cost]
  }

  /** The yield row: total interest over total deposits, in percent. */
  function YieldRow(interest1: real, deposits1: real, interest2: real, deposits2: real): Row {
    if deposits1 == 0.0 || deposits2 == 0.0 then
      Row(Yield,
          if deposits1 == 0.0 then NonFinite else Num(interest1 / deposits1 * 100.0),
          if deposits2 == 0.0 then NonFinite else Num(interest2 / deposits2 * 100.0),
          NonFinite)
    else
      Row(Yield, Num(interest1 / deposits1 * 100.0), Num(interest2 / deposits2 * 100.0),
          Num((interest1 / deposits1 - interest2 / deposits2) * 100.0))
  }

  /** The savings table: initial deposit, first periodic deposit, rate, duration, the growth
      rate when both plans are geometric, total deposits, total interest, final balance,
      yield. */
  function SavingsComparison(s1: Scenario, s2: Scenario): seq<Row>
    requires s1.data.SavingsData? && s2.data.SavingsData? && HasRecords(s1.data) && HasRecords(s2.data)
  {
    var p1, p2 := s1.params, s2.params;
    var d1, d2 := s1.data.savings, s2.data.savings;
    var last1, last2 := d1[|d1| - 1], d2[|d2| - 1];
    var initial := NumRow(InitialDeposit, p1.initialDeposit, p2.initialDeposit);
    var periodic := NumRow(FirstPeriodicDeposit, p1.periodicDeposit, p2.periodicDeposit);
    var rate := NumRow(InterestRate, p1.interestRate, p2.interestRate);
    var duration := DurationRow(|d1|, p1.paymentFrequency, |d2|, p2.paymentFrequency);
    var deposits := NumRow(TotalDeposits, last1.totalDeposits, last2.totalDeposits);
    var interest := NumRow(TotalInterest, last1.totalInterest, last2.totalInterest);
    var balance := NumRow(FinalBalance, last1.balance, last2.balance);
    var ratio := YieldRow(last1.totalInterest, last1.totalDeposits, last2.totalInterest, last2.totalDeposits);
    if p1.annuity == Geometric && p2.annuity == Geometric then
      [initial, periodic, rate, duration, NumRow(GrowthRate, p1.growthRate, p2.growthRate),
       deposits, interest, balance, ratio]
    else
      [initial, periodic, rate, duration, deposits, interest, balance, ratio]
  }

  /** Every row of the loan table compares one criterion of both loans. */
  lemma {:induction false} LoanRowsCompare(s1: Scenario, s2: Scenario)
    requires s1.data.LoanData? && s2.data.LoanData? && HasRecords(s1.data) && HasRecords(s2.data)
    ensures Tabulates(LoanComparison(s1, s2), s1, s2)
  {
    var rows := LoanComparison(s1, s2);
    forall r | r in rows
      ensures Compares(r, s1, s2)
    {
      var k :| 0 <= k < |rows| && rows[k] == r;
    }
  }

  /** The loan table lists its criteria in order, the last payment only when both
      schedules have more than one record. */
  lemma {:induction false} LoanRowsListed(s1: Scenario, s2: Scenario)
    requires s1.data.LoanData? && s2.data.LoanData? && HasRecords(s1.data) && HasRecords(s2.data)
    ensures Criteria(LoanComparison(s1, s2)) == LoanCriteria(|s1.data.loan| > 1 && |s2.data.loan| > 1)
  {
  }

  /** Every row of the savings table compares one criterion of both plans. */
  lemma {:induction false} SavingsRowsCompare(s1: Scenario, s2: Scenario)
    requires s1.data.SavingsData? && s2.data.SavingsData? && HasRecords(s1.data) && HasRecords(s2.data)
    ensures Tabulates(SavingsComparison(s1, s2), s1, s2)
  {
    var rows := SavingsComparison(s1, s2);
    forall r | r in rows
      ensures Compares(r, s1, s2)
    {
      var k :| 0 <= k < |rows| && rows[k] == r;
    }
  }

  /** The savings table lists its criteria in order, the growth rate only when both plans
      are geometric. */
  lemma {:induction false} SavingsRowsListed(s1: Scenario, s2: Scenario)
    requires s1.data.SavingsData? && s2.data.SavingsData? && HasRecords(s1.data) && HasRecords(s2.data)
    ensures Criteria(SavingsComparison(s1, s2)) == SavingsCriteria(s1.params.annuity == Geometric && s2.params.annuity == Geometric)
  {
  }

  /** `compareScenarios`. */
  function CompareScenarios(s1: Scenario, s2: Scenario): (rows: seq<Row>)
    requires Comparable(s1, s2)
    ensures Tabulates(rows, s1, s2)
    ensures s1.params.operation == Loan ==>
      Criteria(rows) == LoanCriteria(|s1.data.loan| > 1 && |s2.data.loan| > 1)
    ensures s1.params.operation != Loan ==>
      Criteria(rows) == SavingsCriteria(s1.params.annuity == Geometric && s2.params.annuity == Geometric)
    ensures |rows| == if s1.params.operation == Loan
                       then (if |s1.data.loan| > 1 && |s2.data.loan| > 1 then 7 else 6)
                       else (if s1.params.annuity == Geometric && s2.params.annuity == Geometric then 9 else 8)
  {
    if s1.params.operation == Loan then
      LoanRowsCompare(s1, s2);
      LoanRowsListed(s1, s2);
      LoanComparison(s1, s2)
    else
      SavingsRowsCompare(s1, s2);
      SavingsRowsListed(s1, s2);
      SavingsComparison(s1, s2)
  }
}
