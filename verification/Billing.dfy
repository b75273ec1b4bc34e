/** From the schedule to the bill: a schedule approved in a careful run is one that periods can be billed on. */
module Billing {
  import opened Applications
  import opened Outcomes
  import opened PeriodLaws
  import opened PeriodMoves
  import Periods
  import opened ScheduleRuns
  import Schedules

  type Plan = Schedules.Plan
  type SovLine = Schedules.SovLine

  // ---------------------------------------------------------------------------------------------
  // What an approved schedule totals
  // ---------------------------------------------------------------------------------------------

  predicate NewestApproved(plan: Plan) {
    |plan.schedules| > 0 && plan.schedules[|plan.schedules| - 1].Approved?
  }

  // The base values of an approved schedule total the original contract sum.
  ghost predicate Balanced(plan: Plan) {
    NewestApproved(plan) ==>
      Schedules.Total(plan.lines, |plan.schedules| - 1, Schedules.Base) == plan.originalSum
  }

  lemma {:induction false} ApprovalBalances(plan: Plan, s: nat)
    requires Sound(plan) && Tied(plan) && Schedules.ApproveSchedule(plan, s).Ok?
    ensures Balanced(Schedules.ApproveSchedule(plan, s).value)
  {
    CurrentIsBasePlusAdjustment(plan.lines, s);
    assert s == |plan.schedules| - 1;
  }

  // With the newest schedule approved nothing is a draft, so no line can change.
  lemma {:induction false} ApprovedIsClosed(plan: Plan, step: Schedules.Step)
    requires Sound(plan) && NewestApproved(plan) && NewestApproved(Schedules.After(plan, step))
    ensures Schedules.After(plan, step).lines == plan.lines
    ensures |Schedules.After(plan, step).schedules| == |plan.schedules|
  {
    assert forall s: nat :: !Schedules.IsEditable(plan, s);
  }

  lemma {:induction false} OnlyApprovalApproves(plan: Plan, step: Schedules.Step)
    requires Sound(plan) && !NewestApproved(plan) && NewestApproved(Schedules.After(plan, step))
    ensures step.Approve? && Schedules.ApproveSchedule(plan, step.schedule).Ok?
    ensures Schedules.After(plan, step) == Schedules.ApproveSchedule(plan, step.schedule).value
  {
    var next := Schedules.After(plan, step);
    if step.ApproveCo? && next != plan {
      LandingLands(plan, step.order, step.schedule, plan.orders[step.order].lines);
    }
  }

  lemma {:induction false} SumStays(plan: Plan, step: Schedules.Step)
    requires Sound(plan) && !step.EditSum?
    ensures Schedules.After(plan, step).originalSum == plan.originalSum
  {
    if step.ApproveCo? && step.order < |plan.orders| && step.schedule < |plan.schedules| {
      LandingLands(plan, step.order, step.schedule, plan.orders[step.order].lines);
    }
  }

  /** Saving the contract keeps an approved schedule in balance exactly when it leaves the sum as it is. */
  lemma {:induction false} SumEditKeepsBalanceExactlyWhen(plan: Plan, sum: int, next: Plan)
    requires Balanced(plan) && Schedules.SaveSum(plan, sum) == Ok(next)
    ensures Balanced(next) <==> !NewestApproved(plan) || sum == plan.originalSum
  {
  }

  // The sum is not changed while the newest schedule is approved.
  ghost predicate SumSettled(plan: Plan, step: Schedules.Step) {
    step.EditSum? && Schedules.SaveSum(plan, step.sum).Ok? && NewestApproved(plan) ==> step.sum == plan.originalSum
  }

  ghost predicate SettledRun(plan: Plan, steps: seq<Schedules.Step>) {
    |steps| > 0 ==>
      SettledRun(plan, steps[..|steps| - 1]) && SumSettled(Run(plan, steps[..|steps| - 1]), steps[|steps| - 1])
  }

  // The last sum that was saved.
  function SumInForce(originalSum: int, steps: seq<Schedules.Step>): int {
    if |steps| == 0 then originalSum
    else
      var last := steps[|steps| - 1];
      if last.EditSum? && last.sum > 0 then last.sum else SumInForce(originalSum, steps[..|steps| - 1])
  }

  lemma {:induction false} StepKeepsBalance(plan: Plan, step: Schedules.Step)
    requires Sound(plan) && Tied(plan) && Balanced(plan) && SumSettled(plan, step)
    ensures Balanced(Schedules.After(plan, step))
  {
    if NewestApproved(Schedules.After(plan, step)) && !step.EditSum? {
      SumStays(plan, step);
      if NewestApproved(plan) {
        ApprovedIsClosed(plan, step);
      } else {
        OnlyApprovalApproves(plan, step);
        ApprovalBalances(plan, step.schedule);
      }
    }
  }

  /**
   * In every careful run in which no sum is changed under an approved schedule, the base values of an approved
   * schedule total the original contract sum, which is the last one saved.
   */
  lemma {:induction false} ApprovedSchedulesBalance(originalSum: int, steps: seq<Schedules.Step>)
    requires CarefulRun(ScheduleRuns.Start(originalSum), steps)
    requires SettledRun(ScheduleRuns.Start(originalSum), steps)
    ensures Balanced(Run(ScheduleRuns.Start(originalSum), steps))
    ensures Run(ScheduleRuns.Start(originalSum), steps).originalSum == SumInForce(originalSum, steps)
  {
    if |steps| > 0 {
      var init, last := steps[..|steps| - 1], steps[|steps| - 1];
      var plan := Run(ScheduleRuns.Start(originalSum), init);
      ApprovedSchedulesBalance(originalSum, init);
      RunsStayTied(originalSum, init);
      StepKeepsBalance(plan, last);
      if !last.EditSum? {
        SumStays(plan, last);
      }
    }
  }

  /** What every careful run keeps of a schedule and its orders. */
  ghost predicate WellKept(plan: Plan) {
    Sound(plan) && Tied(plan) && Balanced(plan)
  }

  lemma {:induction false} CarefulRunsAreWellKept(originalSum: int, steps: seq<Schedules.Step>)
    requires CarefulRun(ScheduleRuns.Start(originalSum), steps)
    requires SettledRun(ScheduleRuns.Start(originalSum), steps)
    ensures WellKept(Run(ScheduleRuns.Start(originalSum), steps))
  {
    RunsStayTied(originalSum, steps);
    ApprovedSchedulesBalance(originalSum, steps);
  }

  lemma {:induction false} StepKeepsWell(plan: Plan, step: Schedules.Step)
    requires WellKept(plan) && Careful(plan, step) && SumSettled(plan, step)
    ensures WellKept(Schedules.After(plan, step))
  {
    StepKeepsTie(plan, step);
    StepKeepsBalance(plan, step);
  }

  // ---------------------------------------------------------------------------------------------
  // The contract as the period engine sees it
  // ---------------------------------------------------------------------------------------------

  // The same items and values, whatever rates the lines carry.
  ghost predicate BuiltOn(rows: seq<Periods.ScheduleLine>, lines: seq<SovLine>) {
    && |rows| == |lines|
    && forall k :: 0 <= k < |rows| ==> rows[k].item == lines[k].item && rows[k].value == lines[k].current
  }

  function ApprovedAmounts(orders: seq<Schedules.ChangeOrder>): seq<int> {
    if |orders| == 0 then []
    else
      var rest, last := ApprovedAmounts(orders[..|orders| - 1]), orders[|orders| - 1];
      if last.status.OrderApproved? then rest + [last.amount] else rest
  }

  function Amounts(orders: seq<Periods.Order>): (r: seq<int>)
    ensures |r| == |orders|
  {
    seq(|orders|, k requires 0 <= k < |orders| => orders[k].amount)
  }

  /** One contract seen from both sides: its approved schedule, and its approved orders one by one. */
  ghost predicate Joined(plan: Plan, book: Periods.Book) {
    && NewestApproved(plan) && book.originalSum == plan.originalSum
    && book.schedule.Some? && !book.revising
    && BuiltOn(book.schedule.value, Schedules.LinesOf(plan.lines, |plan.schedules| - 1))
    && Amounts(book.orders) == ApprovedAmounts(plan.orders)
  }

  lemma {:induction false} RowsTotal(rows: seq<Periods.ScheduleLine>, lines: seq<SovLine>, s: nat)
    requires BuiltOn(rows, lines) && forall k :: 0 <= k < |lines| ==> lines[k].schedule == s
    ensures ScheduleValue(rows) == Schedules.Total(lines, s, Schedules.Current)
  {
    if |rows| > 0 {
      RowsTotal(rows[..|rows| - 1], lines[..|lines| - 1], s);
    }
  }

  lemma {:induction false} OrdersTotal(orders: seq<Periods.Order>, approved: seq<Schedules.ChangeOrder>)
    requires Amounts(orders) == ApprovedAmounts(approved)
    ensures Periods.NetOrders(orders) == Schedules.ApprovedTotal(approved)
  {
    if |approved| > 0 {
      var n, last := |approved| - 1, approved[|approved| - 1];
      var rest := ApprovedAmounts(approved[..n]);
      if last.status.OrderApproved? {
        var m := |orders| - 1;
        assert |orders| == |rest| + 1 && Amounts(orders)[m] == last.amount;
        assert Amounts(orders[..m]) == Amounts(orders)[..m] == rest;
        OrdersTotal(orders[..m], approved[..n]);
      } else {
        OrdersTotal(orders, approved[..n]);
      }
    } else {
      assert |orders| == |Amounts(orders)| == 0;
    }
  }

  ghost predicate NoneLate(app: Application, orders: seq<Periods.Order>) {
    forall k :: 0 <= k < |orders| ==> !Periods.Classify(app, orders[k]).Later?
  }

  lemma {:induction false} NoneLateNets(app: Application, orders: seq<Periods.Order>)
    requires NoneLate(app, orders)
    ensures LaterNet(app, orders) == 0
  {
    if |orders| > 0 {
      NoneLateNets(app, orders[..|orders| - 1]);
    }
  }

  lemma {:induction false} JoinedTotals(plan: Plan, book: Periods.Book)
    requires WellKept(plan) && Joined(plan, book)
    ensures ScheduleValue(book.schedule.value) == book.originalSum + Periods.NetOrders(book.orders)
  {
    var s := |plan.schedules| - 1;
    LinesOfSchedule(plan.lines, s);
    RowsTotal(book.schedule.value, Schedules.LinesOf(plan.lines, s), s);
    TotalOfLines(plan.lines, s, Schedules.Current);
    CurrentIsBasePlusAdjustment(plan.lines, s);
    OrdersTotal(book.orders, plan.orders);
  }

  /**
   * On a schedule approved in a careful run, which leaves the plan well kept, a period that was opened with nobody else
   * at work, and with none of the run's orders approved after it, passes the gate of a submission whatever is entered.
   */
  lemma {:induction false} CarefulSchedulesCanBeBilled(
    plan: Plan, book: Periods.Book, opener: Periods.Opener, begun: Periods.Book,
    entries: seq<Periods.PeriodEntry>, entered: Periods.Book)
    requires WellKept(plan) && Joined(plan, book)
    requires Periods.ReadOpening(book, opener.periodStart, opener.periodEnd) == Ok(opener)
    requires NoneLate(Periods.Opened(opener), book.orders) && JustOpened(book, begun, opener)
    requires CanEnter(begun, |book.applications|, entries) && Entered(begun, |book.applications|, entries, entered)
    ensures PassesGate(entered, |book.applications|, true)
  {
    JoinedTotals(plan, book);
    NoneLateNets(Periods.Opened(opener), book.orders);
    EnteredIsCleanExactlyWhen(book, opener, begun, entries, entered);
  }
}
