/**
 * Schedules, change orders and periods of one contract in one run. Every period is opened, billed and submitted
 * against whatever schedule and orders stand at that moment.
 */
module JointRuns {
  import opened Billing
  import opened CarryForwardRuns
  import opened ItemNumbers
  import opened Outcomes
  import opened PeriodLaws
  import PeriodMoves
  import opened PeriodRuns
  import Periods
  import opened ScheduleRuns
  import Schedules

  type Book = Periods.Book

  /** A contract: its schedules and orders, and what the period engine reads of them. */
  datatype Joint = Joint(plan: Plan, book: Book)

  // A step on the schedules and orders, with how the period engine sees it, or a step of the period engine.
  datatype JointStep = OnPlan(step: Schedules.Step, seen: Periods.Step) | OnBook(seen: Periods.Step)

  // The revision approved last, which stays in force until the next one is approved.
  function InForce(plan: Plan): Option<nat> {
    var n := |plan.schedules|;
    if NewestApproved(plan) then Some(n - 1) else if n > 1 then Some(n - 2) else None
  }

  /** The book holds what the plan says: the revision in force, whether it is being revised, the orders, the sum. */
  ghost predicate Reflects(plan: Plan, book: Book) {
    && book.originalSum == plan.originalSum
    && Amounts(book.orders) == ApprovedAmounts(plan.orders)
    && ShowsSchedule(plan, book)
  }

  ghost predicate ShowsSchedule(plan: Plan, book: Book) {
    match InForce(plan)
    case None => book.schedule.None? && !book.revising
    case Some(s) =>
      && book.schedule.Some? && (book.revising <==> !NewestApproved(plan))
      && BuiltOn(book.schedule.value, Schedules.LinesOf(plan.lines, s))
  }

  // How the period engine sees a step of the plan; a step it does not see puts the same rule in place again.
  ghost predicate Mirrors(plan: Plan, step: Schedules.Step, book: Book, seen: Periods.Step) {
    if Schedules.Try(plan, step).Err? then seen == Periods.NewRule(book.rule)
    else
      var next := Schedules.After(plan, step);
      match step
      case Approve(s) => seen.NewSchedule? && BuiltOn(seen.lines, Schedules.LinesOf(next.lines, s))
      case Revise(_) => seen == Periods.Revise
      case ApproveCo(_, _) => seen.NewOrders? && Amounts(seen.orders) == ApprovedAmounts(next.orders)
      case VoidCo(_, _) => seen.NewOrders? && Amounts(seen.orders) == ApprovedAmounts(next.orders)
      case EditSum(sum) => seen == Periods.NewSum(sum)
      case _ => seen == Periods.NewRule(book.rule)
  }

  // Steps of the period engine that leave the schedule, the orders and the sum alone.
  predicate OnPeriods(step: Periods.Step) {
    !step.Revise? && !step.NewSchedule? && !step.NewOrders? && !step.NewSum?
  }

  ghost predicate JointMoves(now: Joint, step: JointStep, next: Joint) {
    && PeriodMoves.Moves(now.book, step.seen, next.book)
    && match step
       case OnPlan(planned, seen) =>
         next.plan == Schedules.After(now.plan, planned) && Mirrors(now.plan, planned, now.book, seen)
       case OnBook(seen) => next.plan == now.plan && OnPeriods(seen)
  }

  function Start(originalSum: int): Joint {
    Joint(ScheduleRuns.Start(originalSum), PeriodMoves.Start(originalSum))
  }

  ghost predicate IsJointRun(originalSum: int, states: seq<Joint>, steps: seq<JointStep>) {
    && |states| == |steps| + 1 && states[0] == Start(originalSum)
    && forall k :: 0 <= k < |steps| ==> JointMoves(states[k], steps[k], states[k + 1])
  }

  /** What a step has to promise: the plan is handled with care, and no sum is changed under an approved schedule. */
  ghost predicate WithCare(now: Joint, step: JointStep) {
    step.OnPlan? ==> Careful(now.plan, step.step) && SumSettled(now.plan, step.step)
  }

  ghost predicate RunWithCare(states: seq<Joint>, steps: seq<JointStep>) {
    |states| == |steps| + 1 && forall k :: 0 <= k < |steps| ==> WithCare(states[k], steps[k])
  }

  // ---------------------------------------------------------------------------------------------
  // The book keeps reflecting the plan
  // ---------------------------------------------------------------------------------------------

  // A step of the plan that changes neither the revision in force nor anything on it.
  lemma {:induction false} SameInForce(plan: Plan, step: Schedules.Step)
    requires Sound(plan) && Careful(plan, step) && !step.Approve? && !step.Revise?
    ensures InForce(Schedules.After(plan, step)) == InForce(plan)
    ensures NewestApproved(Schedules.After(plan, step)) == NewestApproved(plan)
    ensures InForce(plan).Some? ==> var s := InForce(plan).value;
      Schedules.LinesOf(Schedules.After(plan, step).lines, s) == Schedules.LinesOf(plan.lines, s)
  {
    SameSchedules(plan, step);
    if InForce(plan).Some? {
      FrozenRevisionsStay(plan, step, InForce(plan).value);
    }
  }

  lemma {:induction false} SameSchedules(plan: Plan, step: Schedules.Step)
    requires Sound(plan) && !step.Approve? && !step.Revise?
    ensures var schedules := Schedules.After(plan, step).schedules;
      schedules == plan.schedules || (plan.schedules == [] && schedules == [Schedules.Draft])
  {
    if step.ApproveCo? && step.order < |plan.orders| && step.schedule < |plan.schedules| {
      LandingLands(plan, step.order, step.schedule, plan.orders[step.order].lines);
    }
  }

  lemma {:induction false} AmountsUpdate(orders: seq<Schedules.ChangeOrder>, o: nat, order: Schedules.ChangeOrder)
    requires o < |orders| && !orders[o].status.OrderApproved? && !order.status.OrderApproved?
    ensures ApprovedAmounts(orders[o := order]) == ApprovedAmounts(orders)
  {
    var n := |orders| - 1;
    if o == n {
      assert orders[o := order][..n] == orders[..n];
    } else {
      AmountsUpdate(orders[..n], o, order);
      assert orders[o := order][..n] == orders[..n][o := order];
    }
  }

  lemma {:induction false} SameAmounts(plan: Plan, step: Schedules.Step)
    requires !step.ApproveCo? && !step.VoidCo?
    ensures ApprovedAmounts(Schedules.After(plan, step).orders) == ApprovedAmounts(plan.orders)
  {
    var next := Schedules.After(plan, step);
    if step.StartOrder? {
      assert next.orders[..|plan.orders|] == plan.orders;
    } else if step.AddToOrder? && Schedules.Try(plan, step).Ok? {
      AmountsUpdate(plan.orders, step.order, next.orders[step.order]);
    }
  }

  lemma {:induction false} UnseenStepReflected(plan: Plan, step: Schedules.Step, book: Book)
    requires Sound(plan) && Careful(plan, step) && Reflects(plan, book)
    requires !step.Approve? && !step.Revise? && !step.ApproveCo? && !step.VoidCo? && !step.EditSum?
    ensures Reflects(Schedules.After(plan, step), book)
  {
    SameInForce(plan, step);
    SameAmounts(plan, step);
    SumStays(plan, step);
  }

  lemma {:induction false} OrderStepReflected(plan: Plan, step: Schedules.Step, book: Book, orders: seq<Periods.Order>)
    requires Sound(plan) && Careful(plan, step) && Reflects(plan, book) && (step.ApproveCo? || step.VoidCo?)
    requires Amounts(orders) == ApprovedAmounts(Schedules.After(plan, step).orders)
    ensures Reflects(Schedules.After(plan, step), book.(orders := orders))
  {
    SameInForce(plan, step);
    SumStays(plan, step);
  }

  lemma {:induction false} SumStepReflected(plan: Plan, sum: int, book: Book)
    requires Sound(plan) && Reflects(plan, book) && Schedules.SaveSum(plan, sum).Ok?
    ensures Reflects(Schedules.After(plan, Schedules.EditSum(sum)), book.(originalSum := sum))
  {
    SameInForce(plan, Schedules.EditSum(sum));
  }

  lemma {:induction false} ApprovalReflected(plan: Plan, s: nat, book: Book, rows: seq<Periods.ScheduleLine>)
    requires Sound(plan) && Reflects(plan, book) && Schedules.ApproveSchedule(plan, s).Ok?
    requires BuiltOn(rows, Schedules.LinesOf(plan.lines, s))
    ensures Reflects(Schedules.After(plan, Schedules.Approve(s)), book.(schedule := Some(rows), revising := false))
  {
    assert s == |plan.schedules| - 1;
  }

  lemma {:induction false} RevisionReflected(plan: Plan, s: nat, book: Book)
    requires Sound(plan) && Reflects(plan, book) && Schedules.CreateRevision(plan, s).Ok?
    ensures book.schedule.Some? && !book.revising
    ensures Reflects(Schedules.After(plan, Schedules.Revise(s)), book.(revising := true))
  {
    assert s == |plan.schedules| - 1 && NewestApproved(plan);
    RevisionLeavesOthers(plan, s, s);
  }

  // A step of the plan that the period engine sees as a new rule put in place, or does not see at all.
  lemma {:induction false} QuietStepReflected(plan: Plan, step: Schedules.Step, book: Book, seen: Periods.Step)
    requires Sound(plan) && Careful(plan, step) && Reflects(plan, book) && Mirrors(plan, step, book, seen)
    requires !step.Approve? && !step.Revise? && !step.ApproveCo? && !step.VoidCo?
    ensures Reflects(Schedules.After(plan, step), Periods.Kept(book, Periods.Plain(book, seen)))
  {
    if Schedules.Try(plan, step).Ok? {
      if step.EditSum? {
        SumStepReflected(plan, step.sum, book);
      } else {
        UnseenStepReflected(plan, step, book);
      }
    }
  }

  lemma {:induction false} ScheduleStepReflected(plan: Plan, step: Schedules.Step, book: Book, seen: Periods.Step)
    requires Sound(plan) && Reflects(plan, book) && Mirrors(plan, step, book, seen)
    requires step.Approve? || step.Revise?
    ensures Reflects(Schedules.After(plan, step), Periods.Kept(book, Periods.Plain(book, seen)))
  {
    if Schedules.Try(plan, step).Ok? {
      if step.Approve? {
        ApprovalReflected(plan, step.schedule, book, seen.lines);
      } else {
        RevisionReflected(plan, step.schedule, book);
      }
    }
  }

  lemma {:induction false} OrderStepSeen(plan: Plan, step: Schedules.Step, book: Book, seen: Periods.Step)
    requires Sound(plan) && Careful(plan, step) && Reflects(plan, book) && Mirrors(plan, step, book, seen)
    requires step.ApproveCo? || step.VoidCo?
    ensures Reflects(Schedules.After(plan, step), Periods.Kept(book, Periods.Plain(book, seen)))
  {
    if Schedules.Try(plan, step).Ok? {
      OrderStepReflected(plan, step, book, seen.orders);
    }
  }

  lemma {:induction false} SeenIsPlain(plan: Plan, step: Schedules.Step, book: Book, seen: Periods.Step, next: Book)
    requires Mirrors(plan, step, book, seen) && PeriodMoves.Moves(book, seen, next)
    ensures next == Periods.Kept(book, Periods.Plain(book, seen))
  {
  }

  lemma {:induction false} PlanStepReflected(now: Joint, step: Schedules.Step, seen: Periods.Step, next: Joint)
    requires Sound(now.plan) && Careful(now.plan, step) && Reflects(now.plan, now.book)
    requires JointMoves(now, OnPlan(step, seen), next)
    ensures Reflects(next.plan, next.book)
  {
    SeenIsPlain(now.plan, step, now.book, seen, next.book);
    if step.Approve? || step.Revise? {
      ScheduleStepReflected(now.plan, step, now.book, seen);
    } else if step.ApproveCo? || step.VoidCo? {
      OrderStepSeen(now.plan, step, now.book, seen);
    } else {
      QuietStepReflected(now.plan, step, now.book, seen);
    }
  }

  lemma {:induction false} PeriodStepReflected(plan: Plan, book: Book, step: Periods.Step, next: Book)
    requires Reflects(plan, book) && OnPeriods(step) && PeriodMoves.Moves(book, step, next)
    ensures Reflects(plan, next)
  {
  }

  lemma {:induction false} JointStepStays(now: Joint, step: JointStep, next: Joint)
    requires WellKept(now.plan) && Reflects(now.plan, now.book) && JointMoves(now, step, next) && WithCare(now, step)
    ensures WellKept(next.plan) && Reflects(next.plan, next.book)
  {
    if step.OnPlan? {
      StepKeepsWell(now.plan, step.step);
      PlanStepReflected(now, step.step, step.seen, next);
    } else {
      PeriodStepReflected(now.plan, now.book, step.seen, next.book);
    }
  }

  lemma {:induction false} StartsTogether(originalSum: int)
    ensures WellKept(Start(originalSum).plan) && Reflects(Start(originalSum).plan, Start(originalSum).book)
  {
  }

  /** At every point of a joint run the plan is well kept and the book holds what it says. */
  lemma {:induction false} JointRunsStayTogether(
    originalSum: int, states: seq<Joint>, steps: seq<JointStep>, n: nat)
    requires IsJointRun(originalSum, states, steps) && RunWithCare(states, steps) && n <= |steps|
    ensures WellKept(states[n].plan) && Reflects(states[n].plan, states[n].book)
  {
    if n == 0 {
      StartsTogether(originalSum);
    } else {
      JointRunsStayTogether(originalSum, states, steps, n - 1);
      assert JointMoves(states[n - 1], steps[n - 1], states[n]) && WithCare(states[n - 1], steps[n - 1]);
      JointStepStays(states[n - 1], steps[n - 1], states[n]);
    }
  }

  // ---------------------------------------------------------------------------------------------
  // The gate, at any moment
  // ---------------------------------------------------------------------------------------------

  /**
   * Whenever in such a run a period may be opened, with no approved order dated after it, then once it is opened with
   * nobody else at work it passes the gate of a submission whatever is entered.
   */
  lemma {:induction false} EveryOpeningCanBeBilled(
    originalSum: int, states: seq<Joint>, steps: seq<JointStep>, n: nat,
    opener: Periods.Opener, begun: Book, entries: seq<Periods.PeriodEntry>, entered: Book)
    requires IsJointRun(originalSum, states, steps) && RunWithCare(states, steps) && n <= |steps|
    requires Periods.ReadOpening(states[n].book, opener.periodStart, opener.periodEnd) == Ok(opener)
    requires NoneLate(Periods.Opened(opener), states[n].book.orders) && JustOpened(states[n].book, begun, opener)
    requires var k := |states[n].book.applications|;
      PeriodMoves.CanEnter(begun, k, entries) && PeriodMoves.Entered(begun, k, entries, entered)
    ensures PeriodMoves.PassesGate(entered, |states[n].book.applications|, true)
  {
    var plan, book := states[n].plan, states[n].book;
    JointRunsStayTogether(originalSum, states, steps, n);
    assert Joined(plan, book);
    CarefulSchedulesCanBeBilled(plan, book, opener, begun, entries, entered);
  }

  // ---------------------------------------------------------------------------------------------
  // Item numbers, and the carry-forward
  // ---------------------------------------------------------------------------------------------

  /** A schedule is approved with its numbers distinct, and with all those of the revision it replaces. */
  ghost predicate ItemsStay(plan: Plan, step: Schedules.Step) {
    step.Approve? && Schedules.ApproveSchedule(plan, step.schedule).Ok? ==>
      && Unrepeated(NumbersOn(plan.lines, step.schedule))
      && (InForce(plan).Some? ==>
            forall item :: item in NumbersOn(plan.lines, InForce(plan).value) ==>
              item in NumbersOn(plan.lines, step.schedule))
  }

  ghost predicate RunKeepsItems(states: seq<Joint>, steps: seq<JointStep>) {
    && |states| == |steps| + 1
    && forall k :: 0 <= k < |steps| && steps[k].OnPlan? ==> ItemsStay(states[k].plan, steps[k].step)
  }

  lemma {:induction false} NamesAreItems(rows: seq<Periods.ScheduleLine>, lines: seq<SovLine>)
    requires BuiltOn(rows, lines)
    ensures Names(rows) == ItemsOf(lines)
  {
  }

  lemma {:induction false} UnrepeatedIsDistinct(names: seq<string>)
    requires Unrepeated(multiset(names))
    ensures Distinct(names)
  {
    forall j, k | 0 <= j < k < |names|
      ensures names[j] != names[k]
    {
      var before, from := names[..k], names[k..];
      assert names == before + from && names[j] == before[j] && names[k] == from[0];
      assert multiset(names)[names[k]] == multiset(before)[names[k]] + multiset(from)[names[k]];
      assert names[k] in multiset(names) && from[0] in multiset(from) && before[j] in multiset(before);
    }
  }

  lemma {:induction false} ApprovalPersists(plan: Plan, s: nat, book: Book, rows: seq<Periods.ScheduleLine>)
    requires Reflects(plan, book) && ItemsStay(plan, Schedules.Approve(s)) && Schedules.ApproveSchedule(plan, s).Ok?
    requires BuiltOn(rows, Schedules.LinesOf(plan.lines, s))
    ensures Respects(ItemsPersist, book, Periods.NewSchedule(rows))
  {
    var lines := Schedules.LinesOf(plan.lines, s);
    NamesAreItems(rows, lines);
    UnrepeatedIsDistinct(Names(rows));
    if InForce(plan).Some? {
      var kept := Schedules.LinesOf(plan.lines, InForce(plan).value);
      NamesAreItems(book.schedule.value, kept);
      forall k | 0 <= k < |ItemsOf(kept)|
        ensures ItemsOf(kept)[k] in ItemsOf(lines)
      {
        assert ItemsOf(kept)[k] in Numbers(kept);
        assert ItemsOf(kept)[k] in Numbers(lines);
      }
    }
  }

  lemma {:induction false} StepPersists(now: Joint, step: JointStep, next: Joint)
    requires Reflects(now.plan, now.book) && JointMoves(now, step, next)
    requires step.OnPlan? ==> ItemsStay(now.plan, step.step)
    ensures Respects(ItemsPersist, now.book, step.seen)
  {
    if step.OnPlan? && step.seen.NewSchedule? {
      ApprovalPersists(now.plan, step.step.schedule, now.book, step.seen.lines);
    }
  }

  function Books(states: seq<Joint>): (r: seq<Book>)
    ensures |r| == |states|
  {
    seq(|states|, k requires 0 <= k < |states| => states[k].book)
  }

  function Seen(steps: seq<JointStep>): (r: seq<Periods.Step>)
    ensures |r| == |steps|
  {
    seq(|steps|, k requires 0 <= k < |steps| => steps[k].seen)
  }

  lemma {:induction false} JointRunIsRun(originalSum: int, states: seq<Joint>, steps: seq<JointStep>)
    requires IsJointRun(originalSum, states, steps)
    ensures PeriodMoves.IsRun(originalSum, Books(states), Seen(steps))
  {
    forall k | 0 <= k < |steps|
      ensures PeriodMoves.Moves(Books(states)[k], Seen(steps)[k], Books(states)[k + 1])
    {
      assert JointMoves(states[k], steps[k], states[k + 1]);
    }
  }

  /** So the item numbers of the periods persist, if those of the schedules do at each approval. */
  lemma {:induction false} ItemsPersistInJointRuns(originalSum: int, states: seq<Joint>, steps: seq<JointStep>)
    requires IsJointRun(originalSum, states, steps) && RunWithCare(states, steps) && RunKeepsItems(states, steps)
    ensures RunRespects({ItemsPersist}, Books(states), Seen(steps))
  {
    forall k | 0 <= k < |steps|
      ensures RespectsAll({ItemsPersist}, Books(states)[k], Seen(steps)[k])
    {
      JointRunsStayTogether(originalSum, states, steps, k);
      assert JointMoves(states[k], steps[k], states[k + 1]);
      StepPersists(states[k], steps[k], states[k + 1]);
    }
  }

  lemma {:induction false} RespectsTogether(
    more: set<Hypothesis>, others: set<Hypothesis>, books: seq<Book>, steps: seq<Periods.Step>)
    requires RunRespects(more, books, steps) && RunRespects(others, books, steps)
    ensures RunRespects(more + others, books, steps)
  {
    forall k | 0 <= k < |steps|
      ensures RespectsAll(more + others, books[k], steps[k])
    {
      assert RespectsAll(more, books[k], steps[k]) && RespectsAll(others, books[k], steps[k]);
    }
  }

  /** And column D of every issued line is what was billed for its item on all earlier issued applications. */
  lemma {:induction false} ColumnDOverJointRuns(
    originalSum: int, states: seq<Joint>, steps: seq<JointStep>, n: nat)
    requires IsJointRun(originalSum, states, steps) && RunWithCare(states, steps) && RunKeepsItems(states, steps)
    requires RunRespects({PaymentsOnIssued, VoidsOnLatest}, Books(states), Seen(steps)) && n <= |steps|
    ensures ColumnDIsHistory(states[n].book.applications)
  {
    JointRunIsRun(originalSum, states, steps);
    ItemsPersistInJointRuns(originalSum, states, steps);
    RespectsTogether({PaymentsOnIssued, VoidsOnLatest}, {ItemsPersist}, Books(states), Seen(steps));
    assert {PaymentsOnIssued, VoidsOnLatest} + {ItemsPersist} == CARRY_HYPOTHESES;
    ColumnDOverRuns(originalSum, Books(states), Seen(steps), n);
  }
}
