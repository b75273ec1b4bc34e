/** Whole runs of the delivery queue: bounded, spaced, and over for good once delivered or abandoned. */
module WebhookRuns {
  import opened Outcomes
  import opened Webhooks

  // New deliveries arrive; drains attempt any distinct deliveries that are due.
  datatype Step =
    | Enqueue(subscription: nat, now: int)
    | DrainDue(now: int, due: seq<nat>, replies: seq<Reply>)

  // A drain reads the clock before it sends, and again after each answer.
  ghost predicate Possible(queue: Queue, step: Step) {
    match step
    case Enqueue(s, _) => s < |queue.subscriptions|
    case DrainDue(now, due, replies) =>
      && |replies| == |due| && NoRepeats(due) && Indices(due, |queue.deliveries|)
      && (forall k :: 0 <= k < |due| ==> IsDue(queue.deliveries[due[k]], now))
      && (forall k :: 0 <= k < |replies| ==> now <= replies[k].sent <= replies[k].done)
  }

  function After(queue: Queue, step: Step, settings: Settings): (next: Queue)
    requires Consistent(queue)
    ensures Consistent(next)
  {
    match step
    case Enqueue(s, now) =>
      if s < |queue.subscriptions|
      then queue.(deliveries := queue.deliveries + [Delivery(s, Pending, 0, Some(now), [])])
      else queue
    case DrainDue(_, due, replies) =>
      if Indices(due, |queue.deliveries|) && |replies| == |due| then AttemptAll(queue, due, replies, settings).0
      else queue
  }

  function Run(subscriptions: seq<Subscription>, steps: seq<Step>, settings: Settings): (queue: Queue)
    ensures Consistent(queue)
  {
    if |steps| == 0 then Queue([], subscriptions)
    else After(Run(subscriptions, steps[..|steps| - 1], settings), steps[|steps| - 1], settings)
  }

  ghost predicate PossibleRun(subscriptions: seq<Subscription>, steps: seq<Step>, settings: Settings) {
    |steps| > 0 ==>
      && PossibleRun(subscriptions, steps[..|steps| - 1], settings)
      && Possible(Run(subscriptions, steps[..|steps| - 1], settings), steps[|steps| - 1])
  }

  /** A new delivery joins the others, and a drain takes it up from the moment it arrived on. */
  lemma {:induction false} NewDeliveriesAreDueAtOnce(queue: Queue, s: nat, now: int, later: int, settings: Settings)
    requires Consistent(queue) && s < |queue.subscriptions|
    ensures var next, n := After(queue, Enqueue(s, now), settings), |queue.deliveries|;
      && next.subscriptions == queue.subscriptions && |next.deliveries| == n + 1
      && next.deliveries[..n] == queue.deliveries
      && next.deliveries[n].subscription == s && next.deliveries[n].attempts == 0 && next.deliveries[n].sentAt == []
      && (IsDue(next.deliveries[n], later) <==> now <= later)
  {
  }

  // ---------------------------------------------------------------------------------------------
  // One drain
  // ---------------------------------------------------------------------------------------------

  /** A drain attempts each listed delivery exactly once and leaves every other one alone. */
  lemma {:induction false} EachAttemptedOnce(queue: Queue, due: seq<nat>, replies: seq<Reply>, settings: Settings)
    requires Consistent(queue) && Indices(due, |queue.deliveries|) && |replies| == |due| && NoRepeats(due)
    ensures AllAttempted(queue.deliveries, AttemptAll(queue, due, replies, settings).0.deliveries,
                         due, replies, settings.maxAttempts)
  {
    if |due| > 0 {
      var n := |due| - 1;
      EachAttemptedOnce(queue, due[..n], replies[..n], settings);
      OneMoreAttempted(queue.deliveries, AttemptAll(queue, due[..n], replies[..n], settings).0.deliveries,
                       due, replies, settings.maxAttempts);
    }
  }

  // The listed deliveries have had their attempt, and only they.
  ghost predicate AllAttempted(
    before: seq<Delivery>, after: seq<Delivery>, due: seq<nat>, replies: seq<Reply>, maxAttempts: int)
    requires Indices(due, |before|) && |replies| == |due|
  {
    && |after| == |before|
    && (forall k :: 0 <= k < |due| ==> after[due[k]] == Attempted(before[due[k]], replies[k], maxAttempts))
    && (forall d: nat :: d < |after| && d !in due ==> after[d] == before[d])
  }

  lemma {:induction false} OneMoreAttempted(
    before: seq<Delivery>, middle: seq<Delivery>, due: seq<nat>, replies: seq<Reply>, maxAttempts: int)
    requires Indices(due, |before|) && |replies| == |due| > 0 && NoRepeats(due)
    requires var n := |due| - 1; AllAttempted(before, middle, due[..n], replies[..n], maxAttempts)
    ensures var n := |due| - 1;
      var after := middle[due[n] := Attempted(middle[due[n]], replies[n], maxAttempts)];
      AllAttempted(before, after, due, replies, maxAttempts)
  {
    var n := |due| - 1;
    assert due[n] !in due[..n] && middle[due[n]] == before[due[n]];
    assert forall k :: 0 <= k < n ==> due[..n][k] == due[k];
  }

  /** So a delivery a drain attempts ends as its answer says. */
  lemma {:induction false} EachEndsAsAnswered(
    queue: Queue, due: seq<nat>, replies: seq<Reply>, settings: Settings, k: nat)
    requires Consistent(queue) && Indices(due, |queue.deliveries|) && |replies| == |due| && NoRepeats(due)
    requires k < |due|
    ensures RowAfter(queue.deliveries[due[k]], replies[k], settings.maxAttempts,
                     AttemptAll(queue, due, replies, settings).0.deliveries[due[k]])
  {
    EachAttemptedOnce(queue, due, replies, settings);
    var delivery := queue.deliveries[due[k]];
    AttemptMeans(delivery, queue.subscriptions[delivery.subscription], replies[k], settings);
  }

  // How many of the listed deliveries stand at a status.
  function Standing(deliveries: seq<Delivery>, due: seq<nat>, status: DeliveryStatus): nat
    requires Indices(due, |deliveries|)
  {
    if |due| == 0 then 0
    else Standing(deliveries, due[..|due| - 1], status) + if deliveries[due[|due| - 1]].status == status then 1 else 0
  }

  lemma {:induction false} StandingIgnoresOthers(
    deliveries: seq<Delivery>, due: seq<nat>, status: DeliveryStatus, d: nat, next: Delivery)
    requires Indices(due, |deliveries|) && d < |deliveries| && d !in due
    ensures Standing(deliveries[d := next], due, status) == Standing(deliveries, due, status)
  {
    if |due| > 0 {
      assert due[|due| - 1] != d;
      StandingIgnoresOthers(deliveries, due[..|due| - 1], status, d, next);
    }
  }

  /** The tally counts every attempt once, by the status its delivery is left at. */
  lemma {:induction false} TallyCountsAttempts(queue: Queue, due: seq<nat>, replies: seq<Reply>, settings: Settings)
    requires Consistent(queue) && Indices(due, |queue.deliveries|) && |replies| == |due| && NoRepeats(due)
    ensures var (next, tally) := AttemptAll(queue, due, replies, settings);
      && tally.delivered == Standing(next.deliveries, due, Delivered)
      && tally.failed == Standing(next.deliveries, due, Failed)
      && tally.abandoned == Standing(next.deliveries, due, Abandoned)
      && tally.delivered + tally.failed + tally.abandoned == |due|
  {
    if |due| > 0 {
      var n := |due| - 1;
      TallyCountsAttempts(queue, due[..n], replies[..n], settings);
      var before := AttemptAll(queue, due[..n], replies[..n], settings).0.deliveries;
      var attempted := Attempted(before[due[n]], replies[n], settings.maxAttempts);
      OneMoreStands(before, due, Delivered, attempted);
      OneMoreStands(before, due, Failed, attempted);
      OneMoreStands(before, due, Abandoned, attempted);
    }
  }

  lemma {:induction false} OneMoreStands(
    deliveries: seq<Delivery>, due: seq<nat>, status: DeliveryStatus, attempted: Delivery)
    requires Indices(due, |deliveries|) && |due| > 0 && NoRepeats(due)
    ensures var n := |due| - 1;
      Standing(deliveries[due[n] := attempted], due, status)
      == Standing(deliveries, due[..n], status) + if attempted.status == status then 1 else 0
  {
    var n := |due| - 1;
    assert due[n] !in due[..n];
    StandingIgnoresOthers(deliveries, due[..n], status, due[n], attempted);
  }

  // ---------------------------------------------------------------------------------------------
  // Every delivery at every moment
  // ---------------------------------------------------------------------------------------------

  // Consecutive posts are at least the back-off of their position apart.
  ghost predicate Spaced(sentAt: seq<int>) {
    forall j :: 1 <= j < |sentAt| ==> sentAt[j] >= sentAt[j - 1] + Backoff(j)
  }

  ghost predicate OnSchedule(delivery: Delivery, maxAttempts: int) {
    && delivery.attempts == |delivery.sentAt| && Spaced(delivery.sentAt)
    && match delivery.status
       case Pending => delivery.attempts == 0
       case Failed =>
         && 1 <= delivery.attempts < maxAttempts
         && delivery.nextAttempt.Some?
         && delivery.nextAttempt.value >= delivery.sentAt[delivery.attempts - 1] + Backoff(delivery.attempts)
       case Delivered => 1 <= delivery.attempts && delivery.attempts <= maxAttempts && delivery.nextAttempt.None?
       case Abandoned => delivery.attempts == maxAttempts && delivery.nextAttempt.None?
  }

  ghost predicate AllOnSchedule(queue: Queue, maxAttempts: int) {
    forall d :: 0 <= d < |queue.deliveries| ==> OnSchedule(queue.deliveries[d], maxAttempts)
  }

  lemma AttemptStaysOnSchedule(delivery: Delivery, now: int, reply: Reply, maxAttempts: int)
    requires maxAttempts > 0 && OnSchedule(delivery, maxAttempts) && IsDue(delivery, now)
    requires now <= reply.sent <= reply.done
    ensures OnSchedule(Attempted(delivery, reply, maxAttempts), maxAttempts)
  {
    var sentAt := delivery.sentAt + [reply.sent];
    forall j | 1 <= j < |sentAt|
      ensures sentAt[j] >= sentAt[j - 1] + Backoff(j)
    {
      if j < |delivery.sentAt| {
        assert delivery.sentAt[j] >= delivery.sentAt[j - 1] + Backoff(j);
      }
    }
  }

  lemma StepStaysOnSchedule(queue: Queue, step: Step, settings: Settings)
    requires Consistent(queue) && settings.maxAttempts > 0
    requires AllOnSchedule(queue, settings.maxAttempts) && Possible(queue, step)
    ensures AllOnSchedule(After(queue, step, settings), settings.maxAttempts)
  {
    if step.DrainDue? {
      var next := After(queue, step, settings).deliveries;
      EachAttemptedOnce(queue, step.due, step.replies, settings);
      forall d: nat | d < |next|
        ensures OnSchedule(next[d], settings.maxAttempts)
      {
        if d in step.due {
          var k :| 0 <= k < |step.due| && step.due[k] == d;
          AttemptStaysOnSchedule(queue.deliveries[d], step.now, step.replies[k], settings.maxAttempts);
        }
      }
    }
  }

  /** In every run attempts never exceed the maximum, and posts are spaced by the back-off. */
  lemma {:induction false} RunsStayOnSchedule(subscriptions: seq<Subscription>, steps: seq<Step>, settings: Settings)
    requires settings.maxAttempts > 0 && PossibleRun(subscriptions, steps, settings)
    ensures AllOnSchedule(Run(subscriptions, steps, settings), settings.maxAttempts)
  {
    if |steps| > 0 {
      var init := steps[..|steps| - 1];
      RunsStayOnSchedule(subscriptions, init, settings);
      StepStaysOnSchedule(Run(subscriptions, init, settings), steps[|steps| - 1], settings);
    }
  }

  /** The least time between the first post and the j-th, in minutes: 2^(j-1) - 1, then an hour more for each. */
  function LeastMinutes(j: nat): int
    requires j >= 1
  {
    if j <= 7 then Pow2(j - 1) - 1 else 63 + 60 * (j - 7)
  }

  lemma BackoffSum(j: nat)
    requires j >= 1
    ensures MINUTE * LeastMinutes(j) + Backoff(j) == MINUTE * LeastMinutes(j + 1)
  {
    if j <= 6 {
      assert Pow2(j) == 2 * Pow2(j - 1);
      PowersGrow(j - 1, 5);
      assert Pow2(5) == 32 by { assert Pow2(2) == 4; }
    } else {
      PowersGrow(6, j - 1);
      assert Pow2(6) == 64 by { assert Pow2(3) == 8; }
    }
  }

  lemma {:induction false} PowersGrow(m: nat, n: nat)
    requires m <= n
    ensures Pow2(m) <= Pow2(n)
    decreases n - m
  {
    if m < n {
      PowersGrow(m + 1, n);
    }
  }

  /** The j-th attempt comes at least that long after the first. */
  lemma {:induction false} LaterAttempts(sentAt: seq<int>, j: nat)
    requires Spaced(sentAt) && 1 <= j <= |sentAt|
    ensures sentAt[j - 1] - sentAt[0] >= MINUTE * LeastMinutes(j)
  {
    if j == 1 {
      assert Pow2(0) == 1;
    } else {
      LaterAttempts(sentAt, j - 1);
      BackoffSum(j - 1);
      assert sentAt[j - 1] >= sentAt[j - 2] + Backoff(j - 1);
    }
  }

  // ---------------------------------------------------------------------------------------------
  // Progress and finality
  // ---------------------------------------------------------------------------------------------

  function Remaining(delivery: Delivery, maxAttempts: int): int {
    if IsOpen(delivery) then maxAttempts - delivery.attempts else 0
  }

  function TotalRemaining(deliveries: seq<Delivery>, maxAttempts: int): int {
    if |deliveries| == 0 then 0
    else
      TotalRemaining(deliveries[..|deliveries| - 1], maxAttempts)
      + Remaining(deliveries[|deliveries| - 1], maxAttempts)
  }

  lemma {:induction false} RemainingAfterUpdate(deliveries: seq<Delivery>, d: nat, next: Delivery, maxAttempts: int)
    requires d < |deliveries|
    ensures TotalRemaining(deliveries[d := next], maxAttempts)
      == TotalRemaining(deliveries, maxAttempts) - Remaining(deliveries[d], maxAttempts) + Remaining(next, maxAttempts)
  {
    var n := |deliveries| - 1;
    if d == n {
      assert deliveries[d := next][..n] == deliveries[..n];
    } else {
      RemainingAfterUpdate(deliveries[..n], d, next, maxAttempts);
      assert deliveries[d := next][..n] == deliveries[..n][d := next];
    }
  }

  lemma AttemptUsesOneUp(delivery: Delivery, now: int, reply: Reply, maxAttempts: int)
    requires maxAttempts > 0 && OnSchedule(delivery, maxAttempts) && IsDue(delivery, now)
    ensures Remaining(Attempted(delivery, reply, maxAttempts), maxAttempts) <= Remaining(delivery, maxAttempts) - 1
  {
  }

  /** Every attempt uses up at least one of the attempts still allowed, and never more than there are. */
  lemma {:induction false} DrainUsesUpAttempts(
    queue: Queue, due: seq<nat>, replies: seq<Reply>, now: int, settings: Settings)
    requires Consistent(queue) && settings.maxAttempts > 0 && AllOnSchedule(queue, settings.maxAttempts)
    requires Indices(due, |queue.deliveries|) && |replies| == |due| && NoRepeats(due)
    requires forall k :: 0 <= k < |due| ==> IsDue(queue.deliveries[due[k]], now)
    ensures TotalRemaining(AttemptAll(queue, due, replies, settings).0.deliveries, settings.maxAttempts)
      <= TotalRemaining(queue.deliveries, settings.maxAttempts) - |due|
  {
    if |due| > 0 {
      var n := |due| - 1;
      var d := due[n];
      DrainUsesUpAttempts(queue, due[..n], replies[..n], now, settings);
      EachAttemptedOnce(queue, due[..n], replies[..n], settings);
      assert d !in due[..n];
      AttemptUsesOneUp(queue.deliveries[d], now, replies[n], settings.maxAttempts);
      var before := AttemptAll(queue, due[..n], replies[..n], settings).0.deliveries;
      RemainingAfterUpdate(before, d, Attempted(before[d], replies[n], settings.maxAttempts), settings.maxAttempts);
    }
  }

  lemma {:induction false} RemainingIsNotNegative(deliveries: seq<Delivery>, maxAttempts: int)
    requires maxAttempts > 0 && forall d :: 0 <= d < |deliveries| ==> OnSchedule(deliveries[d], maxAttempts)
    ensures TotalRemaining(deliveries, maxAttempts) >= 0
  {
    if |deliveries| > 0 {
      RemainingIsNotNegative(deliveries[..|deliveries| - 1], maxAttempts);
    }
  }

  /** So no drain can make more attempts than remain: without new deliveries the queue runs dry. */
  lemma DrainsRunDry(
    subscriptions: seq<Subscription>, steps: seq<Step>, settings: Settings, now: int, due: seq<nat>,
    replies: seq<Reply>)
    requires settings.maxAttempts > 0 && PossibleRun(subscriptions, steps, settings)
    requires Possible(Run(subscriptions, steps, settings), DrainDue(now, due, replies))
    ensures |due| <= TotalRemaining(Run(subscriptions, steps, settings).deliveries, settings.maxAttempts)
  {
    var queue := Run(subscriptions, steps, settings);
    RunsStayOnSchedule(subscriptions, steps, settings);
    DrainUsesUpAttempts(queue, due, replies, now, settings);
    StepStaysOnSchedule(queue, DrainDue(now, due, replies), settings);
    RemainingIsNotNegative(After(queue, DrainDue(now, due, replies), settings).deliveries, settings.maxAttempts);
  }

  /** Delivered or abandoned is final: no later step changes anything about it. */
  lemma ClosedStaysClosed(queue: Queue, step: Step, settings: Settings, d: nat)
    requires Consistent(queue) && Possible(queue, step)
    requires d < |queue.deliveries| && !IsOpen(queue.deliveries[d])
    ensures d < |After(queue, step, settings).deliveries|
    ensures After(queue, step, settings).deliveries[d] == queue.deliveries[d]
  {
    if step.DrainDue? {
      EachAttemptedOnce(queue, step.due, step.replies, settings);
      forall k | 0 <= k < |step.due|
        ensures step.due[k] != d
      {
        assert IsDue(queue.deliveries[step.due[k]], step.now);
      }
    }
  }

  /** So it stays for the rest of the run, whatever follows. */
  lemma {:induction false} ClosedForGood(
    subscriptions: seq<Subscription>, before: seq<Step>, later: seq<Step>, settings: Settings, d: nat)
    requires PossibleRun(subscriptions, before + later, settings)
    requires d < |Run(subscriptions, before, settings).deliveries|
    requires !IsOpen(Run(subscriptions, before, settings).deliveries[d])
    ensures d < |Run(subscriptions, before + later, settings).deliveries|
    ensures Run(subscriptions, before + later, settings).deliveries[d]
      == Run(subscriptions, before, settings).deliveries[d]
  {
    if later == [] {
      assert before + later == before;
    } else {
      var n := |later| - 1;
      assert (before + later)[..|before + later| - 1] == before + later[..n];
      ClosedForGood(subscriptions, before, later[..n], settings, d);
      ClosedStaysClosed(Run(subscriptions, before + later[..n], settings), later[n], settings, d);
    }
  }

  // ---------------------------------------------------------------------------------------------
  // Failing endpoints
  // ---------------------------------------------------------------------------------------------

  // A subscription still enabled is short of the limit of consecutive failures.
  ghost predicate EnabledMeansFewFailures(subscriptions: seq<Subscription>, disableAfter: int) {
    forall s :: 0 <= s < |subscriptions| ==>
      subscriptions[s].disabledAt.None? ==> subscriptions[s].consecutiveFailures < disableAfter
  }

  // Once disabled, for ever and since the same moment.
  ghost predicate DisabledStay(before: seq<Subscription>, after: seq<Subscription>) {
    && |before| == |after|
    && forall s :: 0 <= s < |before| && before[s].disabledAt.Some? ==> after[s].disabledAt == before[s].disabledAt
  }

  lemma {:induction false} DrainKeepsEndpoints(queue: Queue, due: seq<nat>, replies: seq<Reply>, settings: Settings)
    requires Consistent(queue) && Indices(due, |queue.deliveries|) && |replies| == |due|
    requires settings.disableAfter > 0 && EnabledMeansFewFailures(queue.subscriptions, settings.disableAfter)
    ensures var next := AttemptAll(queue, due, replies, settings).0.subscriptions;
      EnabledMeansFewFailures(next, settings.disableAfter) && DisabledStay(queue.subscriptions, next)
  {
    if |due| > 0 {
      DrainKeepsEndpoints(queue, due[..|due| - 1], replies[..|due| - 1], settings);
    }
  }

  /**
   * In every run an endpoint is disabled as soon as its count of consecutive failures reaches the limit, and stays
   * so.
   */
  lemma {:induction false} FailingEndpointsAreDisabled(
    subscriptions: seq<Subscription>, steps: seq<Step>, settings: Settings)
    requires settings.disableAfter > 0 && EnabledMeansFewFailures(subscriptions, settings.disableAfter)
    ensures var next := Run(subscriptions, steps, settings).subscriptions;
      EnabledMeansFewFailures(next, settings.disableAfter) && DisabledStay(subscriptions, next)
  {
    if |steps| > 0 {
      var init, last := steps[..|steps| - 1], steps[|steps| - 1];
      var queue := Run(subscriptions, init, settings);
      FailingEndpointsAreDisabled(subscriptions, init, settings);
      if last.DrainDue? && Indices(last.due, |queue.deliveries|) && |last.replies| == |last.due| {
        DrainKeepsEndpoints(queue, last.due, last.replies, settings);
      }
    }
  }
}
