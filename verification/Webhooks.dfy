/** Webhook delivery: what is due, what an attempt does, and how retries are spaced. Times are in seconds. */
module Webhooks {
  import opened Outcomes
  import opened Sorting

  datatype DeliveryStatus = Pending | Failed | Delivered | Abandoned

  // `sentAt` is the history of posts; the stored row only counts them.
  datatype Delivery = Delivery(
    subscription: nat, status: DeliveryStatus, attempts: nat, nextAttempt: Option<int>, sentAt: seq<int>)

  datatype Subscription = Subscription(consecutiveFailures: nat, disabledAt: Option<int>)

  datatype Settings = Settings(maxAttempts: int, disableAfter: int)

  // What the network did with one post, and when it was sent and answered.
  datatype Reply = Reply(code: Option<int>, sent: int, done: int) {
    predicate Ok() { code.Some? && 200 <= code.value < 300 }
  }

  datatype Tally = Tally(delivered: nat, failed: nat, abandoned: nat)

  datatype Queue = Queue(deliveries: seq<Delivery>, subscriptions: seq<Subscription>)

  const MINUTE: int := 60
  const HOUR: int := 3600

  function Pow2(n: nat): (p: nat)
    ensures p > 0
  {
    if n == 0 then 1 else 2 * Pow2(n - 1)
  }

  /** One minute, doubling with every attempt, capped at an hour. */
  function Backoff(attempts: int): int {
    var doubled := MINUTE * Pow2(if attempts - 1 > 0 then attempts - 1 else 0);
    if doubled < HOUR then doubled else HOUR
  }

  /** The schedule of retries: 1, 2, 4, 8, 16 and 32 minutes after an attempt, then hourly. */
  lemma {:induction false} BackoffMeans(attempts: nat)
    requires attempts >= 1
    ensures Backoff(attempts) ==
      if attempts == 1 then 60 else if attempts == 2 then 120 else if attempts == 3 then 240
      else if attempts == 4 then 480 else if attempts == 5 then 960 else if attempts == 6 then 1920 else 3600
  {
    assert Pow2(0) == 1 && Pow2(1) == 2 && Pow2(2) == 4;
    assert Pow2(3) == 8 && Pow2(4) == 16 && Pow2(5) == 32;
    if attempts > 6 {
      AtLeast64(attempts - 1);
    }
  }

  lemma {:induction false} AtLeast64(n: nat)
    requires n >= 6
    ensures Pow2(n) >= 64
  {
    if n == 6 {
      assert Pow2(3) == 8 && Pow2(6) == 64;
    } else {
      AtLeast64(n - 1);
    }
  }

  predicate IsOpen(delivery: Delivery) {
    delivery.status.Pending? || delivery.status.Failed?
  }

  predicate IsDue(delivery: Delivery, now: int) {
    IsOpen(delivery) && delivery.nextAttempt.Some? && delivery.nextAttempt.value <= now
  }

  /** One attempt on one delivery. */
  function Attempted(delivery: Delivery, reply: Reply, maxAttempts: int): Delivery {
    var tried := delivery.(attempts := delivery.attempts + 1, sentAt := delivery.sentAt + [reply.sent]);
    if reply.Ok() then tried.(status := Delivered, nextAttempt := None)
    else if tried.attempts >= maxAttempts then tried.(status := Abandoned, nextAttempt := None)
    else tried.(status := Failed, nextAttempt := Some(reply.done + Backoff(tried.attempts)))
  }

  function Noted(subscription: Subscription, reply: Reply, disableAfter: int): Subscription {
    if reply.Ok() then subscription.(consecutiveFailures := 0)
    else
      var failures := subscription.consecutiveFailures + 1;
      Subscription(failures,
        if failures >= disableAfter && subscription.disabledAt.None? then Some(reply.done) else subscription.disabledAt)
  }

  // A success is an answer, and one from 200 to 299.
  ghost predicate Succeeds(reply: Reply) {
    reply.code.Some? && reply.code.value >= 200 && reply.code.value <= 299
  }

  /** The row after one attempt: delivered on a success, abandoned on the last failure, otherwise put off. */
  ghost predicate RowAfter(before: Delivery, reply: Reply, maxAttempts: int, after: Delivery) {
    && after.subscription == before.subscription && after.attempts == before.attempts + 1
    && after.sentAt == before.sentAt + [reply.sent]
    && (after.status == Delivered <==> Succeeds(reply))
    && (after.status == Abandoned <==> !Succeeds(reply) && before.attempts + 1 >= maxAttempts)
    && (after.status == Failed <==> !Succeeds(reply) && before.attempts + 1 < maxAttempts)
    && after.nextAttempt == if after.status == Failed then Some(reply.done + Backoff(before.attempts + 1)) else None
  }

  /** Its subscription: a success clears the failures, a failure adds one and disables it at the limit, once. */
  ghost predicate SubscriptionAfter(before: Subscription, reply: Reply, disableAfter: int, after: Subscription) {
    && after.consecutiveFailures == (if Succeeds(reply) then 0 else before.consecutiveFailures + 1)
    && after.disabledAt ==
         if !Succeeds(reply) && before.disabledAt.None? && before.consecutiveFailures + 1 >= disableAfter
         then Some(reply.done) else before.disabledAt
  }

  /** One attempt does that to the row and to its subscription. */
  lemma {:induction false} AttemptMeans(
    delivery: Delivery, subscription: Subscription, reply: Reply, settings: Settings)
    ensures RowAfter(delivery, reply, settings.maxAttempts, Attempted(delivery, reply, settings.maxAttempts))
    ensures SubscriptionAfter(
      subscription, reply, settings.disableAfter, Noted(subscription, reply, settings.disableAfter))
  {
  }

  function Counted(tally: Tally, attempted: Delivery): Tally {
    match attempted.status
    case Delivered => tally.(delivered := tally.delivered + 1)
    case Abandoned => tally.(abandoned := tally.abandoned + 1)
    case _ => tally.(failed := tally.failed + 1)
  }

  // Every delivery names a subscription that exists.
  predicate Consistent(queue: Queue) {
    forall d :: 0 <= d < |queue.deliveries| ==> queue.deliveries[d].subscription < |queue.subscriptions|
  }

  function AttemptOne(queue: Queue, d: nat, reply: Reply, settings: Settings): (r: Queue)
    requires Consistent(queue) && d < |queue.deliveries|
    ensures Consistent(r) && |r.deliveries| == |queue.deliveries|
  {
    var s := queue.deliveries[d].subscription;
    Queue(queue.deliveries[d := Attempted(queue.deliveries[d], reply, settings.maxAttempts)],
          queue.subscriptions[s := Noted(queue.subscriptions[s], reply, settings.disableAfter)])
  }

  predicate Indices(due: seq<nat>, n: nat) {
    forall k :: 0 <= k < |due| ==> due[k] < n
  }

  /** Attempts the listed deliveries in order. */
  function AttemptAll(queue: Queue, due: seq<nat>, replies: seq<Reply>, settings: Settings): (r: (Queue, Tally))
    requires Consistent(queue) && Indices(due, |queue.deliveries|) && |replies| == |due|
    ensures Consistent(r.0) && |r.0.deliveries| == |queue.deliveries|
  {
    if |due| == 0 then (queue, Tally(0, 0, 0))
    else
      var n := |due| - 1;
      var before := AttemptAll(queue, due[..n], replies[..n], settings);
      var next := AttemptOne(before.0, due[n], replies[n], settings);
      (next, Counted(before.1, next.deliveries[due[n]]))
  }

  // ---------------------------------------------------------------------------------------------
  // What is due
  // ---------------------------------------------------------------------------------------------

  predicate NoRepeats(due: seq<nat>) {
    forall j, k :: 0 <= j < k < |due| ==> due[j] != due[k]
  }

  /** Distinct due deliveries, earliest next attempt first, as many as the limit allows. */
  ghost predicate IsDueList(deliveries: seq<Delivery>, now: int, limit: nat, due: seq<nat>) {
    && NoRepeats(due) && Indices(due, |deliveries|) && |due| <= limit
    && (forall k :: 0 <= k < |due| ==>
          && (deliveries[due[k]].status == Pending || deliveries[due[k]].status == Failed)
          && deliveries[due[k]].nextAttempt.Some? && deliveries[due[k]].nextAttempt.value <= now)
    && (forall j, k :: 0 <= j < k < |due| ==>
          deliveries[due[j]].nextAttempt.value <= deliveries[due[k]].nextAttempt.value)
    && (forall d: nat ::
          && d < |deliveries| && (deliveries[d].status == Pending || deliveries[d].status == Failed)
          && deliveries[d].nextAttempt.Some? && deliveries[d].nextAttempt.value <= now && d !in due ==>
            && |due| == limit
            && forall k :: 0 <= k < |due| ==> deliveries[due[k]].nextAttempt.value <= deliveries[d].nextAttempt.value)
  }

  class Outbox {
    var deliveries: seq<Delivery>
    var subscriptions: seq<Subscription>

    ghost function View(): Queue
      reads this
    {
      Queue(deliveries, subscriptions)
    }

    constructor (subscriptions: seq<Subscription>)
      ensures View() == Queue([], subscriptions)
    {
      deliveries := [];
      this.subscriptions := subscriptions;
    }

    method DueNow(now: int, limit: nat) returns (due: seq<nat>)
      ensures IsDueList(deliveries, now, limit, due)
    {
      var found: seq<nat>, keys: seq<int> := [], [];
      for d := 0 to |deliveries|
        invariant |keys| == |found|
        invariant forall k :: 0 <= k < |found| ==>
          found[k] < d && IsDue(deliveries[found[k]], now) && keys[k] == deliveries[found[k]].nextAttempt.value
        invariant NoRepeats(found)
        invariant forall e: nat :: e < d && IsDue(deliveries[e], now) ==> e in found
      {
        if IsDue(deliveries[d], now) {
          found := found + [d];
          keys := keys + [deliveries[d].nextAttempt.value];
        }
      }
      var order := StableOrder(keys);
      var n := if limit < |order| then limit else |order|;
      due := seq(n, k requires 0 <= k < n => found[order[k]]);
      SelectionIsDueList(deliveries, now, limit, found, keys, order, due);
    }

    /** One attempt: the row and its subscription are updated where they stand, and the tally counts it. */
    method Attempt(d: nat, reply: Reply, settings: Settings, before: Tally) returns (tally: Tally)
      requires Consistent(View()) && d < |deliveries|
      modifies this
      ensures View() == AttemptOne(old(View()), d, reply, settings)
      ensures tally == Counted(before, deliveries[d])
      ensures deliveries == old(deliveries)[d := deliveries[d]]
      ensures RowAfter(old(deliveries)[d], reply, settings.maxAttempts, deliveries[d])
      ensures var s := old(deliveries)[d].subscription;
        && |subscriptions| == |old(subscriptions)| && subscriptions == old(subscriptions)[s := subscriptions[s]]
        && SubscriptionAfter(old(subscriptions)[s], reply, settings.disableAfter, subscriptions[s])
      ensures tally ==
        if Succeeds(reply) then before.(delivered := before.delivered + 1)
        else if old(deliveries)[d].attempts + 1 >= settings.maxAttempts then
          before.(abandoned := before.abandoned + 1)
        else before.(failed := before.failed + 1)
    {
      AttemptMeans(deliveries[d], subscriptions[deliveries[d].subscription], reply, settings);
      var s := deliveries[d].subscription;
      var attempts := deliveries[d].attempts + 1;
      var sentAt := deliveries[d].sentAt + [reply.sent];
      deliveries := deliveries[d := deliveries[d].(attempts := attempts, sentAt := sentAt)];
      if reply.Ok() {
        deliveries := deliveries[d := deliveries[d].(status := Delivered, nextAttempt := None)];
        subscriptions := subscriptions[s := subscriptions[s].(consecutiveFailures := 0)];
        tally := before.(delivered := before.delivered + 1);
        return;
      }
      var failures := subscriptions[s].consecutiveFailures + 1;
      subscriptions := subscriptions[s := subscriptions[s].(consecutiveFailures := failures)];
      if attempts >= settings.maxAttempts {
        deliveries := deliveries[d := deliveries[d].(status := Abandoned, nextAttempt := None)];
        tally := before.(abandoned := before.abandoned + 1);
      } else {
        var nextAttempt := Some(reply.done + Backoff(attempts));
        deliveries := deliveries[d := deliveries[d].(status := Failed, nextAttempt := nextAttempt)];
        tally := before.(failed := before.failed + 1);
      }
      if failures >= settings.disableAfter && subscriptions[s].disabledAt.None? {
        subscriptions := subscriptions[s := subscriptions[s].(disabledAt := Some(reply.done))];
      }
    }

    /** Attempts every delivery that is due; the transport's replies come as an oracle by position. */
    method Drain(now: int, limit: nat, settings: Settings, wire: nat -> Reply) returns (tally: Tally, due: seq<nat>)
      requires Consistent(View())
      modifies this
      ensures IsDueList(old(deliveries), now, limit, due)
      ensures (View(), tally) == AttemptAll(old(View()), due, Replies(wire, |due|), settings)
    {
      due := DueNow(now, limit);
      tally := Tally(0, 0, 0);
      for k := 0 to |due|
        invariant Consistent(View()) && |deliveries| == |old(deliveries)|
        invariant (View(), tally) == AttemptAll(old(View()), due[..k], Replies(wire, k), settings)
      {
        assert due[..k + 1][..k] == due[..k] && Replies(wire, k + 1)[..k] == Replies(wire, k);
        tally := Attempt(due[k], wire(k), settings, tally);
      }
      assert due[..|due|] == due;
    }
  }

  function Replies(wire: nat -> Reply, n: nat): (r: seq<Reply>)
    ensures |r| == n
  {
    seq(n, k requires 0 <= k < n => wire(k))
  }

  lemma SelectionIsDueList(
    deliveries: seq<Delivery>, now: int, limit: nat, found: seq<nat>, keys: seq<int>, order: seq<nat>, due: seq<nat>)
    requires |keys| == |found| && IsStableOrder(keys, order) && NoRepeats(found)
    requires forall k :: 0 <= k < |found| ==>
      found[k] < |deliveries| && IsDue(deliveries[found[k]], now) && keys[k] == deliveries[found[k]].nextAttempt.value
    requires forall e: nat :: e < |deliveries| && IsDue(deliveries[e], now) ==> e in found
    requires |due| == (if limit < |order| then limit else |order|)
    requires forall k :: 0 <= k < |due| ==> due[k] == found[order[k]]
    ensures IsDueList(deliveries, now, limit, due)
  {
    forall j, k | 0 <= j < k < |due|
      ensures due[j] != due[k] && deliveries[due[j]].nextAttempt.value <= deliveries[due[k]].nextAttempt.value
    {
      StableOrderIsDistinct(keys, order, j, k);
      assert Before(keys, order[j], order[k]);
      if order[j] < order[k] {
        assert found[order[j]] != found[order[k]];
      } else {
        assert found[order[k]] != found[order[j]];
      }
    }
    forall d: nat | d < |deliveries| && IsDue(deliveries[d], now) && d !in due
      ensures |due| == limit
      ensures forall k :: 0 <= k < |due| ==> deliveries[due[k]].nextAttempt.value <= deliveries[d].nextAttempt.value
    {
      var i: nat :| i < |found| && found[i] == d;
      assert i in order;
      var p: nat :| p < |order| && order[p] == i;
      assert p < |order| && !(p < |due|) by {
        assert forall k :: 0 <= k < |due| ==> due[k] in due;
      }
      forall k | 0 <= k < |due| ensures deliveries[due[k]].nextAttempt.value <= deliveries[d].nextAttempt.value {
        assert Before(keys, order[k], order[p]);
      }
    }
  }
}
