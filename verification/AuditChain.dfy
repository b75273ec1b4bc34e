/** The tamper-evident audit chain of one organization. The digest is any function of the canonical payload. */
module AuditChain {
  import opened Outcomes

  // Who did what to which entity; carried into the hash unchanged.
  datatype Details = Details(
    actorLabel: string, action: string, entityType: string, entityId: string,
    before: string, after: string, requestId: string, ip: string)

  // Times are in microseconds.
  datatype Event = Event(
    organization: string, sequence: int, actorId: Option<string>, details: Details,
    at: int, prevHash: string, hash: string)

  /** The exact fields the hash covers. */
  datatype Payload = Payload(
    organization: string, sequence: int, actorId: string, details: Details, second: int, prevHash: string)

  function Zeros(n: nat): (s: string)
    ensures |s| == n && forall c :: c in s ==> c == '0'
  {
    if n == 0 then "" else Zeros(n - 1) + "0"
  }

  const GENESIS_HASH: string := Zeros(64)
  const MICROSECONDS: int := 1_000_000

  function CanonicalTimestamp(at: int): int {
    at / MICROSECONDS
  }

  function WholeSecond(at: int): int {
    at / MICROSECONDS * MICROSECONDS
  }

  /** A missing actor and an empty one share a payload, and so do two times within one second. */
  function PayloadOf(event: Event): Payload {
    Payload(event.organization, event.sequence,
            match event.actorId { case Some(id) => id case None => "" },
            event.details, CanonicalTimestamp(event.at), event.prevHash)
  }

  // The second a time falls in, rounded down.
  predicate SameSecond(a: int, b: int) {
    a - a % 1_000_000 == b - b % 1_000_000
  }

  /**
   * Two events record the same thing: every field a reader sees is equal, a missing actor read as an empty one and the
   * time to the second. The hash is not one of them.
   */
  predicate SameRecord(a: Event, b: Event) {
    && a.organization == b.organization && a.sequence == b.sequence && a.prevHash == b.prevHash
    && (if a.actorId.Some? then a.actorId.value else "") == (if b.actorId.Some? then b.actorId.value else "")
    && a.details.actorLabel == b.details.actorLabel && a.details.action == b.details.action
    && a.details.entityType == b.details.entityType && a.details.entityId == b.details.entityId
    && a.details.before == b.details.before && a.details.after == b.details.after
    && a.details.requestId == b.details.requestId && a.details.ip == b.details.ip
    && SameSecond(a.at, b.at)
  }

  /** The payload covers exactly that: two events share one if and only if they record the same thing. */
  lemma {:induction false} PayloadCoversTheRecord(a: Event, b: Event)
    ensures PayloadOf(a) == PayloadOf(b) <==> SameRecord(a, b)
  {
    assert a.at - a.at % 1_000_000 == a.at / 1_000_000 * 1_000_000;
    assert b.at - b.at % 1_000_000 == b.at / 1_000_000 * 1_000_000;
  }

  ghost predicate Injective(digest: Payload -> string) {
    forall p, q :: digest(p) == digest(q) ==> p == q
  }

  // What a caller hands to `record`, with the clock it reads.
  datatype Input = Input(actorId: Option<string>, details: Details, now: int)

  /** The event with the highest sequence. */
  function LastEvent(events: seq<Event>): Option<Event> {
    if |events| == 0 then None
    else
      var rest, last := LastEvent(events[..|events| - 1]), events[|events| - 1];
      if rest.None? || rest.value.sequence <= last.sequence then Some(last) else rest
  }

  // No event has a higher sequence, and no later one the same.
  ghost predicate IsHighest(events: seq<Event>, k: nat) {
    && k < |events|
    && forall j: nat :: j < |events| ==>
         events[j].sequence < events[k].sequence || (events[j].sequence == events[k].sequence && j <= k)
  }

  lemma {:induction false} LastIsHighest(events: seq<Event>)
    ensures LastEvent(events).None? <==> events == []
    ensures LastEvent(events).Some? ==> exists k: nat :: IsHighest(events, k) && LastEvent(events) == Some(events[k])
  {
    if |events| > 0 {
      var n := |events| - 1;
      var rest := events[..n];
      LastIsHighest(rest);
      assert forall j :: 0 <= j < n ==> rest[j] == events[j];
      if LastEvent(rest).None? || LastEvent(rest).value.sequence <= events[n].sequence {
        if rest != [] {
          var i: nat :| IsHighest(rest, i) && LastEvent(rest) == Some(rest[i]);
        }
        assert IsHighest(events, n);
      } else {
        var i: nat :| IsHighest(rest, i) && LastEvent(rest) == Some(rest[i]);
        assert IsHighest(events, i);
      }
    }
  }

  lemma {:induction false} SecondOf(now: int)
    ensures WholeSecond(now) % 1_000_000 == 0 && WholeSecond(now) <= now < WholeSecond(now) + 1_000_000
  {
  }

  /** The event `record` appends after the ones it has read. */
  function NextEvent(digest: Payload -> string, organization: string, events: seq<Event>, input: Input): Event {
    var previous := LastEvent(events);
    var event := Event(
      organization, if previous.Some? then previous.value.sequence + 1 else 1, input.actorId, input.details,
      WholeSecond(input.now), if previous.Some? then previous.value.hash else GENESIS_HASH, "");
    event.(hash := digest(PayloadOf(event)))
  }

  /** The chain `record` builds from a list of inputs. */
  function Build(digest: Payload -> string, organization: string, inputs: seq<Input>): seq<Event> {
    if |inputs| == 0 then []
    else
      var before := Build(digest, organization, inputs[..|inputs| - 1]);
      before + [NextEvent(digest, organization, before, inputs[|inputs| - 1])]
  }

  function HashBefore(events: seq<Event>, k: nat): string
    requires k <= |events|
  {
    if k == 0 then GENESIS_HASH else events[k - 1].hash
  }

  /** Event k carries its place, the hash of the event before it, and a hash that matches its content. */
  predicate Linked(digest: Payload -> string, events: seq<Event>, k: nat)
    requires k < |events|
  {
    && events[k].sequence == k + 1
    && events[k].prevHash == HashBefore(events, k)
    && events[k].hash == digest(PayloadOf(events[k]))
  }

  ghost predicate Intact(digest: Payload -> string, events: seq<Event>) {
    forall k: nat :: k < |events| ==> Linked(digest, events, k)
  }

  // ---------------------------------------------------------------------------------------------
  // Verifying
  // ---------------------------------------------------------------------------------------------

  datatype Break = SequenceGap | BrokenLink | AlteredContent

  datatype Verdict = Sound(events: nat) | Broken(events: nat, brokenAt: int, reason: Break)

  function BreakAt(digest: Payload -> string, events: seq<Event>, k: nat): Break
    requires k < |events| && !Linked(digest, events, k)
  {
    if events[k].sequence != k + 1 then SequenceGap
    else if events[k].prevHash != HashBefore(events, k) then BrokenLink
    else AlteredContent
  }

  ghost predicate FirstBreak(digest: Payload -> string, events: seq<Event>, k: nat) {
    && k < |events| && !Linked(digest, events, k)
    && forall j: nat :: j < k ==> Linked(digest, events, j)
  }

  /** A gap is reported before a broken link, and a broken link before altered content. */
  ghost predicate Explains(digest: Payload -> string, events: seq<Event>, k: nat, reason: Break)
    requires k < |events|
  {
    var expected := if k == 0 then GENESIS_HASH else events[k - 1].hash;
    match reason
    case SequenceGap => events[k].sequence != k + 1
    case BrokenLink => events[k].sequence == k + 1 && events[k].prevHash != expected
    case AlteredContent =>
      && events[k].sequence == k + 1 && events[k].prevHash == expected
      && events[k].hash != digest(PayloadOf(events[k]))
  }

  /** Accepts exactly the intact chains, and otherwise reports the first offending event and what is wrong with it. */
  method Verify(digest: Payload -> string, events: seq<Event>) returns (verdict: Verdict)
    ensures verdict.events == |events|
    ensures verdict.Sound? <==> Intact(digest, events)
    ensures verdict.Broken? ==> exists k: nat ::
      FirstBreak(digest, events, k) && verdict == Broken(|events|, events[k].sequence, BreakAt(digest, events, k))
    ensures verdict.Broken? ==> exists k: nat ::
      FirstBreak(digest, events, k) && verdict.brokenAt == events[k].sequence
      && Explains(digest, events, k, verdict.reason)
  {
    var expectedPrev := GENESIS_HASH;
    for k := 0 to |events|
      invariant expectedPrev == HashBefore(events, k)
      invariant forall j: nat :: j < k ==> Linked(digest, events, j)
    {
      var event := events[k];
      if event.sequence != k + 1 {
        assert FirstBreak(digest, events, k) && Explains(digest, events, k, SequenceGap);
        return Broken(|events|, event.sequence, SequenceGap);
      }
      if event.prevHash != expectedPrev {
        assert FirstBreak(digest, events, k) && Explains(digest, events, k, BrokenLink);
        return Broken(|events|, event.sequence, BrokenLink);
      }
      if event.hash != digest(PayloadOf(event)) {
        assert FirstBreak(digest, events, k) && Explains(digest, events, k, AlteredContent);
        return Broken(|events|, event.sequence, AlteredContent);
      }
      expectedPrev := event.hash;
    }
    return Sound(|events|);
  }

  // ---------------------------------------------------------------------------------------------
  // Accepted chains are recorded chains
  // ---------------------------------------------------------------------------------------------

  lemma {:induction false} LastOfIntact(digest: Payload -> string, events: seq<Event>)
    requires Intact(digest, events)
    ensures LastEvent(events) == if |events| == 0 then None else Some(events[|events| - 1])
  {
    if |events| > 0 {
      var n := |events| - 1;
      PrefixIntact(digest, events, n);
      LastOfIntact(digest, events[..n]);
      assert Linked(digest, events, n);
      if n > 0 {
        assert Linked(digest, events, n - 1);
      }
    }
  }

  /** Cutting events off the end leaves an intact chain: truncation alone is not detected. */
  lemma PrefixIntact(digest: Payload -> string, events: seq<Event>, n: nat)
    requires Intact(digest, events) && n <= |events|
    ensures Intact(digest, events[..n])
  {
    forall k: nat | k < n ensures Linked(digest, events[..n], k) {
      assert Linked(digest, events, k);
    }
  }

  lemma AppendIntact(digest: Payload -> string, events: seq<Event>, event: Event)
    requires Intact(digest, events)
    requires event.sequence == |events| + 1 && event.prevHash == HashBefore(events, |events|)
    requires event.hash == digest(PayloadOf(event))
    ensures Intact(digest, events + [event])
  {
    forall k: nat | k < |events| + 1 ensures Linked(digest, events + [event], k) {
      if k < |events| {
        assert Linked(digest, events, k);
      }
    }
  }

  lemma NextIsLinked(digest: Payload -> string, organization: string, events: seq<Event>, input: Input)
    requires Intact(digest, events)
    ensures var event := NextEvent(digest, organization, events, input);
      && event.sequence == |events| + 1 && event.prevHash == HashBefore(events, |events|)
      && event.hash == digest(PayloadOf(event))
  {
    LastOfIntact(digest, events);
    if |events| > 0 {
      assert Linked(digest, events, |events| - 1);
    }
  }

  lemma {:induction false} BuildIsIntact(digest: Payload -> string, organization: string, inputs: seq<Input>)
    ensures Intact(digest, Build(digest, organization, inputs)) && |Build(digest, organization, inputs)| == |inputs|
  {
    if |inputs| > 0 {
      var init := inputs[..|inputs| - 1];
      BuildIsIntact(digest, organization, init);
      var before := Build(digest, organization, init);
      NextIsLinked(digest, organization, before, inputs[|inputs| - 1]);
      AppendIntact(digest, before, NextEvent(digest, organization, before, inputs[|inputs| - 1]));
    }
  }

  // The events with their times cut to whole seconds, as `record` stores them.
  function Rounded(events: seq<Event>): (r: seq<Event>)
    ensures |r| == |events|
  {
    seq(|events|, k requires 0 <= k < |events| => events[k].(at := WholeSecond(events[k].at)))
  }

  function InputsOf(events: seq<Event>): (r: seq<Input>)
    ensures |r| == |events|
  {
    seq(|events|, k requires 0 <= k < |events| => Input(events[k].actorId, events[k].details, events[k].at))
  }

  ghost predicate OfOrganization(events: seq<Event>, organization: string) {
    forall k :: 0 <= k < |events| ==> events[k].organization == organization
  }

  lemma RoundingKeepsPayload(event: Event)
    ensures PayloadOf(event.(at := WholeSecond(event.at))) == PayloadOf(event)
  {
  }

  lemma RoundedIntact(digest: Payload -> string, events: seq<Event>)
    ensures Intact(digest, Rounded(events)) <==> Intact(digest, events)
  {
    forall k: nat | k < |events|
      ensures Linked(digest, Rounded(events), k) <==> Linked(digest, events, k)
    {
      RoundingKeepsPayload(events[k]);
    }
  }

  // Recording what an event says, after the events before it, gives that event back.
  lemma NextRebuilds(digest: Payload -> string, organization: string, before: seq<Event>, event: Event)
    requires Intact(digest, before) && event.organization == organization
    requires event.sequence == |before| + 1 && event.prevHash == HashBefore(before, |before|)
    requires event.hash == digest(PayloadOf(event))
    ensures NextEvent(digest, organization, before, Input(event.actorId, event.details, event.at))
      == event.(at := WholeSecond(event.at))
  {
    NextIsLinked(digest, organization, before, Input(event.actorId, event.details, event.at));
    RoundingKeepsPayload(event);
    var input := Input(event.actorId, event.details, event.at);
    assert PayloadOf(NextEvent(digest, organization, before, input)) == PayloadOf(event);
  }

  lemma {:induction false} PrefixesAgree(events: seq<Event>, n: nat)
    requires n <= |events|
    ensures InputsOf(events)[..n] == InputsOf(events[..n]) && Rounded(events)[..n] == Rounded(events[..n])
  {
  }

  lemma {:induction false} IntactIsBuilt(digest: Payload -> string, organization: string, events: seq<Event>)
    requires Intact(digest, events) && OfOrganization(events, organization)
    ensures Build(digest, organization, InputsOf(events)) == Rounded(events)
  {
    if |events| > 0 {
      var n := |events| - 1;
      PrefixIntact(digest, events, n);
      IntactIsBuilt(digest, organization, events[..n]);
      PrefixesAgree(events, n);
      LastRebuilds(digest, organization, events);
      BuiltFrom(digest, organization, InputsOf(events), Rounded(events));
    } else {
      assert Rounded(events) == [];
    }
  }

  lemma {:induction false} LastRebuilds(digest: Payload -> string, organization: string, events: seq<Event>)
    requires Intact(digest, events) && OfOrganization(events, organization) && |events| > 0
    ensures var n := |events| - 1;
      NextEvent(digest, organization, Rounded(events[..n]), InputsOf(events)[n]) == Rounded(events)[n]
  {
    var n := |events| - 1;
    PrefixIntact(digest, events, n);
    RoundedIntact(digest, events[..n]);
    assert Linked(digest, events, n);
    NextRebuilds(digest, organization, Rounded(events[..n]), events[n]);
  }

  lemma {:induction false} BuiltFrom(
    digest: Payload -> string, organization: string, inputs: seq<Input>, events: seq<Event>)
    requires |inputs| == |events| > 0
    requires var n := |events| - 1;
      && Build(digest, organization, inputs[..n]) == events[..n]
      && NextEvent(digest, organization, events[..n], inputs[n]) == events[n]
    ensures Build(digest, organization, inputs) == events
  {
    assert events == events[..|events| - 1] + [events[|events| - 1]];
  }

  /** `verify` accepts exactly the chains `record` can have written, times counted in whole seconds. */
  lemma AcceptedExactlyWhenRecorded(digest: Payload -> string, organization: string, events: seq<Event>)
    ensures Intact(digest, events) && OfOrganization(events, organization)
      <==> exists inputs :: Build(digest, organization, inputs) == Rounded(events)
  {
    if Intact(digest, events) && OfOrganization(events, organization) {
      IntactIsBuilt(digest, organization, events);
    }
    if exists inputs :: Build(digest, organization, inputs) == Rounded(events) {
      var inputs :| Build(digest, organization, inputs) == Rounded(events);
      BuildIsIntact(digest, organization, inputs);
      RoundedIntact(digest, events);
      BuildOrganization(digest, organization, inputs);
      forall k | 0 <= k < |events| ensures events[k].organization == organization {
        assert Rounded(events)[k].organization == events[k].organization;
      }
    }
  }

  lemma {:induction false} BuildOrganization(digest: Payload -> string, organization: string, inputs: seq<Input>)
    ensures OfOrganization(Build(digest, organization, inputs), organization)
  {
    if |inputs| > 0 {
      BuildOrganization(digest, organization, inputs[..|inputs| - 1]);
    }
  }

  // ---------------------------------------------------------------------------------------------
  // Evidence
  // ---------------------------------------------------------------------------------------------

  /** One hash fixes the whole history: accepted chains that end in the same hash record the same, event by event. */
  lemma {:induction false} LastHashFixesHistory(digest: Payload -> string, a: seq<Event>, b: seq<Event>)
    requires Injective(digest) && Intact(digest, a) && Intact(digest, b)
    requires |a| > 0 && |b| > 0 && a[|a| - 1].hash == b[|b| - 1].hash
    ensures |a| == |b| && forall k :: 0 <= k < |a| ==> SameRecord(a[k], b[k]) && a[k].hash == b[k].hash
  {
    var m, n := |a| - 1, |b| - 1;
    assert Linked(digest, a, m) && Linked(digest, b, n);
    PayloadCoversTheRecord(a[m], b[n]);
    if m > 0 {
      PrefixIntact(digest, a, m);
      PrefixIntact(digest, b, n);
      LastHashFixesHistory(digest, a[..m], b[..n]);
      forall k | 0 <= k < |a| ensures SameRecord(a[k], b[k]) && a[k].hash == b[k].hash {
        if k < m {
          assert a[..m][k] == a[k] && b[..n][k] == b[k];
        }
      }
    }
  }

  /**
   * Rewriting any field of an event before the last breaks the chain at that event or, if its hash was forged to match,
   * at the next.
   */
  lemma {:induction false} RewritingIsDetected(digest: Payload -> string, events: seq<Event>, k: nat, forged: Event)
    requires Injective(digest) && Intact(digest, events) && k + 1 < |events|
    requires !SameRecord(forged, events[k])
    ensures var tampered := events[k := forged];
      FirstBreak(digest, tampered, if Linked(digest, tampered, k) then k + 1 else k)
  {
    var tampered := events[k := forged];
    forall j: nat | j < k ensures Linked(digest, tampered, j) {
      assert Linked(digest, events, j);
    }
    assert Linked(digest, events, k) && Linked(digest, events, k + 1);
    PayloadCoversTheRecord(forged, events[k]);
    if Linked(digest, tampered, k) {
      assert digest(PayloadOf(forged)) != digest(PayloadOf(events[k]));
    }
  }

  /** The last event cannot be rewritten either without its own hash giving it away or changing. */
  lemma {:induction false} RewritingTheLastShows(digest: Payload -> string, events: seq<Event>, forged: Event)
    requires Injective(digest) && Intact(digest, events) && |events| > 0
    requires !SameRecord(forged, events[|events| - 1])
    ensures var tampered := events[|events| - 1 := forged];
      !Intact(digest, tampered) || forged.hash != events[|events| - 1].hash
  {
    var n := |events| - 1;
    var tampered := events[n := forged];
    assert Linked(digest, events, n);
    PayloadCoversTheRecord(forged, events[n]);
    if Intact(digest, tampered) {
      assert Linked(digest, tampered, n);
    }
  }

  /** Removing an event before the last leaves a gap exactly there. */
  lemma RemovalIsDetected(digest: Payload -> string, events: seq<Event>, k: nat)
    requires Intact(digest, events) && k + 1 < |events|
    ensures var tampered := events[..k] + events[k + 1..];
      FirstBreak(digest, tampered, k) && BreakAt(digest, tampered, k) == SequenceGap
  {
    var tampered := events[..k] + events[k + 1..];
    forall j: nat | j < k ensures Linked(digest, tampered, j) {
      assert Linked(digest, events, j);
    }
    assert Linked(digest, events, k + 1) && tampered[k] == events[k + 1];
  }

  // ---------------------------------------------------------------------------------------------
  // Recorders in parallel
  // ---------------------------------------------------------------------------------------------

  // The stored chain, and the events recorders have prepared from a read and not yet inserted.
  datatype Log = Log(events: seq<Event>, prepared: seq<Event>)

  datatype Step = Prepare(input: Input) | Insert(k: nat)

  predicate SequenceTaken(events: seq<Event>, sequence: int) {
    exists k :: 0 <= k < |events| && events[k].sequence == sequence
  }

  /** An insert is refused when the unique (organization, sequence) index already holds its sequence. */
  function After(digest: Payload -> string, organization: string, log: Log, step: Step): Log {
    match step
    case Prepare(input) => log.(prepared := log.prepared + [NextEvent(digest, organization, log.events, input)])
    case Insert(k) =>
      if k < |log.prepared| && !SequenceTaken(log.events, log.prepared[k].sequence)
      then log.(events := log.events + [log.prepared[k]])
      else log
  }

  function Run(digest: Payload -> string, organization: string, steps: seq<Step>): Log {
    if |steps| == 0 then Log([], [])
    else After(digest, organization, Run(digest, organization, steps[..|steps| - 1]), steps[|steps| - 1])
  }

  // A prepared event continues the chain at some position that existed when it was read.
  ghost predicate Continues(digest: Payload -> string, organization: string, events: seq<Event>, event: Event) {
    && event.organization == organization && 1 <= event.sequence <= |events| + 1
    && event.prevHash == HashBefore(events, event.sequence - 1)
    && event.hash == digest(PayloadOf(event))
  }

  ghost predicate Healthy(digest: Payload -> string, organization: string, log: Log) {
    && Intact(digest, log.events) && OfOrganization(log.events, organization)
    && forall k :: 0 <= k < |log.prepared| ==> Continues(digest, organization, log.events, log.prepared[k])
  }

  lemma SequenceIsTaken(digest: Payload -> string, events: seq<Event>, sequence: int)
    requires Intact(digest, events) && 1 <= sequence <= |events|
    ensures SequenceTaken(events, sequence)
  {
    assert Linked(digest, events, sequence - 1);
  }

  lemma StepKeepsHealth(digest: Payload -> string, organization: string, log: Log, step: Step)
    requires Healthy(digest, organization, log)
    ensures Healthy(digest, organization, After(digest, organization, log, step))
  {
    match step
    case Prepare(input) => NextIsLinked(digest, organization, log.events, input);
    case Insert(k) =>
      if k < |log.prepared| && !SequenceTaken(log.events, log.prepared[k].sequence) {
        var event := log.prepared[k];
        assert Continues(digest, organization, log.events, event);
        if event.sequence <= |log.events| {
          SequenceIsTaken(digest, log.events, event.sequence);
        }
        AppendIntact(digest, log.events, event);
      }
  }

  /** Whatever recorders interleave, the stored chain verifies. */
  lemma {:induction false} InterleavingsStayIntact(digest: Payload -> string, organization: string, steps: seq<Step>)
    ensures Healthy(digest, organization, Run(digest, organization, steps))
  {
    if |steps| > 0 {
      InterleavingsStayIntact(digest, organization, steps[..|steps| - 1]);
      StepKeepsHealth(digest, organization, Run(digest, organization, steps[..|steps| - 1]), steps[|steps| - 1]);
    }
  }

  // ---------------------------------------------------------------------------------------------
  // The stored log
  // ---------------------------------------------------------------------------------------------

  class AuditLog {
    const digest: Payload -> string
    const organization: string
    var events: seq<Event>
    var prepared: seq<Event>

    ghost function View(): Log
      reads this
    {
      Log(events, prepared)
    }

    constructor (digest: Payload -> string, organization: string)
      ensures this.digest == digest && this.organization == organization && View() == Log([], [])
    {
      this.digest, this.organization := digest, organization;
      events, prepared := [], [];
    }

    method Last() returns (last: Option<Event>)
      ensures last == LastEvent(events)
      ensures last.None? <==> events == []
      ensures last.Some? ==> exists k: nat :: IsHighest(events, k) && last == Some(events[k])
    {
      LastIsHighest(events);
      last := None;
      for k := 0 to |events|
        invariant last == LastEvent(events[..k])
      {
        assert events[..k + 1][..k] == events[..k];
        if last.None? || last.value.sequence <= events[k].sequence {
          last := Some(events[k]);
        }
      }
      assert events[..|events|] == events;
    }

    // The event says what was handed in, at the second of the clock, and takes its place after the highest sequence.
    ghost predicate Records(events: seq<Event>, input: Input, event: Event) {
      && event.organization == organization && event.actorId == input.actorId && event.details == input.details
      && event.at % 1_000_000 == 0 && event.at <= input.now < event.at + 1_000_000
      && event.hash == digest(PayloadOf(event))
      && (events == [] ==> event.sequence == 1 && event.prevHash == GENESIS_HASH)
      && (events != [] ==> exists k: nat ::
            && IsHighest(events, k)
            && event.sequence == events[k].sequence + 1 && event.prevHash == events[k].hash)
    }

    /** The reads of `record`, and the event it builds from them. */
    method PrepareEvent(input: Input)
      modifies this`prepared
      ensures View() == After(digest, organization, old(View()), Prepare(input))
      ensures |prepared| == |old(prepared)| + 1 && prepared == old(prepared) + [prepared[|prepared| - 1]]
      ensures Records(events, input, prepared[|prepared| - 1])
    {
      SecondOf(input.now);
      var previous := Last();
      var sequence, prevHash := 1, GENESIS_HASH;
      if previous.Some? {
        sequence, prevHash := previous.value.sequence + 1, previous.value.hash;
      }
      var event := Event(organization, sequence, input.actorId, input.details, WholeSecond(input.now), prevHash, "");
      event := event.(hash := digest(PayloadOf(event)));
      prepared := prepared + [event];
    }

    /** The insert of a prepared event, under the unique index. */
    method InsertEvent(k: nat) returns (inserted: bool)
      modifies this`events
      ensures View() == After(digest, organization, old(View()), Insert(k))
      ensures inserted <==>
        k < |prepared| && forall j :: 0 <= j < |old(events)| ==> old(events)[j].sequence != prepared[k].sequence
      ensures events == if inserted then old(events) + [prepared[k]] else old(events)
    {
      if k >= |prepared| {
        return false;
      }
      for j := 0 to |events|
        invariant !SequenceTaken(events[..j], prepared[k].sequence)
      {
        assert events[..j + 1][..j] == events[..j] && events[..j + 1][j] == events[j];
        if events[j].sequence == prepared[k].sequence {
          return false;
        }
      }
      assert events[..|events|] == events;
      events := events + [prepared[k]];
      return true;
    }
  }
}
