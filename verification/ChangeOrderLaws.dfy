/** What one change order does to the table of lines, row by row: landing, standing, and coming off again. */
module ChangeOrderLaws {
  import opened MoneyText
  import opened Outcomes
  import opened ScheduleRuns
  import opened Schedules

  // ---------------------------------------------------------------------------------------------
  // The table after an order has landed
  // ---------------------------------------------------------------------------------------------

  /** What the lines of an order come to on the row with this id. */
  function Hits(orderLines: seq<OrderLine>, id: nat): int {
    if |orderLines| == 0 then 0
    else
      var last := orderLines[|orderLines| - 1];
      Hits(orderLines[..|orderLines| - 1], id) + if last.target == Some(id) then last.amount else 0
  }

  // The rows that were there before, all but the first n order lines still on them.
  function StillHit(lines: seq<SovLine>, orderLines: seq<OrderLine>, n: nat): (r: seq<SovLine>)
    requires n <= |orderLines|
    ensures |r| == |lines|
  {
    seq(|lines|, k requires 0 <= k < |lines| =>
      Adjusted(lines[k], Hits(orderLines, lines[k].id) - Hits(orderLines[..n], lines[k].id)))
  }

  // The rows the order creates, with ids from the counter on.
  function Creations(orderLines: seq<OrderLine>, o: nat, s: nat, firstId: nat): seq<SovLine> {
    if |orderLines| == 0 then []
    else
      var rest, last := Creations(orderLines[..|orderLines| - 1], o, s, firstId), orderLines[|orderLines| - 1];
      if last.target.Some? then rest
      else rest + [CreatedFor(last, o, s, firstId + |rest|)]
  }

  function CreatedFor(line: OrderLine, o: nat, s: nat, id: nat): SovLine {
    SovLine(id, s, line.newItem, 0, line.amount, line.amount, true, Some(o))
  }

  function HitRows(lines: seq<SovLine>, orderLines: seq<OrderLine>): (r: seq<SovLine>)
    ensures |r| == |lines|
  {
    seq(|lines|, k requires 0 <= k < |lines| => Adjusted(lines[k], Hits(orderLines, lines[k].id)))
  }

  lemma {:induction false} CreationsAre(orderLines: seq<OrderLine>, o: nat, s: nat, firstId: nat)
    ensures forall k :: 0 <= k < |Creations(orderLines, o, s, firstId)| ==>
      var row := Creations(orderLines, o, s, firstId)[k];
      (row.id == firstId + k && row.schedule == s && row.source == Some(o))
  {
    if |orderLines| > 0 {
      CreationsAre(orderLines[..|orderLines| - 1], o, s, firstId);
    }
  }

  lemma {:induction false} AdjustConcat(xs: seq<SovLine>, ys: seq<SovLine>, id: nat, amount: int)
    ensures Adjust(xs + ys, id, amount) == Adjust(xs, id, amount) + Adjust(ys, id, amount)
  {
    if ys == [] {
      assert xs + ys == xs;
    } else {
      var n := |ys| - 1;
      AdjustConcat(xs, ys[..n], id, amount);
      assert (xs + ys)[..|xs + ys| - 1] == xs + ys[..n];
    }
  }

  lemma {:induction false} AdjustNothing(lines: seq<SovLine>, id: nat, amount: int)
    requires forall k :: 0 <= k < |lines| ==> lines[k].id != id
    ensures Adjust(lines, id, amount) == lines
  {
    forall k | 0 <= k < |lines|
      ensures Adjust(lines, id, amount)[k] == lines[k]
    {
      AdjustRow(lines, id, amount, k);
    }
  }

  lemma {:induction false} OneMoreHit(lines: seq<SovLine>, orderLines: seq<OrderLine>)
    requires |orderLines| > 0 && orderLines[|orderLines| - 1].target.Some?
    ensures var n := |orderLines| - 1;
      Adjust(HitRows(lines, orderLines[..n]), orderLines[n].target.value, orderLines[n].amount)
      == HitRows(lines, orderLines)
  {
    var n := |orderLines| - 1;
    var id := orderLines[n].target.value;
    forall k | 0 <= k < |lines|
      ensures Adjust(HitRows(lines, orderLines[..n]), id, orderLines[n].amount)[k] == HitRows(lines, orderLines)[k]
    {
      AdjustRow(HitRows(lines, orderLines[..n]), id, orderLines[n].amount, k);
    }
  }

  // Every row has its current value derived.
  ghost predicate Derived(lines: seq<SovLine>) {
    forall k :: 0 <= k < |lines| ==> lines[k].current == lines[k].base + lines[k].adjustment
  }

  /** Landing an order moves each row by what the order comes to on it, and puts the created rows at the end. */
  lemma {:induction false} LandingMeans(plan: Plan, o: nat, s: nat, orderLines: seq<OrderLine>)
    requires Derived(plan.lines) && TargetsBelow(orderLines, plan.nextId) && Land(plan, o, s, orderLines).Ok?
    ensures var landed := Land(plan, o, s, orderLines).value;
      var created := Creations(orderLines, o, s, plan.nextId);
      && landed.lines == HitRows(plan.lines, orderLines) + created && landed.nextId == plan.nextId + |created|
  {
    if |orderLines| == 0 {
      assert HitRows(plan.lines, orderLines) == plan.lines;
    } else {
      var n := |orderLines| - 1;
      var last := orderLines[n];
      LandingMeans(plan, o, s, orderLines[..n]);
      var hit, created := HitRows(plan.lines, orderLines[..n]), Creations(orderLines[..n], o, s, plan.nextId);
      if last.target.Some? {
        CreationsAre(orderLines[..n], o, s, plan.nextId);
        AdjustConcat(hit, created, last.target.value, last.amount);
        AdjustNothing(created, last.target.value, last.amount);
        OneMoreHit(plan.lines, orderLines);
      } else {
        assert HitRows(plan.lines, orderLines) == hit;
      }
    }
  }

  // ---------------------------------------------------------------------------------------------
  // Revisions an approval leaves alone
  // ---------------------------------------------------------------------------------------------

  lemma {:induction false} LinesOfConcat(xs: seq<SovLine>, ys: seq<SovLine>, t: nat)
    ensures LinesOf(xs + ys, t) == LinesOf(xs, t) + LinesOf(ys, t)
  {
    if ys == [] {
      assert xs + ys == xs;
    } else {
      var n := |ys| - 1;
      LinesOfConcat(xs, ys[..n], t);
      assert (xs + ys)[..|xs + ys| - 1] == xs + ys[..n];
    }
  }

  // Row for row on the same schedules: the rows of one schedule agree exactly when each of its rows does.
  lemma {:induction false} LinesOfAgree(xs: seq<SovLine>, ys: seq<SovLine>, t: nat)
    requires |xs| == |ys| && forall k :: 0 <= k < |xs| ==> xs[k].schedule == ys[k].schedule
    ensures |LinesOf(xs, t)| == |LinesOf(ys, t)|
    ensures LinesOf(xs, t) == LinesOf(ys, t) <==> forall k :: 0 <= k < |xs| && xs[k].schedule == t ==> xs[k] == ys[k]
  {
    if |xs| > 0 {
      var n := |xs| - 1;
      LinesOfAgree(xs[..n], ys[..n], t);
      var a, b := LinesOf(xs[..n], t), LinesOf(ys[..n], t);
      if xs[n].schedule == t {
        assert (a + [xs[n]])[..|a|] == a && (b + [ys[n]])[..|b|] == b;
        assert a + [xs[n]] == b + [ys[n]] <==> a == b && xs[n] == ys[n] by {
          if a + [xs[n]] == b + [ys[n]] {
            assert (a + [xs[n]])[|a|] == (b + [ys[n]])[|b|];
          }
        }
      }
      assert forall k :: 0 <= k < n ==> xs[..n][k] == xs[k] && ys[..n][k] == ys[k];
    }
  }

  /**
   * Approving an order leaves another revision as it was exactly when what it comes to on each of its rows nets to
   * zero.
   */
  lemma {:induction false} ApprovalLeavesRevisionExactlyWhen(plan: Plan, o: nat, s: nat, t: nat, next: Plan)
    requires Sound(plan) && ApproveOrder(plan, o, s) == Ok(next) && t != s
    ensures LinesOf(next.lines, t) == LinesOf(plan.lines, t) <==>
      forall k :: 0 <= k < |plan.lines| && plan.lines[k].schedule == t ==>
        Hits(plan.orders[o].lines, plan.lines[k].id) == 0
  {
    var orderLines := plan.orders[o].lines;
    LandingMeans(plan, o, s, orderLines);
    CreatedElsewhere(plan, o, s, orderLines, t);
    HitRowsOfRevision(plan.lines, orderLines, t);
  }

  lemma {:induction false} CreatedElsewhere(plan: Plan, o: nat, s: nat, orderLines: seq<OrderLine>, t: nat)
    requires t != s
    ensures var hit := HitRows(plan.lines, orderLines);
      LinesOf(hit + Creations(orderLines, o, s, plan.nextId), t) == LinesOf(hit, t)
  {
    LinesOfConcat(HitRows(plan.lines, orderLines), Creations(orderLines, o, s, plan.nextId), t);
    CreationsAre(orderLines, o, s, plan.nextId);
    NoneOnSchedule(Creations(orderLines, o, s, plan.nextId), t);
  }

  lemma {:induction false} HitRowsOfRevision(lines: seq<SovLine>, orderLines: seq<OrderLine>, t: nat)
    requires Derived(lines)
    ensures LinesOf(HitRows(lines, orderLines), t) == LinesOf(lines, t) <==>
      forall k :: 0 <= k < |lines| && lines[k].schedule == t ==> Hits(orderLines, lines[k].id) == 0
  {
    var hit := HitRows(lines, orderLines);
    LinesOfAgree(hit, lines, t);
    forall k | 0 <= k < |lines|
      ensures hit[k] == lines[k] <==> Hits(orderLines, lines[k].id) == 0
    {
      assert hit[k] == Adjusted(lines[k], Hits(orderLines, lines[k].id));
    }
  }

  lemma {:induction false} NoneOnSchedule(lines: seq<SovLine>, t: nat)
    requires forall k :: 0 <= k < |lines| ==> lines[k].schedule != t
    ensures LinesOf(lines, t) == []
  {
    if |lines| > 0 {
      NoneOnSchedule(lines[..|lines| - 1], t);
    }
  }

  // ---------------------------------------------------------------------------------------------
  // Approval establishes what a void relies on
  // ---------------------------------------------------------------------------------------------

  /** No row names an order that has not been approved as the one that created it. */
  ghost predicate SourcesKnown(plan: Plan) {
    forall k :: 0 <= k < |plan.lines| && plan.lines[k].source.Some? ==>
      var o := plan.lines[k].source.value; (o < |plan.orders| && !plan.orders[o].status.OrderDraft?)
  }

  // No row was created by the order.
  ghost predicate Unborn(lines: seq<SovLine>, o: nat) {
    forall k :: 0 <= k < |lines| ==> lines[k].source != Some(o)
  }

  // One line and what it becomes: neither where it came from nor its place among the rows changes.
  ghost predicate SameSources(xs: seq<SovLine>, ys: seq<SovLine>) {
    |xs| == |ys| && forall k :: 0 <= k < |xs| ==> xs[k].source == ys[k].source
  }

  lemma {:induction false} AdjustKeepsAllSources(lines: seq<SovLine>, id: nat, amount: int)
    ensures SameSources(Adjust(lines, id, amount), lines)
  {
    forall k | 0 <= k < |lines|
      ensures Adjust(lines, id, amount)[k].source == lines[k].source
    {
      AdjustRow(lines, id, amount, k);
    }
  }

  lemma {:induction false} RewriteKeepsAllSources(lines: seq<SovLine>, id: nat, item: string, value: int)
    ensures SameSources(Rewrite(lines, id, item, value), lines)
  {
    forall k | 0 <= k < |lines|
      ensures Rewrite(lines, id, item, value)[k].source == lines[k].source
    {
      RewriteRow(lines, id, item, value, k);
    }
  }

  // Every source of the second table is a source of the first.
  ghost predicate SourcesWithin(xs: seq<SovLine>, ys: seq<SovLine>) {
    forall k :: 0 <= k < |xs| ==> xs[k].source.None? || exists j :: 0 <= j < |ys| && ys[j].source == xs[k].source
  }

  lemma {:induction false} RemoveSources(lines: seq<SovLine>, id: nat)
    requires DistinctIds(lines)
    ensures SourcesWithin(Remove(lines, id), lines)
  {
    RemoveRows(lines, id);
    forall k | 0 <= k < |Remove(lines, id)|
      ensures exists j :: 0 <= j < |lines| && lines[j].source == Remove(lines, id)[k].source
    {
      assert Remove(lines, id)[k] in Remove(lines, id);
      var j :| 0 <= j < |lines| && lines[j] == Remove(lines, id)[k];
    }
  }

  lemma {:induction false} BackOutSources(plan: Plan, o: nat, s: nat, orderLines: seq<OrderLine>)
    requires RowsOk(plan)
    ensures SourcesWithin(BackOut(plan.lines, o, s, orderLines), plan.lines)
  {
    if |orderLines| > 0 {
      var n := |orderLines| - 1;
      BackOutSources(plan, o, s, orderLines[..n]);
      BackingOut(plan, o, s, orderLines[..n]);
      var lines, line := BackOut(plan.lines, o, s, orderLines[..n]), orderLines[n];
      if line.target.Some? {
        AdjustKeepsAllSources(lines, line.target.value, -line.amount);
      } else if FindCreated(lines, s, o, line.newItem).Some? {
        RemoveSources(lines, FindCreated(lines, s, o, line.newItem).value.id);
      }
      SourcesChain(BackOut(plan.lines, o, s, orderLines), lines, plan.lines);
    }
  }

  lemma {:induction false} SourcesChain(xs: seq<SovLine>, ys: seq<SovLine>, zs: seq<SovLine>)
    requires SourcesWithin(xs, ys) && SourcesWithin(ys, zs)
    ensures SourcesWithin(xs, zs)
  {
    forall k | 0 <= k < |xs| && xs[k].source.Some?
      ensures exists j :: 0 <= j < |zs| && zs[j].source == xs[k].source
    {
      var i :| 0 <= i < |ys| && ys[i].source == xs[k].source;
      var j :| 0 <= j < |zs| && zs[j].source == ys[i].source;
    }
  }

  // Orders only ever leave the draft state.
  ghost predicate OrdersAdvance(plan: Plan, next: Plan) {
    && |plan.orders| <= |next.orders|
    && forall o :: 0 <= o < |plan.orders| && !plan.orders[o].status.OrderDraft? ==> !next.orders[o].status.OrderDraft?
  }

  lemma {:induction false} WithinKeepsKnown(plan: Plan, next: Plan)
    requires SourcesKnown(plan) && OrdersAdvance(plan, next) && SourcesWithin(next.lines, plan.lines)
    ensures SourcesKnown(next)
  {
    forall k | 0 <= k < |next.lines| && next.lines[k].source.Some?
      ensures next.lines[k].source.value < |next.orders|
      ensures !next.orders[next.lines[k].source.value].status.OrderDraft?
    {
      var j :| 0 <= j < |plan.lines| && plan.lines[j].source == next.lines[k].source;
    }
  }

  lemma {:induction false} AppendSources(xs: seq<SovLine>, ys: seq<SovLine>, zs: seq<SovLine>)
    requires SourcesWithin(xs, zs) && SourcesWithin(ys, zs)
    ensures SourcesWithin(xs + ys, zs)
  {
    forall k | 0 <= k < |xs + ys| && (xs + ys)[k].source.Some?
      ensures exists j :: 0 <= j < |zs| && zs[j].source == (xs + ys)[k].source
    {
      if k < |xs| {
        var j :| 0 <= j < |zs| && zs[j].source == xs[k].source;
      } else {
        var j :| 0 <= j < |zs| && zs[j].source == ys[k - |xs|].source;
      }
    }
  }

  lemma {:induction false} OwnSources(lines: seq<SovLine>)
    ensures SourcesWithin(lines, lines)
  {
  }

  lemma {:induction false} CopySources(plan: Plan, s: nat)
    ensures SourcesWithin(Copies(LinesOf(plan.lines, s), s + 1, plan.nextId), plan.lines)
  {
    var source := LinesOf(plan.lines, s);
    LinesOfSchedule(plan.lines, s);
    forall k | 0 <= k < |source|
      ensures exists j :: 0 <= j < |plan.lines| && plan.lines[j].source == source[k].source
    {
      assert source[k] in plan.lines;
      var j :| 0 <= j < |plan.lines| && plan.lines[j] == source[k];
    }
  }

  lemma {:induction false} LandedRowsKnown(plan: Plan, next: Plan, o: nat, hit: seq<SovLine>, created: seq<SovLine>)
    requires SourcesKnown(plan) && SameSources(hit, plan.lines) && next.lines == hit + created
    requires forall k :: 0 <= k < |created| ==> created[k].source == Some(o)
    requires OrdersAdvance(plan, next) && o < |next.orders| && !next.orders[o].status.OrderDraft?
    ensures SourcesKnown(next)
  {
    forall k | 0 <= k < |next.lines| && next.lines[k].source.Some?
      ensures next.lines[k].source.value < |next.orders|
      ensures !next.orders[next.lines[k].source.value].status.OrderDraft?
    {
      if k < |hit| {
        assert next.lines[k].source == plan.lines[k].source;
      } else {
        assert next.lines[k] == created[k - |hit|];
      }
    }
  }

  lemma {:induction false} ApprovalKeepsKnown(plan: Plan, o: nat, s: nat, next: Plan)
    requires Sound(plan) && SourcesKnown(plan) && ApproveOrder(plan, o, s) == Ok(next)
    ensures SourcesKnown(next)
  {
    var orderLines := plan.orders[o].lines;
    var hit, created := HitRows(plan.lines, orderLines), Creations(orderLines, o, s, plan.nextId);
    LandingMeans(plan, o, s, orderLines);
    CreationsAre(orderLines, o, s, plan.nextId);
    assert next.orders == WithStatus(plan.orders, o, OrderApproved);
    LandedRowsKnown(plan, next, o, hit, created);
  }

  // Apart from an approval, no step brings in a source that was not there.
  lemma {:induction false} StepSources(plan: Plan, step: Step)
    requires Sound(plan) && !step.ApproveCo?
    ensures SourcesWithin(After(plan, step).lines, plan.lines)
  {
    OwnSources(plan.lines);
    if Try(plan, step).Ok? {
      match step
      case Add(s, item, value, _) =>
        AppendSources(plan.lines, [SovLine(plan.nextId, s, Strip(item), value, 0, value, false, None)], plan.lines);
      case Update(id, item, value) => RewriteKeepsAllSources(plan.lines, id, item, value);
      case Delete(id) => RemoveSources(plan.lines, id);
      case Revise(s) => RevisionSources(plan, s);
      case VoidCo(o, s) => VoidSources(plan, o, s);
      case _ =>
    }
  }

  lemma {:induction false} RevisionSources(plan: Plan, s: nat)
    requires CreateRevision(plan, s).Ok?
    ensures SourcesWithin(CreateRevision(plan, s).value.lines, plan.lines)
  {
    OwnSources(plan.lines);
    CopySources(plan, s);
    AppendSources(plan.lines, Copies(LinesOf(plan.lines, s), s + 1, plan.nextId), plan.lines);
  }

  lemma {:induction false} VoidSources(plan: Plan, o: nat, s: nat)
    requires Sound(plan) && VoidOrder(plan, o, s).Ok?
    ensures SourcesWithin(VoidOrder(plan, o, s).value.lines, plan.lines)
  {
    OwnSources(plan.lines);
    if plan.orders[o].status.OrderApproved? {
      BackOutSources(plan, o, s, plan.orders[o].lines);
    }
  }

  lemma {:induction false} StepAdvances(plan: Plan, step: Step)
    requires !step.ApproveCo?
    ensures OrdersAdvance(plan, After(plan, step))
  {
  }

  /** Every step keeps it, careful or not. */
  lemma {:induction false} StepKeepsSources(plan: Plan, step: Step)
    requires Sound(plan) && SourcesKnown(plan)
    ensures SourcesKnown(After(plan, step))
  {
    if !step.ApproveCo? {
      StepSources(plan, step);
      StepAdvances(plan, step);
      WithinKeepsKnown(plan, After(plan, step));
    } else if Try(plan, step).Ok? {
      ApprovalKeepsKnown(plan, step.order, step.schedule, After(plan, step));
    }
  }

  /** So in every careful run no row names an order that is still a draft. */
  lemma {:induction false} RunsKeepSources(originalSum: int, steps: seq<Step>)
    requires CarefulRun(Start(originalSum), steps)
    ensures SourcesKnown(Run(Start(originalSum), steps))
  {
    if |steps| > 0 {
      var init := steps[..|steps| - 1];
      RunsKeepSources(originalSum, init);
      RunsStayTied(originalSum, init);
      StepKeepsSources(Run(Start(originalSum), init), steps[|steps| - 1]);
    }
  }

  // ---------------------------------------------------------------------------------------------
  // No order adjusts a row of its own making
  // ---------------------------------------------------------------------------------------------

  ghost predicate OthersOnly(plan: Plan) {
    forall o :: 0 <= o < |plan.orders| ==> AdjustsOthers(plan.lines, o, plan.orders[o].lines)
  }

  // Every row of the first table is new, or has its id and source from a row of the second.
  ghost predicate Traced(xs: seq<SovLine>, ys: seq<SovLine>, firstId: nat) {
    forall k :: 0 <= k < |xs| ==> xs[k].id >= firstId || HasRow(ys, xs[k].id, xs[k].source)
  }

  ghost predicate HasRow(lines: seq<SovLine>, id: nat, source: Option<nat>) {
    exists j :: 0 <= j < |lines| && lines[j].id == id && lines[j].source == source
  }

  lemma {:induction false} TracedKeepsOthers(
    now: seq<SovLine>, was: seq<SovLine>, o: nat, orderLines: seq<OrderLine>, firstId: nat)
    requires Traced(now, was, firstId) && TargetsBelow(orderLines, firstId) && AdjustsOthers(was, o, orderLines)
    ensures AdjustsOthers(now, o, orderLines)
  {
    forall k, line |
      && 0 <= k < |orderLines| && orderLines[k].target.Some?
      && line in now && line.id == orderLines[k].target.value
      ensures line.source != Some(o)
    {
      var i :| 0 <= i < |now| && now[i] == line;
      assert HasRow(was, line.id, line.source);
      var j :| 0 <= j < |was| && was[j].id == line.id && was[j].source == line.source;
      assert was[j] in was;
    }
  }

  lemma {:induction false} RowsTraced(xs: seq<SovLine>, ys: seq<SovLine>, more: seq<SovLine>, firstId: nat)
    requires |xs| == |ys| && forall k :: 0 <= k < |xs| ==> xs[k].id == ys[k].id && xs[k].source == ys[k].source
    requires forall k :: 0 <= k < |more| ==> more[k].id >= firstId
    ensures Traced(xs + more, ys, firstId)
  {
    forall k | 0 <= k < |xs + more|
      ensures (xs + more)[k].id >= firstId || HasRow(ys, (xs + more)[k].id, (xs + more)[k].source)
    {
      if k < |xs| {
        assert ys[k].id == (xs + more)[k].id && ys[k].source == (xs + more)[k].source;
      }
    }
  }

  lemma {:induction false} FewerTraced(xs: seq<SovLine>, ys: seq<SovLine>, firstId: nat)
    requires forall line :: line in xs ==> line in ys
    ensures Traced(xs, ys, firstId)
  {
    forall k | 0 <= k < |xs|
      ensures HasRow(ys, xs[k].id, xs[k].source)
    {
      assert xs[k] in xs;
      var j :| 0 <= j < |ys| && ys[j] == xs[k];
    }
  }

  lemma {:induction false} TracedChain(xs: seq<SovLine>, ys: seq<SovLine>, zs: seq<SovLine>, firstId: nat)
    requires Traced(xs, ys, firstId) && Traced(ys, zs, firstId)
    ensures Traced(xs, zs, firstId)
  {
    forall k | 0 <= k < |xs| && xs[k].id < firstId
      ensures HasRow(zs, xs[k].id, xs[k].source)
    {
      assert HasRow(ys, xs[k].id, xs[k].source);
      var j :| 0 <= j < |ys| && ys[j].id == xs[k].id && ys[j].source == xs[k].source;
      assert HasRow(zs, ys[j].id, ys[j].source);
    }
  }

  lemma {:induction false} AdjustTraced(lines: seq<SovLine>, id: nat, amount: int, firstId: nat)
    ensures Traced(Adjust(lines, id, amount), lines, firstId)
  {
    var next := Adjust(lines, id, amount);
    forall k | 0 <= k < |lines|
      ensures next[k].id == lines[k].id && next[k].source == lines[k].source
    {
      AdjustRow(lines, id, amount, k);
    }
    assert next + [] == next;
    RowsTraced(next, lines, [], firstId);
  }

  lemma {:induction false} RewriteTraced(lines: seq<SovLine>, id: nat, item: string, value: int, firstId: nat)
    ensures Traced(Rewrite(lines, id, item, value), lines, firstId)
  {
    var next := Rewrite(lines, id, item, value);
    forall k | 0 <= k < |lines|
      ensures next[k].id == lines[k].id && next[k].source == lines[k].source
    {
      RewriteRow(lines, id, item, value, k);
    }
    assert next + [] == next;
    RowsTraced(next, lines, [], firstId);
  }

  lemma {:induction false} RemoveTraced(lines: seq<SovLine>, id: nat, firstId: nat)
    ensures Traced(Remove(lines, id), lines, firstId)
  {
    RemoveMembers(lines, id);
    FewerTraced(Remove(lines, id), lines, firstId);
  }

  lemma {:induction false} BackOutTraced(
    lines: seq<SovLine>, o: nat, s: nat, orderLines: seq<OrderLine>, firstId: nat)
    ensures Traced(BackOut(lines, o, s, orderLines), lines, firstId)
  {
    FewerTraced(lines, lines, firstId);
    if |orderLines| > 0 {
      var n := |orderLines| - 1;
      var before, line := BackOut(lines, o, s, orderLines[..n]), orderLines[n];
      BackOutTraced(lines, o, s, orderLines[..n], firstId);
      if line.target.Some? {
        AdjustTraced(before, line.target.value, -line.amount, firstId);
        TracedChain(BackOut(lines, o, s, orderLines), before, lines, firstId);
      } else if FindCreated(before, s, o, line.newItem).Some? {
        RemoveTraced(before, FindCreated(before, s, o, line.newItem).value.id, firstId);
        TracedChain(BackOut(lines, o, s, orderLines), before, lines, firstId);
      }
    }
  }

  lemma {:induction false} LandingTraced(plan: Plan, o: nat, s: nat, next: Plan)
    requires Sound(plan) && ApproveOrder(plan, o, s) == Ok(next)
    ensures Traced(next.lines, plan.lines, plan.nextId)
  {
    var orderLines := plan.orders[o].lines;
    LandingMeans(plan, o, s, orderLines);
    CreationsAre(orderLines, o, s, plan.nextId);
    RowsTraced(HitRows(plan.lines, orderLines), plan.lines, Creations(orderLines, o, s, plan.nextId), plan.nextId);
  }

  lemma {:induction false} StepTraced(plan: Plan, step: Step)
    requires Sound(plan)
    ensures Traced(After(plan, step).lines, plan.lines, plan.nextId)
  {
    FewerTraced(plan.lines, plan.lines, plan.nextId);
    if Try(plan, step).Ok? {
      match step
      case Add(s, item, value, _) =>
        RowsTraced(
          plan.lines, plan.lines, [SovLine(plan.nextId, s, Strip(item), value, 0, value, false, None)], plan.nextId);
      case Update(id, item, value) => RewriteTraced(plan.lines, id, item, value, plan.nextId);
      case Delete(id) => RemoveTraced(plan.lines, id, plan.nextId);
      case Revise(s) =>
        RowsTraced(plan.lines, plan.lines, Copies(LinesOf(plan.lines, s), s + 1, plan.nextId), plan.nextId);
      case ApproveCo(o, s) => LandingTraced(plan, o, s, After(plan, step));
      case VoidCo(o, s) =>
        if plan.orders[o].status.OrderApproved? {
          BackOutTraced(plan.lines, o, s, plan.orders[o].lines, plan.nextId);
        }
      case _ =>
    }
  }

  // The lines of an order only ever change while it is a draft.
  lemma {:induction false} OrderLinesStay(plan: Plan, step: Step, o: nat)
    requires o < |After(plan, step).orders|
    ensures
      || (o < |plan.orders| && After(plan, step).orders[o].lines == plan.orders[o].lines)
      || (o < |plan.orders| && plan.orders[o].status.OrderDraft? && After(plan, step).lines == plan.lines)
      || After(plan, step).orders[o].lines == []
  {
  }

  /** What voiding an order relies on of its targets holds by itself: every step keeps it. */
  lemma {:induction false} StepKeepsOthersOnly(plan: Plan, step: Step)
    requires Sound(plan) && SourcesKnown(plan) && OthersOnly(plan)
    ensures OthersOnly(After(plan, step))
  {
    var next := After(plan, step);
    StepTraced(plan, step);
    forall o: nat | o < |next.orders|
      ensures AdjustsOthers(next.lines, o, next.orders[o].lines)
    {
      OrderLinesStay(plan, step, o);
      if o < |plan.orders| && next.orders[o].lines == plan.orders[o].lines {
        TracedKeepsOthers(next.lines, plan.lines, o, plan.orders[o].lines, plan.nextId);
      } else if next.orders[o].lines != [] {
        assert Unborn(plan.lines, o);
      }
    }
  }

  /** So in every careful run no order names a row that it created itself. */
  lemma {:induction false} RunsAdjustOthers(originalSum: int, steps: seq<Step>)
    requires CarefulRun(Start(originalSum), steps)
    ensures OthersOnly(Run(Start(originalSum), steps))
  {
    if |steps| > 0 {
      var init := steps[..|steps| - 1];
      RunsAdjustOthers(originalSum, init);
      RunsKeepSources(originalSum, init);
      RunsStayTied(originalSum, init);
      StepKeepsOthersOnly(Run(Start(originalSum), init), steps[|steps| - 1]);
    }
  }

  // ---------------------------------------------------------------------------------------------
  // The rows an order created
  // ---------------------------------------------------------------------------------------------

  // Rows from this id on, of the order's making, on this schedule.
  ghost predicate Made(rows: seq<SovLine>, s: nat, o: nat, firstId: nat) {
    forall k :: 0 <= k < |rows| ==> rows[k].id >= firstId && rows[k].schedule == s && rows[k].source == Some(o)
  }

  lemma {:induction false} OwnConcat(xs: seq<SovLine>, ys: seq<SovLine>, s: nat, o: nat)
    ensures Own(xs + ys, s, o) == Own(xs, s, o) + Own(ys, s, o)
  {
    if ys == [] {
      assert xs + ys == xs;
    } else {
      var n := |ys| - 1;
      OwnConcat(xs, ys[..n], s, o);
      assert (xs + ys)[..|xs + ys| - 1] == xs + ys[..n];
    }
  }

  lemma {:induction false} OwnNone(lines: seq<SovLine>, s: nat, o: nat)
    requires forall k :: 0 <= k < |lines| ==> lines[k].source != Some(o) || lines[k].schedule != s
    ensures Own(lines, s, o) == []
  {
    if |lines| > 0 {
      OwnNone(lines[..|lines| - 1], s, o);
    }
  }

  lemma {:induction false} OwnAll(rows: seq<SovLine>, s: nat, o: nat, firstId: nat)
    requires Made(rows, s, o, firstId)
    ensures Own(rows, s, o) == rows
  {
    if |rows| > 0 {
      OwnAll(rows[..|rows| - 1], s, o, firstId);
    }
  }

  // They bear the numbers the order wants, and carry what it creates lines for.
  lemma {:induction false} CreationsBearNumbers(orderLines: seq<OrderLine>, o: nat, s: nat, firstId: nat)
    ensures Numbers(Creations(orderLines, o, s, firstId)) == Wanted(orderLines)
  {
    if |orderLines| > 0 {
      var n := |orderLines| - 1;
      CreationsBearNumbers(orderLines[..n], o, s, firstId);
      if orderLines[n].target.None? {
        var rest := Creations(orderLines[..n], o, s, firstId);
        NumbersAppend(rest, CreatedFor(orderLines[n], o, s, firstId + |rest|));
      }
    }
  }

  lemma {:induction false} CreationsCarryAmounts(orderLines: seq<OrderLine>, o: nat, s: nat, firstId: nat)
    ensures Total(Creations(orderLines, o, s, firstId), s, Adjustment) == CreatingTotal(orderLines)
  {
    if |orderLines| > 0 {
      var n := |orderLines| - 1;
      CreationsCarryAmounts(orderLines[..n], o, s, firstId);
      if orderLines[n].target.None? {
        var rest := Creations(orderLines[..n], o, s, firstId);
        TotalAppend(rest, CreatedFor(orderLines[n], o, s, firstId + |rest|), s, Adjustment);
      }
    }
  }

  // ---------------------------------------------------------------------------------------------
  // An approved order stands
  // ---------------------------------------------------------------------------------------------

  /** Approving an order whose targets are lines of the schedule leaves it standing as a void needs it. */
  lemma {:induction false} ApprovedOrderStands(plan: Plan, o: nat, s: nat, next: Plan)
    requires Sound(plan) && SourcesKnown(plan) && ApproveOrder(plan, o, s) == Ok(next)
    requires TargetsOn(plan.lines, s, plan.orders[o].lines)
    ensures StandsHere(next.lines, o, s, plan.orders[o].lines)
  {
    var orderLines := plan.orders[o].lines;
    LandingMeans(plan, o, s, orderLines);
    LandingLands(plan, o, s, orderLines);
    assert Unborn(plan.lines, o);
    OnlyCreationsAreOwn(plan.lines, orderLines, o, s, plan.nextId);
    CreationsBearNumbers(orderLines, o, s, plan.nextId);
    CreationsCarryAmounts(orderLines, o, s, plan.nextId);
    forall k | 0 <= k < |orderLines| && orderLines[k].target.Some?
      ensures NotCreatedBy(next.lines, orderLines[k].target.value, o)
    {
      OldRowsAreNotIts(plan.lines, orderLines, o, s, plan.nextId, orderLines[k].target.value);
    }
  }

  lemma {:induction false} OnlyCreationsAreOwn(
    lines: seq<SovLine>, orderLines: seq<OrderLine>, o: nat, s: nat, firstId: nat)
    requires Unborn(lines, o)
    ensures var created := Creations(orderLines, o, s, firstId);
      Own(HitRows(lines, orderLines) + created, s, o) == created
  {
    var hit, created := HitRows(lines, orderLines), Creations(orderLines, o, s, firstId);
    forall k | 0 <= k < |hit| ensures hit[k].source == lines[k].source {
    }
    OwnNone(hit, s, o);
    CreationsAre(orderLines, o, s, firstId);
    OwnAll(created, s, o, firstId);
    OwnConcat(hit, created, s, o);
  }

  lemma {:induction false} OldRowsAreNotIts(
    lines: seq<SovLine>, orderLines: seq<OrderLine>, o: nat, s: nat, firstId: nat, id: nat)
    requires Unborn(lines, o) && id < firstId
    ensures NotCreatedBy(HitRows(lines, orderLines) + Creations(orderLines, o, s, firstId), id, o)
  {
    CreationsAre(orderLines, o, s, firstId);
    var hit := HitRows(lines, orderLines);
    forall k | 0 <= k < |hit| ensures hit[k].source == lines[k].source {
    }
  }

  // ---------------------------------------------------------------------------------------------
  // What keeps it standing
  // ---------------------------------------------------------------------------------------------

  // Steps that keep their hands off the rows an approved order created and adjusted.
  ghost predicate Minds(plan: Plan, step: Step, o: nat) {
    match step
    case Update(id, _, _) => NotCreatedBy(plan.lines, id, o)
    case Delete(id) =>
      && NotCreatedBy(plan.lines, id, o)
      && o < |plan.orders| && forall k :: 0 <= k < |plan.orders[o].lines| ==> plan.orders[o].lines[k].target != Some(id)
    case ApproveCo(other, _) => other < |plan.orders| ==> AdjustsOthers(plan.lines, o, plan.orders[other].lines)
    case VoidCo(other, _) => other < |plan.orders| ==> !plan.orders[other].status.OrderApproved?
    case _ => true
  }

  // Two tables in which the order finds the same rows of its making, and its target in the same place.
  ghost predicate ReadsAlike(now: seq<SovLine>, was: seq<SovLine>, o: nat, s: nat, target: Option<nat>) {
    Own(now, s, o) == Own(was, s, o) && (target.Some? ==> SameTarget(now, was, o, target.value))
  }

  // A target that a standing order may have.
  ghost predicate Foreign(lines: seq<SovLine>, o: nat, target: Option<nat>) {
    target.Some? ==> NotCreatedBy(lines, target.value, o)
  }

  lemma {:induction false} AppendReads(lines: seq<SovLine>, more: seq<SovLine>, o: nat, s: nat, target: Option<nat>)
    requires forall k :: 0 <= k < |more| ==> more[k].source != Some(o) || more[k].schedule != s
    requires forall k :: 0 <= k < |more| ==> target != Some(more[k].id)
    requires Foreign(lines, o, target)
    ensures ReadsAlike(lines + more, lines, o, s, target)
  {
    OwnConcat(lines, more, s, o);
    OwnNone(more, s, o);
    if target.Some? {
      FindSkips(lines, more, target.value);
    }
  }

  // Row for row the same ids, schedules and sources, and the very same rows where they are of the order's making.
  ghost predicate SameButFor(xs: seq<SovLine>, ys: seq<SovLine>, o: nat) {
    |xs| == |ys| && forall k :: 0 <= k < |xs| ==>
      && xs[k].id == ys[k].id && xs[k].schedule == ys[k].schedule && xs[k].source == ys[k].source
      && (xs[k].source == Some(o) ==> xs[k] == ys[k])
  }

  lemma {:induction false} SameOwn(xs: seq<SovLine>, ys: seq<SovLine>, s: nat, o: nat)
    requires SameButFor(xs, ys, o)
    ensures Own(xs, s, o) == Own(ys, s, o)
  {
    if |xs| > 0 {
      SameOwn(xs[..|xs| - 1], ys[..|ys| - 1], s, o);
    }
  }

  lemma {:induction false} SameReads(xs: seq<SovLine>, ys: seq<SovLine>, o: nat, s: nat, target: Option<nat>)
    requires SameButFor(xs, ys, o) && Foreign(ys, o, target)
    ensures ReadsAlike(xs, ys, o, s, target)
  {
    SameOwn(xs, ys, s, o);
    if target.Some? {
      SameSchedules(xs, ys, target.value);
      forall line | line in xs && line.id == target.value
        ensures line.source != Some(o)
      {
        var k :| 0 <= k < |xs| && xs[k] == line;
        assert ys[k] in ys;
      }
    }
  }

  lemma {:induction false} SameSchedules(xs: seq<SovLine>, ys: seq<SovLine>, id: nat)
    requires |xs| == |ys|
    requires forall k :: 0 <= k < |xs| ==> xs[k].id == ys[k].id && xs[k].schedule == ys[k].schedule
    ensures ScheduleOf(xs, id) == ScheduleOf(ys, id)
  {
    if |xs| > 0 {
      SameSchedules(xs[..|xs| - 1], ys[..|ys| - 1], id);
    }
  }

  lemma {:induction false} RewriteReads(
    lines: seq<SovLine>, id: nat, item: string, value: int, o: nat, s: nat, target: Option<nat>)
    requires NotCreatedBy(lines, id, o) && Foreign(lines, o, target)
    ensures ReadsAlike(Rewrite(lines, id, item, value), lines, o, s, target)
  {
    var next := Rewrite(lines, id, item, value);
    forall k | 0 <= k < |lines|
      ensures next[k] == (if lines[k].id == id
                          then lines[k].(item := Strip(item), base := value, current := value + lines[k].adjustment)
                          else lines[k])
      ensures lines[k].id == id ==> lines[k].source != Some(o)
    {
      RewriteRow(lines, id, item, value, k);
      assert lines[k] in lines;
    }
    SameReads(next, lines, o, s, target);
  }

  lemma {:induction false} RemoveReads(lines: seq<SovLine>, id: nat, o: nat, s: nat, target: Option<nat>)
    requires DistinctIds(lines) && NotCreatedBy(lines, id, o) && target != Some(id) && Foreign(lines, o, target)
    ensures ReadsAlike(Remove(lines, id), lines, o, s, target)
  {
    RemoveRows(lines, id);
    RemoveKeepsOwn(lines, id, s, o);
    if target.Some? {
      RemoveKeepsOthers(lines, id, target.value);
    }
  }

  lemma {:induction false} RemoveKeepsOwn(lines: seq<SovLine>, id: nat, s: nat, o: nat)
    requires NotCreatedBy(lines, id, o)
    ensures Own(Remove(lines, id), s, o) == Own(lines, s, o)
  {
    if |lines| > 0 {
      var n := |lines| - 1;
      NotCreatedEarlier(lines, id, o);
      RemoveKeepsOwn(lines[..n], id, s, o);
      OwnAppend(Remove(lines[..n], id), lines[n], s, o);
    }
  }

  lemma {:induction false} HitsNothing(orderLines: seq<OrderLine>, id: nat)
    requires forall k :: 0 <= k < |orderLines| ==> orderLines[k].target != Some(id)
    ensures Hits(orderLines, id) == 0
  {
    if |orderLines| > 0 {
      HitsNothing(orderLines[..|orderLines| - 1], id);
    }
  }

  lemma {:induction false} HitRowsRead(
    lines: seq<SovLine>, orderLines: seq<OrderLine>, o: nat, s: nat, target: Option<nat>)
    requires Derived(lines) && Foreign(lines, o, target) && AdjustsOthers(lines, o, orderLines)
    ensures ReadsAlike(HitRows(lines, orderLines), lines, o, s, target)
  {
    var next := HitRows(lines, orderLines);
    forall k | 0 <= k < |lines| && lines[k].source == Some(o)
      ensures next[k] == lines[k]
    {
      assert lines[k] in lines;
      HitsNothing(orderLines, lines[k].id);
    }
    SameReads(next, lines, o, s, target);
  }

  lemma {:induction false} ReadsChain(
    xs: seq<SovLine>, ys: seq<SovLine>, zs: seq<SovLine>, o: nat, s: nat, target: Option<nat>)
    requires ReadsAlike(xs, ys, o, s, target) && ReadsAlike(ys, zs, o, s, target)
    ensures ReadsAlike(xs, zs, o, s, target)
  {
  }

  lemma {:induction false} LandingReads(plan: Plan, other: nat, t: nat, o: nat, s: nat, target: Option<nat>)
    requires Sound(plan) && other < |plan.orders| && other != o && Minds(plan, ApproveCo(other, t), o)
    requires Land(plan, other, t, plan.orders[other].lines).Ok?
    requires Foreign(plan.lines, o, target) && (target.Some? ==> target.value < plan.nextId)
    ensures ReadsAlike(Land(plan, other, t, plan.orders[other].lines).value.lines, plan.lines, o, s, target)
  {
    var orderLines := plan.orders[other].lines;
    var hit, created := HitRows(plan.lines, orderLines), Creations(orderLines, other, t, plan.nextId);
    LandingMeans(plan, other, t, orderLines);
    HitRowsRead(plan.lines, orderLines, o, s, target);
    CreationsAre(orderLines, other, t, plan.nextId);
    AppendReads(hit, created, o, s, target);
    ReadsChain(hit + created, hit, plan.lines, o, s, target);
  }

  ghost predicate IsTarget(orderLines: seq<OrderLine>, target: Option<nat>) {
    target.Some? ==> exists k :: 0 <= k < |orderLines| && orderLines[k].target == target
  }

  lemma {:induction false} FoundIsBelow(plan: Plan, o: nat, target: Option<nat>)
    requires Sound(plan) && o < |plan.orders| && IsTarget(plan.orders[o].lines, target)
    ensures target.Some? ==> target.value < plan.nextId
  {
    if target.Some? {
      var k :| 0 <= k < |plan.orders[o].lines| && plan.orders[o].lines[k].target == target;
    }
  }

  lemma {:induction false} StepReads(plan: Plan, step: Step, o: nat, s: nat, target: Option<nat>)
    requires Sound(plan) && Minds(plan, step, o) && Try(plan, step).Ok? && s < |plan.schedules|
    requires o < |plan.orders| && plan.orders[o].status.OrderApproved? && IsTarget(plan.orders[o].lines, target)
    requires Foreign(plan.lines, o, target)
    ensures ReadsAlike(After(plan, step).lines, plan.lines, o, s, target)
  {
    FoundIsBelow(plan, o, target);
    match step
    case Add(_, _, _, _) => GrowthReads(plan, step, o, s, target);
    case Update(id, item, value) => RewriteReads(plan.lines, id, item, value, o, s, target);
    case Delete(id) => DeletionReads(plan, id, o, s, target);
    case Revise(_) => GrowthReads(plan, step, o, s, target);
    case ApproveCo(other, t) => LandingReads(plan, other, t, o, s, target);
    case _ =>
  }

  lemma {:induction false} GrowthReads(plan: Plan, step: Step, o: nat, s: nat, target: Option<nat>)
    requires (step.Add? || step.Revise?) && Try(plan, step).Ok? && s < |plan.schedules|
    requires Foreign(plan.lines, o, target) && (target.Some? ==> target.value < plan.nextId)
    ensures ReadsAlike(After(plan, step).lines, plan.lines, o, s, target)
  {
    match step
    case Add(t, item, value, _) =>
      NewRowsRead(plan, [SovLine(plan.nextId, t, Strip(item), value, 0, value, false, None)], o, s, target);
    case Revise(t) => NewRowsRead(plan, Copies(LinesOf(plan.lines, t), t + 1, plan.nextId), o, s, target);
  }

  lemma {:induction false} NewRowsRead(plan: Plan, more: seq<SovLine>, o: nat, s: nat, target: Option<nat>)
    requires Foreign(plan.lines, o, target) && (target.Some? ==> target.value < plan.nextId)
    requires forall k :: 0 <= k < |more| ==>
      more[k].id >= plan.nextId && (more[k].source != Some(o) || more[k].schedule != s)
    ensures ReadsAlike(plan.lines + more, plan.lines, o, s, target)
  {
    AppendReads(plan.lines, more, o, s, target);
  }

  lemma {:induction false} DeletionReads(plan: Plan, id: nat, o: nat, s: nat, target: Option<nat>)
    requires Sound(plan) && Minds(plan, Delete(id), o) && o < |plan.orders| && IsTarget(plan.orders[o].lines, target)
    requires Foreign(plan.lines, o, target)
    ensures ReadsAlike(Remove(plan.lines, id), plan.lines, o, s, target)
  {
    if target.Some? {
      var k :| 0 <= k < |plan.orders[o].lines| && plan.orders[o].lines[k].target == target;
    }
    RemoveReads(plan.lines, id, o, s, target);
  }

  /** An approved order goes on standing through every step that minds its rows. */
  lemma {:induction false} StandingOrderGoesOnStanding(plan: Plan, step: Step, o: nat, s: nat)
    requires Sound(plan) && Minds(plan, step, o) && s < |plan.schedules|
    requires o < |plan.orders| && plan.orders[o].status.OrderApproved?
    requires StandsHere(plan.lines, o, s, plan.orders[o].lines)
    ensures StandsHere(After(plan, step).lines, o, s, plan.orders[o].lines)
  {
    var orderLines, next := plan.orders[o].lines, After(plan, step);
    if Try(plan, step).Ok? {
      StepReads(plan, step, o, s, None);
      forall k | 0 <= k < |orderLines| && orderLines[k].target.Some?
        ensures SameTarget(next.lines, plan.lines, o, orderLines[k].target.value)
      {
        StepReads(plan, step, o, s, orderLines[k].target);
      }
    }
  }

  // ---------------------------------------------------------------------------------------------
  // Approving and voiding
  // ---------------------------------------------------------------------------------------------

  lemma {:induction false} FindCreatedConcat(xs: seq<SovLine>, ys: seq<SovLine>, s: nat, o: nat, item: string)
    ensures FindCreated(xs + ys, s, o, item)
      == if FindCreated(ys, s, o, item).Some? then FindCreated(ys, s, o, item) else FindCreated(xs, s, o, item)
  {
    if ys == [] {
      assert xs + ys == xs;
    } else {
      var n := |ys| - 1;
      FindCreatedConcat(xs, ys[..n], s, o, item);
      assert (xs + ys)[..|xs + ys| - 1] == xs + ys[..n];
    }
  }

  lemma {:induction false} FindCreatedNowhere(lines: seq<SovLine>, s: nat, o: nat, item: string)
    requires forall k :: 0 <= k < |lines| ==> lines[k].source != Some(o)
    ensures FindCreated(lines, s, o, item) == None
  {
    if |lines| > 0 {
      FindCreatedNowhere(lines[..|lines| - 1], s, o, item);
    }
  }

  lemma {:induction false} RemoveConcat(xs: seq<SovLine>, ys: seq<SovLine>, id: nat)
    ensures Remove(xs + ys, id) == Remove(xs, id) + Remove(ys, id)
  {
    if ys == [] {
      assert xs + ys == xs;
    } else {
      var n := |ys| - 1;
      RemoveConcat(xs, ys[..n], id);
      assert (xs + ys)[..|xs + ys| - 1] == xs + ys[..n];
    }
  }

  // One more order line off the rows that were there before.
  lemma {:induction false} OneLessHit(lines: seq<SovLine>, orderLines: seq<OrderLine>, n: nat)
    requires n < |orderLines|
    ensures orderLines[n].target.Some? ==>
      Adjust(StillHit(lines, orderLines, n), orderLines[n].target.value, -orderLines[n].amount)
      == StillHit(lines, orderLines, n + 1)
    ensures orderLines[n].target.None? ==> StillHit(lines, orderLines, n) == StillHit(lines, orderLines, n + 1)
  {
    assert orderLines[..n + 1][..n] == orderLines[..n];
    if orderLines[n].target.Some? {
      var hit, id, amount := StillHit(lines, orderLines, n), orderLines[n].target.value, -orderLines[n].amount;
      var next := Adjust(hit, id, amount);
      forall k | 0 <= k < |lines|
        ensures next[k] == StillHit(lines, orderLines, n + 1)[k]
      {
        AdjustRow(hit, id, amount, k);
      }
    }
  }

  // The table once the first n lines of a landed order have been backed out.
  function Partly(lines: seq<SovLine>, orderLines: seq<OrderLine>, n: nat, o: nat, s: nat, firstId: nat): seq<SovLine>
    requires n <= |orderLines|
  {
    StillHit(lines, orderLines, n) + Left(Creations(orderLines, o, s, firstId), Wanted(orderLines[..n]))
  }

  lemma {:induction false} LeftMade(rows: seq<SovLine>, wanted: multiset<string>, s: nat, o: nat, firstId: nat)
    requires Made(rows, s, o, firstId)
    ensures Made(Left(rows, wanted), s, o, firstId)
  {
    if |rows| > 0 {
      var n := |rows| - 1;
      LeftMade(rows[..n], wanted, s, o, firstId);
      LeftMade(rows[..n], wanted - multiset{rows[n].item}, s, o, firstId);
    }
  }

  // Among rows of its making, the row a creating line finds is the last one under its number.
  lemma {:induction false} MadeComeOff(rows: seq<SovLine>, s: nat, o: nat, firstId: nat, item: string)
    requires Made(rows, s, o, firstId) && DistinctIds(rows)
    ensures var found := FindCreated(rows, s, o, item);
      && (found.None? ==> DropLast(rows, item) == rows)
      && (found.Some? ==> found.value.id >= firstId && Remove(rows, found.value.id) == DropLast(rows, item))
  {
    var found := FindCreated(rows, s, o, item);
    OwnAll(rows, s, o, firstId);
    if found.None? {
      NothingToDrop(rows, s, o, item);
    } else {
      FindCreatedMeans(rows, s, o, item);
      FoundIsDropped(rows, s, o, item);
      RemoveMade(rows, found.value.id, s, o, firstId);
      OwnAll(Remove(rows, found.value.id), s, o, firstId);
    }
  }

  lemma {:induction false} RemoveMade(rows: seq<SovLine>, id: nat, s: nat, o: nat, firstId: nat)
    requires Made(rows, s, o, firstId)
    ensures Made(Remove(rows, id), s, o, firstId)
  {
    if |rows| > 0 {
      RemoveMade(rows[..|rows| - 1], id, s, o, firstId);
    }
  }

  lemma {:induction false} LastComesOff(
    there: seq<SovLine>, rest: seq<SovLine>, o: nat, s: nat, line: OrderLine, firstId: nat)
    requires Before(there, o, firstId) && Made(rest, s, o, firstId) && DistinctIds(rest) && line.target.None?
    ensures BackOutOne(there + rest, o, s, line) == there + DropLast(rest, line.newItem)
  {
    FindCreatedNowhere(there, s, o, line.newItem);
    FindCreatedConcat(there, rest, s, o, line.newItem);
    MadeComeOff(rest, s, o, firstId, line.newItem);
    var found := FindCreated(rest, s, o, line.newItem);
    if found.Some? {
      RemoveConcat(there, rest, found.value.id);
      RemoveAbsent(there, found.value.id);
    }
  }

  // Rows from before the order, none of its making.
  ghost predicate Before(lines: seq<SovLine>, o: nat, firstId: nat) {
    forall k :: 0 <= k < |lines| ==> lines[k].id < firstId && lines[k].source != Some(o)
  }

  lemma {:induction false} OneCreationLess(
    lines: seq<SovLine>, orderLines: seq<OrderLine>, n: nat, o: nat, s: nat, firstId: nat)
    requires Before(lines, o, firstId) && n < |orderLines| && orderLines[n].target.None?
    requires DistinctIds(Left(Creations(orderLines, o, s, firstId), Wanted(orderLines[..n])))
    ensures BackOutOne(Partly(lines, orderLines, n, o, s, firstId), o, s, orderLines[n])
      == Partly(lines, orderLines, n + 1, o, s, firstId)
  {
    var created, there := Creations(orderLines, o, s, firstId), StillHit(lines, orderLines, n);
    assert orderLines[..n + 1][..n] == orderLines[..n];
    OneMoreGoes(created, Wanted(orderLines[..n]), orderLines[n].newItem);
    OneLessHit(lines, orderLines, n);
    CreationsAre(orderLines, o, s, firstId);
    LeftMade(created, Wanted(orderLines[..n]), s, o, firstId);
    assert forall k :: 0 <= k < |there| ==> there[k].id == lines[k].id && there[k].source == lines[k].source;
    LastComesOff(there, Left(created, Wanted(orderLines[..n])), o, s, orderLines[n], firstId);
  }

  lemma {:induction false} AdjustsOnlyThere(there: seq<SovLine>, rest: seq<SovLine>, id: nat, amount: int)
    requires forall k :: 0 <= k < |rest| ==> rest[k].id != id
    ensures Adjust(there + rest, id, amount) == Adjust(there, id, amount) + rest
  {
    AdjustConcat(there, rest, id, amount);
    AdjustNothing(rest, id, amount);
  }

  lemma {:induction false} OneTargetLess(
    lines: seq<SovLine>, orderLines: seq<OrderLine>, n: nat, o: nat, s: nat, firstId: nat)
    requires n < |orderLines| && orderLines[n].target.Some? && orderLines[n].target.value < firstId
    ensures BackOutOne(Partly(lines, orderLines, n, o, s, firstId), o, s, orderLines[n])
      == Partly(lines, orderLines, n + 1, o, s, firstId)
  {
    var rest, line := Left(Creations(orderLines, o, s, firstId), Wanted(orderLines[..n])), orderLines[n];
    assert orderLines[..n + 1][..n] == orderLines[..n];
    OneLessHit(lines, orderLines, n);
    CreationsAre(orderLines, o, s, firstId);
    LeftMade(Creations(orderLines, o, s, firstId), Wanted(orderLines[..n]), s, o, firstId);
    AdjustsOnlyThere(StillHit(lines, orderLines, n), rest, line.target.value, -line.amount);
  }

  lemma {:induction false} LeftDistinct(rows: seq<SovLine>, wanted: multiset<string>)
    requires DistinctIds(rows)
    ensures DistinctIds(Left(rows, wanted))
    ensures forall k :: 0 <= k < |Left(rows, wanted)| ==> Left(rows, wanted)[k] in rows
  {
    if |rows| > 0 {
      var n := |rows| - 1;
      assert forall row :: row in rows[..n] ==> row in rows;
      if rows[n].item in wanted {
        LeftDistinct(rows[..n], wanted - multiset{rows[n].item});
      } else {
        LeftDistinct(rows[..n], wanted);
      }
    }
  }

  lemma {:induction false} BackingOutPartly(
    lines: seq<SovLine>, orderLines: seq<OrderLine>, n: nat, o: nat, s: nat, firstId: nat)
    requires Before(lines, o, firstId) && TargetsBelow(orderLines, firstId) && n <= |orderLines|
    ensures BackOut(HitRows(lines, orderLines) + Creations(orderLines, o, s, firstId), o, s, orderLines[..n])
      == Partly(lines, orderLines, n, o, s, firstId)
  {
    if n == 0 {
      LeftWithNothingWanted(Creations(orderLines, o, s, firstId));
      assert orderLines[..0] == [] && HitRows(lines, orderLines) == StillHit(lines, orderLines, 0);
    } else {
      BackingOutPartly(lines, orderLines, n - 1, o, s, firstId);
      assert orderLines[..n][..n - 1] == orderLines[..n - 1];
      if orderLines[n - 1].target.Some? {
        OneTargetLess(lines, orderLines, n - 1, o, s, firstId);
      } else {
        CreationsAre(orderLines, o, s, firstId);
        LeftDistinct(Creations(orderLines, o, s, firstId), Wanted(orderLines[..n - 1]));
        OneCreationLess(lines, orderLines, n - 1, o, s, firstId);
      }
    }
  }

  lemma {:induction false} BackingOutRestores(
    lines: seq<SovLine>, orderLines: seq<OrderLine>, o: nat, s: nat, firstId: nat)
    requires Before(lines, o, firstId) && TargetsBelow(orderLines, firstId) && Derived(lines)
    ensures BackOut(HitRows(lines, orderLines) + Creations(orderLines, o, s, firstId), o, s, orderLines) == lines
  {
    var n := |orderLines|;
    BackingOutPartly(lines, orderLines, n, o, s, firstId);
    assert orderLines[..n] == orderLines;
    CreationsBearNumbers(orderLines, o, s, firstId);
    AllGone(Creations(orderLines, o, s, firstId), Wanted(orderLines));
    assert StillHit(lines, orderLines, n) == lines;
  }

  /** Approving an order and then voiding it leaves the table of lines exactly as it was, row for row. */
  lemma {:induction false} ApproveThenVoidRestores(plan: Plan, o: nat, s: nat, approved: Plan, voided: Plan)
    requires Sound(plan) && SourcesKnown(plan)
    requires ApproveOrder(plan, o, s) == Ok(approved) && VoidOrder(approved, o, s) == Ok(voided)
    ensures voided.lines == plan.lines && voided.schedules == plan.schedules
    ensures voided.orders == plan.orders[o := plan.orders[o].(status := OrderVoid)]
  {
    var orderLines := plan.orders[o].lines;
    ApprovalIs(plan, o, s, approved);
    BackingOutRestores(plan.lines, orderLines, o, s, plan.nextId);
  }

  lemma {:induction false} ApprovalIs(plan: Plan, o: nat, s: nat, approved: Plan)
    requires Sound(plan) && ApproveOrder(plan, o, s) == Ok(approved)
    ensures var orderLines := plan.orders[o].lines;
      && approved.lines == HitRows(plan.lines, orderLines) + Creations(orderLines, o, s, plan.nextId)
      && approved.orders == WithStatus(plan.orders, o, OrderApproved) && approved.schedules == plan.schedules
  {
    LandingMeans(plan, o, s, plan.orders[o].lines);
    LandingLands(plan, o, s, plan.orders[o].lines);
  }

  // ---------------------------------------------------------------------------------------------
  // Which row a void finds
  // ---------------------------------------------------------------------------------------------

  /**
   * One line backed out by a lookup that promises no order: of several rows of the order's making under one item
   * number, any may be the one it finds.
   */
  ghost predicate TakesOff(lines: seq<SovLine>, o: nat, s: nat, line: OrderLine, next: seq<SovLine>) {
    match line.target
    case Some(id) => next == Adjust(lines, id, -line.amount)
    case None =>
      if FindCreated(lines, s, o, line.newItem).None? then next == lines
      else exists k :: 0 <= k < |lines| && IsCreated(lines[k], s, o, line.newItem) && next == Remove(lines, lines[k].id)
  }

  // The tables of one void, from the first line of the order to the last.
  ghost predicate IsVoiding(tables: seq<seq<SovLine>>, o: nat, s: nat, orderLines: seq<OrderLine>) {
    && |tables| == |orderLines| + 1
    && forall n :: 0 <= n < |orderLines| ==> TakesOff(tables[n], o, s, orderLines[n], tables[n + 1])
  }

  // The rows that are not of the order's making, and what becomes of them.
  function Rest(lines: seq<SovLine>, s: nat, o: nat): seq<SovLine> {
    if |lines| == 0 then []
    else
      var rest, last := Rest(lines[..|lines| - 1], s, o), lines[|lines| - 1];
      if last.schedule == s && last.source == Some(o) then rest else rest + [last]
  }

  function AdjustedBack(lines: seq<SovLine>, orderLines: seq<OrderLine>): seq<SovLine> {
    if |orderLines| == 0 then lines
    else
      var rest, last := AdjustedBack(lines, orderLines[..|orderLines| - 1]), orderLines[|orderLines| - 1];
      if last.target.Some? then Adjust(rest, last.target.value, -last.amount) else rest
  }

  lemma {:induction false} RestAppend(lines: seq<SovLine>, line: SovLine, s: nat, o: nat)
    ensures Rest(lines + [line], s, o)
      == if line.schedule == s && line.source == Some(o) then Rest(lines, s, o) else Rest(lines, s, o) + [line]
  {
    assert (lines + [line])[..|lines|] == lines;
  }

  lemma {:induction false} AdjustRest(lines: seq<SovLine>, id: nat, amount: int, s: nat, o: nat)
    ensures Rest(Adjust(lines, id, amount), s, o) == Adjust(Rest(lines, s, o), id, amount)
  {
    if |lines| > 0 {
      var n := |lines| - 1;
      var last := if lines[n].id == id then Adjusted(lines[n], amount) else lines[n];
      AdjustRest(lines[..n], id, amount, s, o);
      RestAppend(Adjust(lines[..n], id, amount), last, s, o);
      AdjustAppend(Rest(lines[..n], s, o), lines[n], id, amount);
    }
  }

  lemma {:induction false} AdjustAppend(lines: seq<SovLine>, line: SovLine, id: nat, amount: int)
    ensures Adjust(lines + [line], id, amount)
      == Adjust(lines, id, amount) + [if line.id == id then Adjusted(line, amount) else line]
  {
    assert (lines + [line])[..|lines|] == lines;
  }

  lemma {:induction false} RemoveEarlier(lines: seq<SovLine>, k: nat)
    requires DistinctIds(lines) && k < |lines| - 1
    ensures Remove(lines, lines[k].id) == Remove(lines[..|lines| - 1], lines[k].id) + [lines[|lines| - 1]]
  {
    assert lines[k].id != lines[|lines| - 1].id;
  }

  // Removing any one row of the order's making leaves the rest alone, and takes its number off.
  lemma {:induction false} RemoveOwnKeepsRest(lines: seq<SovLine>, s: nat, o: nat, k: nat)
    requires DistinctIds(lines) && k < |lines| && lines[k].schedule == s && lines[k].source == Some(o)
    ensures Rest(Remove(lines, lines[k].id), s, o) == Rest(lines, s, o)
  {
    var n := |lines| - 1;
    if k == n {
      RemoveAbsent(lines[..n], lines[n].id);
    } else {
      RemoveOwnKeepsRest(lines[..n], s, o, k);
      RemoveEarlier(lines, k);
      RestAppend(Remove(lines[..n], lines[k].id), lines[n], s, o);
    }
  }

  lemma {:induction false} RemoveOwnTakesNumber(lines: seq<SovLine>, s: nat, o: nat, k: nat)
    requires DistinctIds(lines) && k < |lines| && lines[k].schedule == s && lines[k].source == Some(o)
    ensures Numbers(Own(lines, s, o)) == Numbers(Own(Remove(lines, lines[k].id), s, o)) + multiset{lines[k].item}
  {
    var n := |lines| - 1;
    if k == n {
      RemoveAbsent(lines[..n], lines[n].id);
      NumbersAppend(Own(lines[..n], s, o), lines[n]);
    } else {
      var there, last, rest := lines[..n], lines[n], Remove(lines[..n], lines[k].id);
      RemoveOwnTakesNumber(there, s, o, k);
      RemoveEarlier(lines, k);
      assert lines == there + [last];
      OneNumberLess(there, rest, last, s, o, lines[k].item);
    }
  }

  lemma {:induction false} OneNumberLess(
    lines: seq<SovLine>, fewer: seq<SovLine>, line: SovLine, s: nat, o: nat, item: string)
    requires Numbers(Own(lines, s, o)) == Numbers(Own(fewer, s, o)) + multiset{item}
    ensures Numbers(Own(lines + [line], s, o)) == Numbers(Own(fewer + [line], s, o)) + multiset{item}
  {
    OneMoreNumber(lines, line, s, o);
    OneMoreNumber(fewer, line, s, o);
  }

  lemma {:induction false} OneMoreNumber(lines: seq<SovLine>, line: SovLine, s: nat, o: nat)
    ensures Numbers(Own(lines + [line], s, o)) == Numbers(Own(lines, s, o))
      + if line.schedule == s && line.source == Some(o) then multiset{line.item} else multiset{}
  {
    OwnAppend(lines, line, s, o);
    NumbersAppend(Own(lines, s, o), line);
  }

  lemma {:induction false} NotFoundNotOwn(lines: seq<SovLine>, s: nat, o: nat, item: string)
    requires FindCreated(lines, s, o, item).None?
    ensures item !in Numbers(Own(lines, s, o))
  {
    if |lines| > 0 {
      NotFoundNotOwn(lines[..|lines| - 1], s, o, item);
      NumbersAppend(Own(lines[..|lines| - 1], s, o), lines[|lines| - 1]);
    }
  }

  // What has come off after some lines, whichever rows they found.
  ghost predicate HasComeOff(now: seq<SovLine>, was: seq<SovLine>, o: nat, s: nat, done: seq<OrderLine>) {
    && Rest(now, s, o) == AdjustedBack(Rest(was, s, o), done)
    && Numbers(Own(now, s, o)) == Numbers(Own(was, s, o)) - Wanted(done)
  }

  lemma {:induction false} TargetComesOff(
    lines: seq<SovLine>, was: seq<SovLine>, o: nat, s: nat, done: seq<OrderLine>, line: OrderLine)
    requires HasComeOff(lines, was, o, s, done)
    requires line.target.Some? && NotCreatedBy(lines, line.target.value, o)
    ensures HasComeOff(Adjust(lines, line.target.value, -line.amount), was, o, s, done + [line])
  {
    TargetLeavesRest(lines, Rest(was, s, o), o, s, done, line);
    TargetLeavesOwn(lines, o, s, done, line);
  }

  lemma {:induction false} TargetLeavesRest(
    lines: seq<SovLine>, rest: seq<SovLine>, o: nat, s: nat, done: seq<OrderLine>, line: OrderLine)
    requires Rest(lines, s, o) == AdjustedBack(rest, done) && line.target.Some?
    ensures Rest(Adjust(lines, line.target.value, -line.amount), s, o) == AdjustedBack(rest, done + [line])
  {
    AdjustRest(lines, line.target.value, -line.amount, s, o);
    assert (done + [line])[..|done|] == done;
  }

  lemma {:induction false} TargetLeavesOwn(
    lines: seq<SovLine>, o: nat, s: nat, done: seq<OrderLine>, line: OrderLine)
    requires line.target.Some? && NotCreatedBy(lines, line.target.value, o)
    ensures Own(Adjust(lines, line.target.value, -line.amount), s, o) == Own(lines, s, o)
    ensures Wanted(done + [line]) == Wanted(done)
  {
    AdjustKeepsOwn(lines, line.target.value, -line.amount, s, o);
    assert (done + [line])[..|done|] == done;
  }

  lemma {:induction false} AdjustKeepsIds(lines: seq<SovLine>, id: nat, amount: int)
    requires DistinctIds(lines)
    ensures DistinctIds(Adjust(lines, id, amount))
  {
    var next := Adjust(lines, id, amount);
    forall k | 0 <= k < |lines| ensures next[k].id == lines[k].id {
      AdjustRow(lines, id, amount, k);
    }
  }

  lemma {:induction false} RowComesOff(
    lines: seq<SovLine>, was: seq<SovLine>, o: nat, s: nat, done: seq<OrderLine>, line: OrderLine, next: seq<SovLine>)
    requires DistinctIds(lines) && HasComeOff(lines, was, o, s, done)
    requires line.target.None? && TakesOff(lines, o, s, line, next)
    ensures HasComeOff(next, was, o, s, done + [line])
  {
    CreatingLineAppends(Rest(was, s, o), done, line);
    if FindCreated(lines, s, o, line.newItem).None? {
      NotFoundNotOwn(lines, s, o, line.newItem);
    } else {
      var k :| 0 <= k < |lines| && IsCreated(lines[k], s, o, line.newItem) && next == Remove(lines, lines[k].id);
      RemoveOwnKeepsRest(lines, s, o, k);
      RemoveOwnTakesNumber(lines, s, o, k);
    }
    OneMoreTaken(
      Numbers(Own(lines, s, o)), Numbers(Own(next, s, o)), Numbers(Own(was, s, o)), Wanted(done), line.newItem);
  }

  lemma {:induction false} CreatingLineAppends(rest: seq<SovLine>, done: seq<OrderLine>, line: OrderLine)
    requires line.target.None?
    ensures Wanted(done + [line]) == Wanted(done) + multiset{line.newItem}
    ensures AdjustedBack(rest, done + [line]) == AdjustedBack(rest, done)
  {
    assert (done + [line])[..|done|] == done;
  }

  lemma {:induction false} OneMoreTaken(
    now: multiset<string>, next: multiset<string>, was: multiset<string>, wanted: multiset<string>, item: string)
    requires now == was - wanted
    requires (item !in now && next == now) || now == next + multiset{item}
    ensures next == was - (wanted + multiset{item})
  {
    assert now[item] == if was[item] <= wanted[item] then 0 else was[item] - wanted[item];
    assert forall other :: other != item ==> next[other] == now[other];
  }

  lemma {:induction false} OneLineTraced(
    lines: seq<SovLine>, o: nat, s: nat, line: OrderLine, next: seq<SovLine>, firstId: nat)
    requires DistinctIds(lines) && TakesOff(lines, o, s, line, next)
    ensures DistinctIds(next) && Traced(next, lines, firstId)
  {
    FewerTraced(lines, lines, firstId);
    if line.target.Some? {
      AdjustKeepsIds(lines, line.target.value, -line.amount);
      AdjustTraced(lines, line.target.value, -line.amount, firstId);
    } else if FindCreated(lines, s, o, line.newItem).Some? {
      var k :| 0 <= k < |lines| && IsCreated(lines[k], s, o, line.newItem) && next == Remove(lines, lines[k].id);
      RemoveRows(lines, lines[k].id);
      RemoveTraced(lines, lines[k].id, firstId);
    }
  }

  lemma {:induction false} VoidingTakesOff(
    tables: seq<seq<SovLine>>, o: nat, s: nat, orderLines: seq<OrderLine>, n: nat, firstId: nat)
    requires IsVoiding(tables, o, s, orderLines) && n <= |orderLines| && DistinctIds(tables[0])
    requires AdjustsOthers(tables[0], o, orderLines) && TargetsBelow(orderLines, firstId)
    ensures DistinctIds(tables[n]) && AdjustsOthers(tables[n], o, orderLines)
    ensures HasComeOff(tables[n], tables[0], o, s, orderLines[..n])
  {
    if n > 0 {
      var m := n - 1;
      VoidingTakesOff(tables, o, s, orderLines, m, firstId);
      assert TakesOff(tables[m], o, s, orderLines[m], tables[m + 1]);
      OneLineTraced(tables[m], o, s, orderLines[m], tables[n], firstId);
      TracedKeepsOthers(tables[n], tables[m], o, orderLines, firstId);
      assert orderLines[..n] == orderLines[..m] + [orderLines[m]];
      LineComesOff(tables[m], tables[0], o, s, orderLines[..m], orderLines[m], tables[n]);
    }
  }

  lemma {:induction false} LineComesOff(
    lines: seq<SovLine>, was: seq<SovLine>, o: nat, s: nat, done: seq<OrderLine>, line: OrderLine, next: seq<SovLine>)
    requires DistinctIds(lines) && HasComeOff(lines, was, o, s, done) && TakesOff(lines, o, s, line, next)
    requires line.target.Some? ==> NotCreatedBy(lines, line.target.value, o)
    ensures HasComeOff(next, was, o, s, done + [line])
  {
    if line.target.Some? {
      TargetComesOff(lines, was, o, s, done, line);
    } else {
      RowComesOff(lines, was, o, s, done, line, next);
    }
  }

  lemma {:induction false} NoneOwnIsRest(lines: seq<SovLine>, s: nat, o: nat)
    requires Numbers(Own(lines, s, o)) == multiset{}
    ensures Rest(lines, s, o) == lines
  {
    if |lines| > 0 {
      NumbersAppend(Own(lines[..|lines| - 1], s, o), lines[|lines| - 1]);
      NoneOwnIsRest(lines[..|lines| - 1], s, o);
    }
  }

  // The model takes the last row: that is one of the ways.
  lemma {:induction false} BackOutTakesOff(lines: seq<SovLine>, o: nat, s: nat, line: OrderLine)
    ensures TakesOff(lines, o, s, line, BackOutOne(lines, o, s, line))
  {
    if line.target.None? && FindCreated(lines, s, o, line.newItem).Some? {
      FindCreatedMeans(lines, s, o, line.newItem);
      var k :| 0 <= k < |lines| && lines[k] == FindCreated(lines, s, o, line.newItem).value;
    }
  }

  function Voiding(lines: seq<SovLine>, o: nat, s: nat, orderLines: seq<OrderLine>): (r: seq<seq<SovLine>>)
    ensures |r| == |orderLines| + 1
  {
    seq(|orderLines| + 1, n requires 0 <= n <= |orderLines| => BackOut(lines, o, s, orderLines[..n]))
  }

  lemma {:induction false} VoidingIsVoiding(lines: seq<SovLine>, o: nat, s: nat, orderLines: seq<OrderLine>)
    ensures IsVoiding(Voiding(lines, o, s, orderLines), o, s, orderLines)
  {
    var tables := Voiding(lines, o, s, orderLines);
    forall n | 0 <= n < |orderLines|
      ensures TakesOff(tables[n], o, s, orderLines[n], tables[n + 1])
    {
      assert orderLines[..n + 1][..n] == orderLines[..n];
      BackOutTakesOff(tables[n], o, s, orderLines[n]);
    }
  }

  /**
   * A void of an order with no more rows of its making under any number than it creates lines, as an approval leaves
   * it, ends in the same table whichever rows its lookups find.
   */
  lemma {:induction false} AnyRowWillDo(
    plan: Plan, o: nat, s: nat, orderLines: seq<OrderLine>, tables: seq<seq<SovLine>>)
    requires RowsOk(plan) && TargetsBelow(orderLines, plan.nextId) && AdjustsOthers(plan.lines, o, orderLines)
    requires Numbers(Own(plan.lines, s, o)) <= Wanted(orderLines)
    requires IsVoiding(tables, o, s, orderLines) && tables[0] == plan.lines
    ensures tables[|orderLines|] == BackOut(plan.lines, o, s, orderLines)
  {
    var n, usual := |orderLines|, Voiding(plan.lines, o, s, orderLines);
    VoidingIsVoiding(plan.lines, o, s, orderLines);
    assert orderLines[..0] == [] && orderLines[..n] == orderLines && usual[0] == plan.lines;
    VoidingTakesOff(tables, o, s, orderLines, n, plan.nextId);
    VoidingTakesOff(usual, o, s, orderLines, n, plan.nextId);
    NoneOwnIsRest(tables[n], s, o);
    NoneOwnIsRest(usual[n], s, o);
  }
}
