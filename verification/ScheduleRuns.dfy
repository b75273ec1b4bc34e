/** The two routes to G702 line 2 agree, over every run of edits, revisions, approvals and voids. */
module ScheduleRuns {
  import opened MoneyText
  import opened Outcomes
  import opened Schedules

  // ---------------------------------------------------------------------------------------------
  // Rows
  // ---------------------------------------------------------------------------------------------

  ghost predicate DistinctIds(lines: seq<SovLine>) {
    forall j, k :: 0 <= j < k < |lines| ==> lines[j].id != lines[k].id
  }

  // Everything a table of lines must satisfy: fresh ids, known schedules, current = base + adjustment.
  ghost predicate RowsOk(plan: Plan) {
    && DistinctIds(plan.lines)
    && (forall k :: 0 <= k < |plan.lines| ==>
          && plan.lines[k].id < plan.nextId
          && plan.lines[k].schedule < |plan.schedules|
          && plan.lines[k].current == plan.lines[k].base + plan.lines[k].adjustment)
  }

  /** All revisions are superseded except the newest, which is a draft or approved. */
  ghost predicate OneLive(schedules: seq<ScheduleStatus>) {
    forall s :: 0 <= s < |schedules| ==> (schedules[s].Superseded? <==> s + 1 < |schedules|)
  }

  ghost predicate OrdersOk(plan: Plan) {
    forall o :: 0 <= o < |plan.orders| ==>
      && plan.orders[o].amount == LineTotal(plan.orders[o].lines)
      && TargetsBelow(plan.orders[o].lines, plan.nextId)
  }

  ghost predicate TargetsBelow(lines: seq<OrderLine>, n: nat) {
    forall k :: 0 <= k < |lines| && lines[k].target.Some? ==> lines[k].target.value < n
  }

  ghost predicate Sound(plan: Plan) {
    RowsOk(plan) && OneLive(plan.schedules) && OrdersOk(plan)
  }

  /** The approved change orders and the adjustments on the newest schedule come to the same number. */
  ghost predicate Tied(plan: Plan) {
    ApprovedTotal(plan.orders) ==
      if |plan.schedules| == 0 then 0 else AdjustmentTotal(plan, |plan.schedules| - 1)
  }

  lemma {:induction false} FindMeans(lines: seq<SovLine>, id: nat)
    ensures Find(lines, id).Some? ==> Find(lines, id).value in lines && Find(lines, id).value.id == id
    ensures Find(lines, id).None? ==> forall k :: 0 <= k < |lines| ==> lines[k].id != id
  {
    if |lines| > 0 {
      FindMeans(lines[..|lines| - 1], id);
    }
  }

  lemma SameIdSameRow(lines: seq<SovLine>, j: nat, k: nat)
    requires DistinctIds(lines) && j < |lines| && k < |lines| && lines[j].id == lines[k].id
    ensures j == k
  {
  }

  lemma FoundRow(lines: seq<SovLine>, id: nat, k: nat)
    requires DistinctIds(lines) && k < |lines| && lines[k].id == id
    ensures Find(lines, id) == Some(lines[k])
  {
    FindMeans(lines, id);
    var found := Find(lines, id);
    var j :| 0 <= j < |lines| && lines[j] == found.value;
    SameIdSameRow(lines, j, k);
  }

  lemma {:induction false} AdjustRow(lines: seq<SovLine>, id: nat, amount: int, k: nat)
    requires k < |lines|
    ensures Adjust(lines, id, amount)[k] == if lines[k].id == id then Adjusted(lines[k], amount) else lines[k]
  {
    if k < |lines| - 1 {
      AdjustRow(lines[..|lines| - 1], id, amount, k);
    }
  }

  lemma {:induction false} RewriteRow(lines: seq<SovLine>, id: nat, item: string, value: int, k: nat)
    requires k < |lines|
    ensures Rewrite(lines, id, item, value)[k] ==
      if lines[k].id == id then lines[k].(item := Strip(item), base := value, current := value + lines[k].adjustment)
      else lines[k]
  {
    if k < |lines| - 1 {
      RewriteRow(lines[..|lines| - 1], id, item, value, k);
    }
  }

  lemma {:induction false} RemoveMembers(lines: seq<SovLine>, id: nat)
    ensures forall line :: line in Remove(lines, id) <==> line in lines && line.id != id
  {
    if |lines| > 0 {
      var n := |lines| - 1;
      RemoveMembers(lines[..n], id);
      assert lines == lines[..n] + [lines[n]];
    }
  }

  lemma {:induction false} RemoveRows(lines: seq<SovLine>, id: nat)
    requires DistinctIds(lines)
    ensures forall line :: line in Remove(lines, id) <==> line in lines && line.id != id
    ensures DistinctIds(Remove(lines, id))
  {
    RemoveMembers(lines, id);
    if |lines| > 0 {
      var n := |lines| - 1;
      RemoveRows(lines[..n], id);
      var rest := Remove(lines[..n], id);
      forall k | 0 <= k < |rest| ensures rest[k].id != lines[n].id {
        assert rest[k] in rest;
        var j :| 0 <= j < n && lines[j] == rest[k];
      }
    }
  }

  // ---------------------------------------------------------------------------------------------
  // Totals
  // ---------------------------------------------------------------------------------------------

  lemma {:induction false} TotalConcat(xs: seq<SovLine>, ys: seq<SovLine>, s: nat, measure: Measure)
    ensures Total(xs + ys, s, measure) == Total(xs, s, measure) + Total(ys, s, measure)
  {
    if ys == [] {
      assert xs + ys == xs;
    } else {
      var n := |ys| - 1;
      TotalConcat(xs, ys[..n], s, measure);
      assert (xs + ys)[..|xs + ys| - 1] == xs + ys[..n];
    }
  }

  lemma TotalOne(line: SovLine, s: nat, measure: Measure)
    ensures Total([line], s, measure) == if line.schedule == s then Amount(line, measure) else 0
  {
    assert Total([line][..0], s, measure) == 0;
  }

  function On(line: Option<SovLine>, s: nat, measure: Measure): int {
    if line.Some? && line.value.schedule == s then Amount(line.value, measure) else 0
  }

  lemma {:induction false} TotalAdjust(lines: seq<SovLine>, id: nat, amount: int, s: nat)
    requires DistinctIds(lines)
    ensures Total(Adjust(lines, id, amount), s, Adjustment) == Total(lines, s, Adjustment)
      + if Find(lines, id).Some? && Find(lines, id).value.schedule == s then amount else 0
  {
    if |lines| > 0 {
      var n := |lines| - 1;
      TotalAdjust(lines[..n], id, amount, s);
      assert Adjust(lines, id, amount)[..n] == Adjust(lines[..n], id, amount);
      if lines[n].id == id {
        FindMeans(lines[..n], id);
      }
    }
  }

  lemma {:induction false} AdjustKeepsBase(lines: seq<SovLine>, id: nat, amount: int, s: nat)
    ensures Total(Adjust(lines, id, amount), s, Base) == Total(lines, s, Base)
  {
    if |lines| > 0 {
      var n := |lines| - 1;
      AdjustKeepsBase(lines[..n], id, amount, s);
      assert Adjust(lines, id, amount)[..n] == Adjust(lines[..n], id, amount);
    }
  }

  lemma {:induction false} TotalRemove(lines: seq<SovLine>, id: nat, s: nat, measure: Measure)
    requires DistinctIds(lines)
    ensures Total(Remove(lines, id), s, measure) == Total(lines, s, measure) - On(Find(lines, id), s, measure)
  {
    if |lines| > 0 {
      var n := |lines| - 1;
      var rest := Remove(lines[..n], id);
      TotalRemove(lines[..n], id, s, measure);
      if lines[n].id == id {
        FindMeans(lines[..n], id);
      } else {
        TotalConcat(rest, [lines[n]], s, measure);
        TotalOne(lines[n], s, measure);
      }
    }
  }

  lemma {:induction false} TotalRewrite(lines: seq<SovLine>, id: nat, item: string, value: int, s: nat)
    ensures Total(Rewrite(lines, id, item, value), s, Adjustment) == Total(lines, s, Adjustment)
  {
    if |lines| > 0 {
      var n := |lines| - 1;
      TotalRewrite(lines[..n], id, item, value, s);
      assert Rewrite(lines, id, item, value)[..n] == Rewrite(lines[..n], id, item, value);
    }
  }

  lemma {:induction false} TotalOfLines(lines: seq<SovLine>, s: nat, measure: Measure)
    ensures Total(LinesOf(lines, s), s, measure) == Total(lines, s, measure)
  {
    if |lines| > 0 {
      var n := |lines| - 1;
      TotalOfLines(lines[..n], s, measure);
      TotalAppend(LinesOf(lines[..n], s), lines[n], s, measure);
    }
  }

  lemma {:induction false} TotalAppend(lines: seq<SovLine>, line: SovLine, s: nat, measure: Measure)
    ensures Total(lines + [line], s, measure)
      == Total(lines, s, measure) + if line.schedule == s then Amount(line, measure) else 0
  {
    assert (lines + [line])[..|lines|] == lines;
  }

  lemma {:induction false} TotalOfCopies(source: seq<SovLine>, s: nat, s': nat, firstId: nat, measure: Measure)
    requires forall k :: 0 <= k < |source| ==> source[k].schedule == s
    ensures Total(Copies(source, s', firstId), s', measure) == Total(source, s, measure)
  {
    if |source| > 0 {
      var n := |source| - 1;
      TotalOfCopies(source[..n], s, s', firstId, measure);
      assert Copies(source, s', firstId)[..n] == Copies(source[..n], s', firstId);
    }
  }

  lemma {:induction false} LinesOfSchedule(lines: seq<SovLine>, s: nat)
    ensures forall k :: 0 <= k < |LinesOf(lines, s)| ==>
      LinesOf(lines, s)[k].schedule == s && LinesOf(lines, s)[k] in lines
  {
    if |lines| > 0 {
      LinesOfSchedule(lines[..|lines| - 1], s);
    }
  }

  lemma {:induction false} NothingOnUnknownSchedule(lines: seq<SovLine>, s: nat, measure: Measure)
    requires forall k :: 0 <= k < |lines| ==> lines[k].schedule != s
    ensures Total(lines, s, measure) == 0
  {
    if |lines| > 0 {
      NothingOnUnknownSchedule(lines[..|lines| - 1], s, measure);
    }
  }

  lemma {:induction false} ApprovedTotalUpdate(orders: seq<ChangeOrder>, o: nat, order: ChangeOrder)
    requires o < |orders|
    ensures ApprovedTotal(orders[o := order]) == ApprovedTotal(orders)
      - (if orders[o].status.OrderApproved? then orders[o].amount else 0)
      + (if order.status.OrderApproved? then order.amount else 0)
  {
    var n := |orders| - 1;
    if o == n {
      assert orders[o := order][..n] == orders[..n];
    } else {
      ApprovedTotalUpdate(orders[..n], o, order);
      assert orders[o := order][..n] == orders[..n][o := order];
    }
  }

  lemma {:induction false} CurrentIsBasePlusAdjustment(lines: seq<SovLine>, s: nat)
    requires forall k :: 0 <= k < |lines| ==> lines[k].current == lines[k].base + lines[k].adjustment
    ensures Total(lines, s, Current) == Total(lines, s, Base) + Total(lines, s, Adjustment)
  {
    if |lines| > 0 {
      CurrentIsBasePlusAdjustment(lines[..|lines| - 1], s);
    }
  }

  // ---------------------------------------------------------------------------------------------
  // Landing a change order
  // ---------------------------------------------------------------------------------------------

  /** What of an order's amount lands on lines outside the schedule it is approved into. */
  function Elsewhere(lines: seq<SovLine>, s: nat, orderLines: seq<OrderLine>): int {
    if |orderLines| == 0 then 0
    else
      var last := orderLines[|orderLines| - 1];
      Elsewhere(lines, s, orderLines[..|orderLines| - 1])
      + if last.target.Some? && ScheduleOf(lines, last.target.value) != Some(s) then last.amount else 0
  }

  function ScheduleOf(lines: seq<SovLine>, id: nat): Option<nat> {
    match Find(lines, id)
    case Some(line) => Some(line.schedule)
    case None => None
  }

  lemma {:induction false} AdjustKeepsSchedules(lines: seq<SovLine>, id: nat, amount: int, other: nat)
    ensures ScheduleOf(Adjust(lines, id, amount), other) == ScheduleOf(lines, other)
  {
    if |lines| > 0 {
      var n := |lines| - 1;
      AdjustKeepsSchedules(lines[..n], id, amount, other);
      assert Adjust(lines, id, amount)[..n] == Adjust(lines[..n], id, amount);
    }
  }

  lemma AppendKeepsSchedules(lines: seq<SovLine>, line: SovLine, other: nat)
    requires line.id != other
    ensures ScheduleOf(lines + [line], other) == ScheduleOf(lines, other)
  {
    assert (lines + [line])[..|lines|] == lines;
  }

  lemma AdjustKeepsRows(plan: Plan, id: nat, amount: int)
    requires RowsOk(plan)
    ensures RowsOk(plan.(lines := Adjust(plan.lines, id, amount)))
  {
    forall k: nat | k < |plan.lines|
      ensures Adjust(plan.lines, id, amount)[k] ==
        if plan.lines[k].id == id then Adjusted(plan.lines[k], amount) else plan.lines[k]
    {
      AdjustRow(plan.lines, id, amount, k);
    }
  }

  // Rows with ids from the counter on, placed on a known schedule, keep the table in order.
  lemma AppendKeepsRows(plan: Plan, more: seq<SovLine>, schedules: seq<ScheduleStatus>)
    requires RowsOk(plan) && |schedules| >= |plan.schedules|
    requires forall k :: 0 <= k < |more| ==>
      && more[k].id == plan.nextId + k && more[k].schedule < |schedules|
      && more[k].current == more[k].base + more[k].adjustment
    ensures RowsOk(plan.(lines := plan.lines + more, schedules := schedules, nextId := plan.nextId + |more|))
  {
  }

  // The table after some order lines have landed, relative to the table before.
  ghost predicate Landed(plan: Plan, next: Plan, o: nat, s: nat, lines: seq<OrderLine>) {
    && RowsOk(next) && next.nextId >= plan.nextId
    && next.orders == plan.orders && next.schedules == plan.schedules && next.originalSum == plan.originalSum
    && (forall id: nat :: id < plan.nextId ==> ScheduleOf(next.lines, id) == ScheduleOf(plan.lines, id))
    && Total(next.lines, s, Adjustment)
       == Total(plan.lines, s, Adjustment) + LineTotal(lines) - Elsewhere(plan.lines, s, lines)
    && Total(next.lines, s, Base) == Total(plan.lines, s, Base)
  }

  lemma {:induction false} LandingLands(plan: Plan, o: nat, s: nat, lines: seq<OrderLine>)
    requires RowsOk(plan) && s < |plan.schedules| && TargetsBelow(lines, plan.nextId)
    ensures Land(plan, o, s, lines).Ok? ==> Landed(plan, Land(plan, o, s, lines).value, o, s, lines)
  {
    if |lines| > 0 && Land(plan, o, s, lines).Ok? {
      var n := |lines| - 1;
      LandingLands(plan, o, s, lines[..n]);
      var before := Land(plan, o, s, lines[..n]).value;
      if lines[n].target.Some? {
        LandingAdjustment(plan, before, o, s, lines);
      } else {
        LandingCreation(plan, before, o, s, lines);
      }
    }
  }

  lemma LandingAdjustment(plan: Plan, before: Plan, o: nat, s: nat, lines: seq<OrderLine>)
    requires |lines| > 0 && TargetsBelow(lines, plan.nextId) && Landed(plan, before, o, s, lines[..|lines| - 1])
    requires lines[|lines| - 1].target.Some? && LandOne(before, o, s, lines[|lines| - 1]).Ok?
    ensures Landed(plan, LandOne(before, o, s, lines[|lines| - 1]).value, o, s, lines)
  {
    var last := lines[|lines| - 1];
    var id := last.target.value;
    AdjustKeepsRows(before, id, last.amount);
    TotalAdjust(before.lines, id, last.amount, s);
    AdjustKeepsBase(before.lines, id, last.amount, s);
    assert ScheduleOf(before.lines, id) == ScheduleOf(plan.lines, id);
    forall other: nat | other < plan.nextId
      ensures ScheduleOf(Adjust(before.lines, id, last.amount), other) == ScheduleOf(before.lines, other)
    {
      AdjustKeepsSchedules(before.lines, id, last.amount, other);
    }
  }

  lemma LandingCreation(plan: Plan, before: Plan, o: nat, s: nat, lines: seq<OrderLine>)
    requires |lines| > 0 && s < |plan.schedules| && Landed(plan, before, o, s, lines[..|lines| - 1])
    requires lines[|lines| - 1].target.None?
    ensures Landed(plan, LandOne(before, o, s, lines[|lines| - 1]).value, o, s, lines)
  {
    var last := lines[|lines| - 1];
    var created := SovLine(before.nextId, s, last.newItem, 0, last.amount, last.amount, true, Some(o));
    AppendKeepsRows(before, [created], before.schedules);
    TotalConcat(before.lines, [created], s, Adjustment);
    TotalOne(created, s, Adjustment);
    TotalConcat(before.lines, [created], s, Base);
    TotalOne(created, s, Base);
    forall other: nat | other < plan.nextId
      ensures ScheduleOf(before.lines + [created], other) == ScheduleOf(before.lines, other)
    {
      AppendKeepsSchedules(before.lines, created, other);
    }
  }

  /** Approving an order keeps the two routes equal exactly when what it adjusts outside the schedule nets to zero. */
  lemma {:induction false} ApprovalKeepsTieExactlyWhen(plan: Plan, o: nat, s: nat)
    requires Sound(plan) && Tied(plan) && ApproveOrder(plan, o, s).Ok?
    ensures var next := ApproveOrder(plan, o, s).value;
      && Sound(next)
      && (Tied(next) <==> Elsewhere(plan.lines, s, plan.orders[o].lines) == 0)
  {
    var next := ApproveOrder(plan, o, s).value;
    LandingLands(plan, o, s, plan.orders[o].lines);
    ApprovedTotalUpdate(plan.orders, o, plan.orders[o].(status := OrderApproved));
    assert ApprovedTotal(next.orders) == ApprovedTotal(plan.orders) + plan.orders[o].amount;
    assert s == |plan.schedules| - 1 == |next.schedules| - 1;
  }

  // ---------------------------------------------------------------------------------------------
  // Backing a change order out
  // ---------------------------------------------------------------------------------------------

  // The rows of one schedule that the order created, in order.
  function Own(lines: seq<SovLine>, s: nat, o: nat): seq<SovLine> {
    if |lines| == 0 then []
    else
      var rest, last := Own(lines[..|lines| - 1], s, o), lines[|lines| - 1];
      if last.schedule == s && last.source == Some(o) then rest + [last] else rest
  }

  function ItemsOf(rows: seq<SovLine>): (r: seq<string>)
    ensures |r| == |rows|
  {
    seq(|rows|, k requires 0 <= k < |rows| => rows[k].item)
  }

  // The item numbers of some rows, each as often as it occurs.
  function Numbers(rows: seq<SovLine>): multiset<string> {
    multiset(ItemsOf(rows))
  }

  lemma {:induction false} NumbersAppend(rows: seq<SovLine>, row: SovLine)
    ensures Numbers(rows + [row]) == Numbers(rows) + multiset{row.item}
  {
    assert ItemsOf(rows + [row]) == ItemsOf(rows) + [row.item];
  }

  /** The item numbers the order creates lines under, each as often as it does. */
  function Wanted(orderLines: seq<OrderLine>): multiset<string> {
    if |orderLines| == 0 then multiset{}
    else
      var rest, last := Wanted(orderLines[..|orderLines| - 1]), orderLines[|orderLines| - 1];
      if last.target.None? then rest + multiset{last.newItem} else rest
  }

  // The rows that stay, and the adjustments of those that go, when the last rows under each wanted number go.
  function Left(rows: seq<SovLine>, wanted: multiset<string>): seq<SovLine> {
    if |rows| == 0 then []
    else
      var rest, last := rows[..|rows| - 1], rows[|rows| - 1];
      if last.item in wanted then Left(rest, wanted - multiset{last.item}) else Left(rest, wanted) + [last]
  }

  function Gone(rows: seq<SovLine>, wanted: multiset<string>): int {
    if |rows| == 0 then 0
    else
      var rest, last := rows[..|rows| - 1], rows[|rows| - 1];
      if last.item in wanted then Gone(rest, wanted - multiset{last.item}) + last.adjustment else Gone(rest, wanted)
  }

  function AdjustedHere(lines: seq<SovLine>, s: nat, orderLines: seq<OrderLine>): int {
    if |orderLines| == 0 then 0
    else
      var last := orderLines[|orderLines| - 1];
      AdjustedHere(lines, s, orderLines[..|orderLines| - 1])
      + if last.target.Some? && ScheduleOf(lines, last.target.value) == Some(s) then last.amount else 0
  }

  /**
   * What a look at the table says a void will take off a schedule: the amounts of the lines it adjusts there, and
   * whatever now stands as adjustment on the rows it created there. Of several rows of its making under one item
   * number the last ones go, as many as it has lines creating that number.
   */
  function ComesOff(lines: seq<SovLine>, o: nat, s: nat, orderLines: seq<OrderLine>): int {
    AdjustedHere(lines, s, orderLines) + Gone(Own(lines, s, o), Wanted(orderLines))
  }

  lemma {:induction false} FindCreatedMeans(lines: seq<SovLine>, s: nat, o: nat, item: string)
    ensures var r := FindCreated(lines, s, o, item);
      r.Some? ==> r.value in lines && IsCreated(r.value, s, o, item)
  {
    if |lines| > 0 {
      FindCreatedMeans(lines[..|lines| - 1], s, o, item);
    }
  }

  lemma RemoveKeepsRows(plan: Plan, id: nat)
    requires RowsOk(plan)
    ensures RowsOk(plan.(lines := Remove(plan.lines, id)))
  {
    RemoveRows(plan.lines, id);
    forall k | 0 <= k < |Remove(plan.lines, id)|
      ensures Remove(plan.lines, id)[k] in plan.lines
    {
      assert Remove(plan.lines, id)[k] in Remove(plan.lines, id);
    }
  }

  lemma BackingOutOne(plan: Plan, o: nat, s: nat, line: OrderLine)
    requires RowsOk(plan)
    ensures RowsOk(plan.(lines := BackOutOne(plan.lines, o, s, line)))
  {
    if line.target.Some? {
      AdjustKeepsRows(plan, line.target.value, -line.amount);
    } else {
      var created := FindCreated(plan.lines, s, o, line.newItem);
      if created.Some? {
        RemoveKeepsRows(plan, created.value.id);
      }
    }
  }

  lemma {:induction false} BackingOut(plan: Plan, o: nat, s: nat, orderLines: seq<OrderLine>)
    requires RowsOk(plan)
    ensures RowsOk(plan.(lines := BackOut(plan.lines, o, s, orderLines)))
  {
    if |orderLines| > 0 {
      var n := |orderLines| - 1;
      BackingOut(plan, o, s, orderLines[..n]);
      BackingOutOne(plan.(lines := BackOut(plan.lines, o, s, orderLines[..n])), o, s, orderLines[n]);
    }
  }

  lemma {:induction false} StatusKeepsOrders(plan: Plan, o: nat, status: OrderStatus, next: Plan)
    requires OrdersOk(plan) && o < |plan.orders| && next.orders == WithStatus(plan.orders, o, status)
    requires next.nextId == plan.nextId
    ensures OrdersOk(next)
  {
  }

  // Without the last row under this item number.
  function DropLast(rows: seq<SovLine>, item: string): seq<SovLine> {
    if |rows| == 0 then []
    else
      var rest, last := rows[..|rows| - 1], rows[|rows| - 1];
      if last.item == item then rest else DropLast(rest, item) + [last]
  }

  lemma {:induction false} DropAppend(rows: seq<SovLine>, row: SovLine, item: string)
    ensures DropLast(rows + [row], item) == if row.item == item then rows else DropLast(rows, item) + [row]
  {
    assert (rows + [row])[..|rows|] == rows;
  }

  lemma {:induction false} OwnAppend(lines: seq<SovLine>, line: SovLine, s: nat, o: nat)
    ensures Own(lines + [line], s, o)
      == if line.schedule == s && line.source == Some(o) then Own(lines, s, o) + [line] else Own(lines, s, o)
  {
    assert (lines + [line])[..|lines|] == lines;
  }

  // One wanted number more is one row less.
  lemma {:induction false} OneMoreGoes(rows: seq<SovLine>, wanted: multiset<string>, item: string)
    ensures DropLast(Left(rows, wanted), item) == Left(rows, wanted + multiset{item})
  {
    if |rows| > 0 {
      var n := |rows| - 1;
      var last := rows[n].item;
      if last in wanted {
        OneMoreGoes(rows[..n], wanted - multiset{last}, item);
        assert wanted - multiset{last} + multiset{item} == wanted + multiset{item} - multiset{last};
      } else {
        OneMoreGoes(rows[..n], wanted, item);
        DropAppend(Left(rows[..n], wanted), rows[n], item);
        assert wanted + multiset{item} - multiset{item} == wanted;
      }
    }
  }

  lemma {:induction false} GoneOrLeft(rows: seq<SovLine>, wanted: multiset<string>, s: nat)
    requires forall k :: 0 <= k < |rows| ==> rows[k].schedule == s
    ensures Gone(rows, wanted) == Total(rows, s, Adjustment) - Total(Left(rows, wanted), s, Adjustment)
  {
    if |rows| > 0 {
      var n := |rows| - 1;
      if rows[n].item in wanted {
        GoneOrLeft(rows[..n], wanted - multiset{rows[n].item}, s);
      } else {
        GoneOrLeft(rows[..n], wanted, s);
        TotalAppend(Left(rows[..n], wanted), rows[n], s, Adjustment);
      }
    }
  }

  lemma {:induction false} OwnOnSchedule(lines: seq<SovLine>, s: nat, o: nat)
    ensures forall k :: 0 <= k < |Own(lines, s, o)| ==> Own(lines, s, o)[k].schedule == s
  {
    if |lines| > 0 {
      OwnOnSchedule(lines[..|lines| - 1], s, o);
    }
  }

  lemma {:induction false} NothingToDrop(lines: seq<SovLine>, s: nat, o: nat, item: string)
    requires FindCreated(lines, s, o, item).None?
    ensures DropLast(Own(lines, s, o), item) == Own(lines, s, o)
  {
    if |lines| > 0 {
      var n := |lines| - 1;
      NothingToDrop(lines[..n], s, o, item);
      DropAppend(Own(lines[..n], s, o), lines[n], item);
    }
  }

  lemma {:induction false} RemoveAbsent(lines: seq<SovLine>, id: nat)
    requires forall k :: 0 <= k < |lines| ==> lines[k].id != id
    ensures Remove(lines, id) == lines
  {
    if |lines| > 0 {
      RemoveAbsent(lines[..|lines| - 1], id);
    }
  }

  // Removing the row a creating line finds drops the last row of the order's making under its number.
  lemma {:induction false} FoundIsDropped(lines: seq<SovLine>, s: nat, o: nat, item: string)
    requires DistinctIds(lines) && FindCreated(lines, s, o, item).Some?
    ensures var found := FindCreated(lines, s, o, item).value;
      && Own(Remove(lines, found.id), s, o) == DropLast(Own(lines, s, o), item)
      && Total(DropLast(Own(lines, s, o), item), s, Adjustment)
         == Total(Own(lines, s, o), s, Adjustment) - found.adjustment
  {
    var n := |lines| - 1;
    var own := Own(lines[..n], s, o);
    DropAppend(own, lines[n], item);
    TotalAppend(own, lines[n], s, Adjustment);
    if IsCreated(lines[n], s, o, item) {
      RemoveAbsent(lines[..n], lines[n].id);
    } else {
      FoundIsDropped(lines[..n], s, o, item);
      FoundEarlier(lines, s, o, item);
      var found := FindCreated(lines, s, o, item).value;
      OwnAppend(Remove(lines[..n], found.id), lines[n], s, o);
      TotalAppend(DropLast(own, item), lines[n], s, Adjustment);
    }
  }

  lemma {:induction false} FoundEarlier(lines: seq<SovLine>, s: nat, o: nat, item: string)
    requires |lines| > 0 && DistinctIds(lines) && FindCreated(lines, s, o, item).Some?
    requires !IsCreated(lines[|lines| - 1], s, o, item)
    ensures FindCreated(lines, s, o, item).value.id != lines[|lines| - 1].id
  {
    var n := |lines| - 1;
    FindCreatedMeans(lines[..n], s, o, item);
    var j :| 0 <= j < n && lines[j] == FindCreated(lines, s, o, item).value;
  }

  // No row with this id was created by the order.
  ghost predicate NotCreatedBy(lines: seq<SovLine>, id: nat, o: nat) {
    forall line :: line in lines && line.id == id ==> line.source != Some(o)
  }

  // The order adjusts no line of its own making.
  ghost predicate AdjustsOthers(lines: seq<SovLine>, o: nat, orderLines: seq<OrderLine>) {
    forall k :: 0 <= k < |orderLines| && orderLines[k].target.Some? ==>
      NotCreatedBy(lines, orderLines[k].target.value, o)
  }

  lemma {:induction false} NotCreatedEarlier(lines: seq<SovLine>, id: nat, o: nat)
    requires |lines| > 0 && NotCreatedBy(lines, id, o)
    ensures NotCreatedBy(lines[..|lines| - 1], id, o)
    ensures lines[|lines| - 1].id == id ==> lines[|lines| - 1].source != Some(o)
  {
    assert lines[|lines| - 1] in lines;
    assert forall line :: line in lines[..|lines| - 1] ==> line in lines;
  }

  lemma {:induction false} AdjustKeepsOwn(lines: seq<SovLine>, id: nat, amount: int, s: nat, o: nat)
    requires NotCreatedBy(lines, id, o)
    ensures Own(Adjust(lines, id, amount), s, o) == Own(lines, s, o)
  {
    if |lines| > 0 {
      var n := |lines| - 1;
      NotCreatedEarlier(lines, id, o);
      AdjustKeepsOwn(lines[..n], id, amount, s, o);
      OwnAppend(
        Adjust(lines[..n], id, amount), if lines[n].id == id then Adjusted(lines[n], amount) else lines[n], s, o);
    }
  }

  lemma {:induction false} RemoveKeepsOthers(lines: seq<SovLine>, id: nat, other: nat)
    requires id != other
    ensures ScheduleOf(Remove(lines, id), other) == ScheduleOf(lines, other)
  {
    if |lines| > 0 {
      var n := |lines| - 1;
      RemoveKeepsOthers(lines[..n], id, other);
      var rest := Remove(lines[..n], id);
      assert (rest + [lines[n]])[..|rest|] == rest;
    }
  }

  lemma AdjustKeepsSources(lines: seq<SovLine>, id: nat, amount: int, other: nat, o: nat)
    requires NotCreatedBy(lines, other, o)
    ensures NotCreatedBy(Adjust(lines, id, amount), other, o)
  {
    forall line | line in Adjust(lines, id, amount) && line.id == other
      ensures line.source != Some(o)
    {
      var k: nat :| k < |lines| && Adjust(lines, id, amount)[k] == line;
      AdjustRow(lines, id, amount, k);
      assert lines[k] in lines;
    }
  }

  // A row that is not of the order's making: it is where it was.
  ghost predicate SameTarget(now: seq<SovLine>, was: seq<SovLine>, o: nat, id: nat) {
    ScheduleOf(now, id) == ScheduleOf(was, id) && NotCreatedBy(now, id, o)
  }

  // Backing one line out leaves the targets of the order where they are.
  lemma {:induction false} BackOutOneKeepsTarget(lines: seq<SovLine>, o: nat, s: nat, line: OrderLine, id: nat)
    requires DistinctIds(lines) && NotCreatedBy(lines, id, o)
    ensures SameTarget(BackOutOne(lines, o, s, line), lines, o, id)
  {
    if line.target.Some? {
      AdjustKeepsSchedules(lines, line.target.value, -line.amount, id);
      AdjustKeepsSources(lines, line.target.value, -line.amount, id, o);
    } else if FindCreated(lines, s, o, line.newItem).Some? {
      var created := FindCreated(lines, s, o, line.newItem).value;
      FindCreatedMeans(lines, s, o, line.newItem);
      RemoveRows(lines, created.id);
      RemoveKeepsOthers(lines, created.id, id);
    }
  }

  // What backing one line out does to the rows of the order's making, and to the schedule.
  lemma {:induction false} BackOutOneDrops(lines: seq<SovLine>, o: nat, s: nat, line: OrderLine)
    requires DistinctIds(lines) && line.target.None?
    ensures var next, own := BackOutOne(lines, o, s, line), Own(lines, s, o);
      && Own(next, s, o) == DropLast(own, line.newItem)
      && Total(next, s, Adjustment) == Total(lines, s, Adjustment)
           - (Total(own, s, Adjustment) - Total(DropLast(own, line.newItem), s, Adjustment))
  {
    var found := FindCreated(lines, s, o, line.newItem);
    if found.Some? {
      FindCreatedMeans(lines, s, o, line.newItem);
      FoundIsDropped(lines, s, o, line.newItem);
      var k :| 0 <= k < |lines| && lines[k] == found.value;
      FoundRow(lines, found.value.id, k);
      TotalRemove(lines, found.value.id, s, Adjustment);
    } else {
      NothingToDrop(lines, s, o, line.newItem);
    }
  }

  // The table once some lines of the order have been backed out, seen from the table before.
  ghost predicate PartlyOff(
    now: seq<SovLine>, was: seq<SovLine>, o: nat, s: nat, done: seq<OrderLine>, orderLines: seq<OrderLine>)
  {
    && Own(now, s, o) == Left(Own(was, s, o), Wanted(done))
    && Total(now, s, Adjustment) == Total(was, s, Adjustment) - ComesOff(was, o, s, done)
    && forall k :: 0 <= k < |orderLines| && orderLines[k].target.Some? ==>
         SameTarget(now, was, o, orderLines[k].target.value)
  }

  lemma {:induction false} LeftWithNothingWanted(rows: seq<SovLine>)
    ensures Left(rows, multiset{}) == rows && Gone(rows, multiset{}) == 0
  {
    if |rows| > 0 {
      LeftWithNothingWanted(rows[..|rows| - 1]);
    }
  }

  lemma {:induction false} OneMoreCreationOff(
    lines: seq<SovLine>, was: seq<SovLine>, o: nat, s: nat, done: seq<OrderLine>)
    requires DistinctIds(lines) && |done| > 0 && done[|done| - 1].target.None?
    requires var before := done[..|done| - 1];
      && Own(lines, s, o) == Left(Own(was, s, o), Wanted(before))
      && Total(lines, s, Adjustment) == Total(was, s, Adjustment) - ComesOff(was, o, s, before)
    ensures var next := BackOutOne(lines, o, s, done[|done| - 1]);
      && Own(next, s, o) == Left(Own(was, s, o), Wanted(done))
      && Total(next, s, Adjustment) == Total(was, s, Adjustment) - ComesOff(was, o, s, done)
  {
    var before, line, rows := done[..|done| - 1], done[|done| - 1], Own(was, s, o);
    BackOutOneDrops(lines, o, s, line);
    OneMoreGoes(rows, Wanted(before), line.newItem);
    OwnOnSchedule(was, s, o);
    GoneOrLeft(rows, Wanted(before), s);
    GoneOrLeft(rows, Wanted(done), s);
  }

  lemma {:induction false} OneMoreTargetOff(
    lines: seq<SovLine>, was: seq<SovLine>, o: nat, s: nat, done: seq<OrderLine>)
    requires DistinctIds(lines) && |done| > 0 && done[|done| - 1].target.Some?
    requires SameTarget(lines, was, o, done[|done| - 1].target.value)
    requires var before := done[..|done| - 1];
      && Own(lines, s, o) == Left(Own(was, s, o), Wanted(before))
      && Total(lines, s, Adjustment) == Total(was, s, Adjustment) - ComesOff(was, o, s, before)
    ensures var next := BackOutOne(lines, o, s, done[|done| - 1]);
      && Own(next, s, o) == Left(Own(was, s, o), Wanted(done))
      && Total(next, s, Adjustment) == Total(was, s, Adjustment) - ComesOff(was, o, s, done)
  {
    var line := done[|done| - 1];
    TotalAdjust(lines, line.target.value, -line.amount, s);
    AdjustKeepsOwn(lines, line.target.value, -line.amount, s, o);
  }

  // So every line comes off as it stood before the first one did.
  lemma {:induction false} BackingOutReads(plan: Plan, o: nat, s: nat, orderLines: seq<OrderLine>, n: nat)
    requires RowsOk(plan) && AdjustsOthers(plan.lines, o, orderLines) && n <= |orderLines|
    ensures PartlyOff(BackOut(plan.lines, o, s, orderLines[..n]), plan.lines, o, s, orderLines[..n], orderLines)
  {
    if n == 0 {
      LeftWithNothingWanted(Own(plan.lines, s, o));
    } else {
      var m := n - 1;
      BackingOutReads(plan, o, s, orderLines, m);
      BackingOut(plan, o, s, orderLines[..m]);
      assert orderLines[..n][..m] == orderLines[..m];
      var lines := BackOut(plan.lines, o, s, orderLines[..m]);
      if orderLines[m].target.None? {
        OneMoreCreationOff(lines, plan.lines, o, s, orderLines[..n]);
      } else {
        OneMoreTargetOff(lines, plan.lines, o, s, orderLines[..n]);
      }
      forall k | 0 <= k < |orderLines| && orderLines[k].target.Some?
        ensures SameTarget(BackOutOne(lines, o, s, orderLines[m]), plan.lines, o, orderLines[k].target.value)
      {
        BackOutOneKeepsTarget(lines, o, s, orderLines[m], orderLines[k].target.value);
      }
    }
  }

  lemma {:induction false} BackingOutTakesOff(plan: Plan, o: nat, s: nat, orderLines: seq<OrderLine>)
    requires RowsOk(plan) && AdjustsOthers(plan.lines, o, orderLines)
    ensures Total(BackOut(plan.lines, o, s, orderLines), s, Adjustment)
      == Total(plan.lines, s, Adjustment) - ComesOff(plan.lines, o, s, orderLines)
  {
    BackingOutReads(plan, o, s, orderLines, |orderLines|);
    assert orderLines[..|orderLines|] == orderLines;
  }

  /**
   * Voiding an approved order keeps the two routes equal exactly when what the table shows of it on this schedule is
   * the amount of the order: what it adjusts here, and what now stands on the lines it created here.
   */
  lemma {:induction false} VoidKeepsTieExactlyWhen(plan: Plan, o: nat, s: nat)
    requires Sound(plan) && Tied(plan) && VoidOrder(plan, o, s).Ok? && plan.orders[o].status.OrderApproved?
    requires AdjustsOthers(plan.lines, o, plan.orders[o].lines)
    ensures var next := VoidOrder(plan, o, s).value;
      && Sound(next)
      && (Tied(next) <==> ComesOff(plan.lines, o, s, plan.orders[o].lines) == plan.orders[o].amount)
  {
    var next, lines := VoidOrder(plan, o, s).value, plan.orders[o].lines;
    BackingOut(plan, o, s, lines);
    BackingOutTakesOff(plan, o, s, lines);
    ApprovedTotalUpdate(plan.orders, o, plan.orders[o].(status := OrderVoid));
    assert s == |plan.schedules| - 1 == |next.schedules| - 1;
    StatusKeepsOrders(plan, o, OrderVoid, next);
  }

  // Every amount the order adds to lines that already exist, and every amount it creates a line for.
  function AdjustingTotal(lines: seq<OrderLine>): int {
    if |lines| == 0 then 0
    else AdjustingTotal(lines[..|lines| - 1]) + if lines[|lines| - 1].target.Some? then lines[|lines| - 1].amount else 0
  }

  function CreatingTotal(lines: seq<OrderLine>): int {
    if |lines| == 0 then 0
    else CreatingTotal(lines[..|lines| - 1]) + if lines[|lines| - 1].target.None? then lines[|lines| - 1].amount else 0
  }

  // Every line the order adjusts is a line of this schedule.
  ghost predicate TargetsOn(lines: seq<SovLine>, s: nat, orderLines: seq<OrderLine>) {
    forall k :: 0 <= k < |orderLines| && orderLines[k].target.Some? ==>
      ScheduleOf(lines, orderLines[k].target.value) == Some(s)
  }

  /**
   * The order stands on this schedule as it was approved: its targets are here and are not of its making, and the
   * rows of its making are one for each line that creates one, under the same numbers, and carry just those amounts.
   */
  ghost predicate StandsHere(lines: seq<SovLine>, o: nat, s: nat, orderLines: seq<OrderLine>) {
    && AdjustsOthers(lines, o, orderLines) && TargetsOn(lines, s, orderLines)
    && Numbers(Own(lines, s, o)) == Wanted(orderLines)
    && Total(Own(lines, s, o), s, Adjustment) == CreatingTotal(orderLines)
  }

  lemma {:induction false} AllGone(rows: seq<SovLine>, wanted: multiset<string>)
    requires Numbers(rows) <= wanted
    ensures Left(rows, wanted) == []
  {
    if |rows| > 0 {
      var n := |rows| - 1;
      NumbersAppend(rows[..n], rows[n]);
      assert rows == rows[..n] + [rows[n]];
      AllGone(rows[..n], wanted - multiset{rows[n].item});
    }
  }

  lemma {:induction false} AdjustedHereInFull(lines: seq<SovLine>, s: nat, orderLines: seq<OrderLine>)
    requires TargetsOn(lines, s, orderLines)
    ensures AdjustedHere(lines, s, orderLines) + CreatingTotal(orderLines) == LineTotal(orderLines)
  {
    if |orderLines| > 0 {
      AdjustedHereInFull(lines, s, orderLines[..|orderLines| - 1]);
    }
  }

  /** An order that stands here comes off in full. */
  lemma {:induction false} StandingOrderComesOffInFull(lines: seq<SovLine>, o: nat, s: nat, orderLines: seq<OrderLine>)
    requires StandsHere(lines, o, s, orderLines)
    ensures ComesOff(lines, o, s, orderLines) == LineTotal(orderLines)
  {
    AdjustedHereInFull(lines, s, orderLines);
    AllGone(Own(lines, s, o), Wanted(orderLines));
    OwnOnSchedule(lines, s, o);
    GoneOrLeft(Own(lines, s, o), Wanted(orderLines), s);
  }

  // ---------------------------------------------------------------------------------------------
  // Runs
  // ---------------------------------------------------------------------------------------------

  function Start(originalSum: int): Plan {
    Plan(originalSum, [], [], [], 0)
  }

  function Run(plan: Plan, steps: seq<Step>): Plan {
    if |steps| == 0 then plan else After(Run(plan, steps[..|steps| - 1]), steps[|steps| - 1])
  }

  /** What the code leaves to its callers: see the three "exactly when" lemmas for why each is needed. */
  ghost predicate Careful(plan: Plan, step: Step) {
    match step
    case Delete(id) => Find(plan.lines, id).Some? ==> Find(plan.lines, id).value.adjustment == 0
    case ApproveCo(o, s) =>
      o < |plan.orders| ==> TargetsOn(plan.lines, s, plan.orders[o].lines)
    case VoidCo(o, s) =>
      (o < |plan.orders| && plan.orders[o].status.OrderApproved?) ==> StandsHere(plan.lines, o, s, plan.orders[o].lines)
    case _ => true
  }

  ghost predicate CarefulRun(plan: Plan, steps: seq<Step>) {
    |steps| > 0 ==>
      CarefulRun(plan, steps[..|steps| - 1]) && Careful(Run(plan, steps[..|steps| - 1]), steps[|steps| - 1])
  }

  lemma {:induction false} NothingElsewhere(lines: seq<SovLine>, s: nat, orderLines: seq<OrderLine>)
    requires TargetsOn(lines, s, orderLines)
    ensures Elsewhere(lines, s, orderLines) == 0
  {
    if |orderLines| > 0 {
      NothingElsewhere(lines, s, orderLines[..|orderLines| - 1]);
    }
  }

  /** Removing a line keeps the two routes equal exactly when it carries no adjustment. */
  lemma RemovalKeepsTieExactlyWhen(plan: Plan, id: nat)
    requires Sound(plan) && Tied(plan) && RemoveLine(plan, id).Ok?
    ensures var next := RemoveLine(plan, id).value;
      Sound(next) && (Tied(next) <==> Find(plan.lines, id).value.adjustment == 0)
  {
    FindMeans(plan.lines, id);
    RemoveKeepsRows(plan, id);
    var s := Find(plan.lines, id).value.schedule;
    TotalRemove(plan.lines, id, s, Adjustment);
    assert s == |plan.schedules| - 1;
  }

  lemma RevisionKeepsAll(plan: Plan, s: nat)
    requires Sound(plan) && Tied(plan) && CreateRevision(plan, s).Ok?
    ensures Sound(CreateRevision(plan, s).value) && Tied(CreateRevision(plan, s).value)
  {
    RevisionKeepsRows(plan, s);
    RevisionKeepsTotal(plan, s, Adjustment);
  }

  lemma RevisionKeepsRows(plan: Plan, s: nat)
    requires RowsOk(plan) && CreateRevision(plan, s).Ok?
    ensures RowsOk(CreateRevision(plan, s).value)
  {
    var source := LinesOf(plan.lines, s);
    var copies := Copies(source, s + 1, plan.nextId);
    LinesOfSchedule(plan.lines, s);
    forall k | 0 <= k < |copies|
      ensures copies[k].current == copies[k].base + copies[k].adjustment
    {
      assert source[k] in plan.lines;
    }
    AppendKeepsRows(plan, copies, plan.schedules[s := Superseded] + [Draft]);
  }

  /** A revision starts from the same figures as the schedule it supersedes. */
  lemma RevisionKeepsTotal(plan: Plan, s: nat, measure: Measure)
    requires RowsOk(plan) && s + 1 == |plan.schedules|
    ensures var copies := Copies(LinesOf(plan.lines, s), s + 1, plan.nextId);
      Total(plan.lines + copies, s + 1, measure) == Total(plan.lines, s, measure)
  {
    var source := LinesOf(plan.lines, s);
    LinesOfSchedule(plan.lines, s);
    TotalConcat(plan.lines, Copies(source, s + 1, plan.nextId), s + 1, measure);
    NothingOnUnknownSchedule(plan.lines, s + 1, measure);
    TotalOfCopies(source, s, s + 1, plan.nextId, measure);
    TotalOfLines(plan.lines, s, measure);
  }

  lemma LineEditsKeepAll(plan: Plan, step: Step)
    requires Sound(plan) && Tied(plan)
    requires step.Add? || step.Update? || step.StartSchedule? || step.Approve? || step.EditSum?
    ensures Sound(After(plan, step)) && Tied(After(plan, step))
  {
    if Try(plan, step).Ok? {
      match step
      case Add(s, item, value, _) => AddKeepsAll(plan, s, item, value);
      case Update(id, item, value) => UpdateKeepsAll(plan, id, item, value);
      case StartSchedule => NothingOnUnknownSchedule(plan.lines, 0, Adjustment);
      case Approve(_) =>
      case EditSum(_) =>
    }
  }

  lemma AddKeepsAll(plan: Plan, s: nat, item: string, value: int)
    requires Sound(plan) && Tied(plan) && IsEditable(plan, s)
    ensures var line := SovLine(plan.nextId, s, Strip(item), value, 0, value, false, None);
      var next := plan.(lines := plan.lines + [line], nextId := plan.nextId + 1);
      Sound(next) && Tied(next)
  {
    var line := SovLine(plan.nextId, s, Strip(item), value, 0, value, false, None);
    AppendKeepsRows(plan, [line], plan.schedules);
    TotalConcat(plan.lines, [line], |plan.schedules| - 1, Adjustment);
    TotalOne(line, |plan.schedules| - 1, Adjustment);
  }

  lemma UpdateKeepsAll(plan: Plan, id: nat, item: string, value: int)
    requires Sound(plan) && Tied(plan)
    ensures Sound(plan.(lines := Rewrite(plan.lines, id, item, value)))
    ensures Tied(plan.(lines := Rewrite(plan.lines, id, item, value)))
  {
    RewriteKeepsRows(plan, id, item, value);
    if |plan.schedules| > 0 {
      TotalRewrite(plan.lines, id, item, value, |plan.schedules| - 1);
    }
  }

  lemma RewriteKeepsRows(plan: Plan, id: nat, item: string, value: int)
    requires RowsOk(plan)
    ensures RowsOk(plan.(lines := Rewrite(plan.lines, id, item, value)))
  {
    forall k: nat | k < |plan.lines|
      ensures var row := Rewrite(plan.lines, id, item, value)[k];
        row.id == plan.lines[k].id && row.schedule == plan.lines[k].schedule && row.current == row.base + row.adjustment
    {
      RewriteRow(plan.lines, id, item, value, k);
    }
  }

  lemma {:induction false} OrderEditsKeepAll(plan: Plan, step: Step)
    requires Sound(plan) && Tied(plan) && (step.StartOrder? || step.AddToOrder?)
    ensures Sound(After(plan, step)) && Tied(After(plan, step))
  {
    if step.AddToOrder? && Try(plan, step).Ok? {
      OrderLineKeepsAll(plan, step.order, step.target, step.newItem, step.amount);
    } else if step.StartOrder? {
      NewOrderKeepsAll(plan);
    }
  }

  lemma {:induction false} NewOrderKeepsAll(plan: Plan)
    requires Sound(plan) && Tied(plan)
    ensures Sound(CreateOrder(plan).value) && Tied(CreateOrder(plan).value)
  {
  }

  lemma {:induction false} OrderLineKeepsAll(plan: Plan, o: nat, target: Option<nat>, newItem: string, amount: int)
    requires Sound(plan) && Tied(plan) && AddOrderLine(plan, o, target, newItem, amount).Ok?
    ensures Sound(AddOrderLine(plan, o, target, newItem, amount).value)
    ensures Tied(AddOrderLine(plan, o, target, newItem, amount).value)
  {
    TargetIsBelow(plan, target);
    var lines := plan.orders[o].lines + [OrderLine(target, Strip(newItem), amount)];
    assert TargetsBelow(lines, plan.nextId);
    DraftMayChange(plan, o, lines);
  }

  lemma {:induction false} TargetIsBelow(plan: Plan, target: Option<nat>)
    requires RowsOk(plan) && (target.Some? ==> Find(plan.lines, target.value).Some?)
    ensures target.Some? ==> target.value < plan.nextId
  {
    if target.Some? {
      FindMeans(plan.lines, target.value);
    }
  }

  lemma {:induction false} DraftMayChange(plan: Plan, o: nat, lines: seq<OrderLine>)
    requires Sound(plan) && Tied(plan) && o < |plan.orders| && plan.orders[o].status.OrderDraft?
    requires TargetsBelow(lines, plan.nextId)
    ensures var next := plan.(orders := plan.orders[o := plan.orders[o].(lines := lines, amount := LineTotal(lines))]);
      Sound(next) && Tied(next)
  {
    ApprovedTotalUpdate(plan.orders, o, plan.orders[o].(lines := lines, amount := LineTotal(lines)));
  }

  lemma StepKeepsTie(plan: Plan, step: Step)
    requires Sound(plan) && Tied(plan) && Careful(plan, step)
    ensures Sound(After(plan, step)) && Tied(After(plan, step))
  {
    if Try(plan, step).Ok? {
      match step
      case Delete(id) => RemovalKeepsTieExactlyWhen(plan, id);
      case Revise(s) => RevisionKeepsAll(plan, s);
      case StartOrder => OrderEditsKeepAll(plan, step);
      case AddToOrder(_, _, _, _) => OrderEditsKeepAll(plan, step);
      case ApproveCo(o, s) =>
        NothingElsewhere(plan.lines, s, plan.orders[o].lines);
        ApprovalKeepsTieExactlyWhen(plan, o, s);
      case VoidCo(o, s) => VoidKeepsTie(plan, o, s);
      case _ => LineEditsKeepAll(plan, step);
    }
  }

  lemma VoidKeepsTie(plan: Plan, o: nat, s: nat)
    requires Sound(plan) && Tied(plan) && Careful(plan, VoidCo(o, s)) && VoidOrder(plan, o, s).Ok?
    ensures Sound(VoidOrder(plan, o, s).value) && Tied(VoidOrder(plan, o, s).value)
  {
    if plan.orders[o].status.OrderApproved? {
      StandingOrderComesOffInFull(plan.lines, o, s, plan.orders[o].lines);
      VoidKeepsTieExactlyWhen(plan, o, s);
    } else {
      ApprovedTotalUpdate(plan.orders, o, plan.orders[o].(status := OrderVoid));
    }
  }

  /**
   * Over every careful run: exactly one schedule is live and it is the newest, every line's current
   * value is base plus adjustment, and the adjustments on it total the approved change orders.
   */
  lemma {:induction false} RunsStayTied(originalSum: int, steps: seq<Step>)
    requires CarefulRun(Start(originalSum), steps)
    ensures Sound(Run(Start(originalSum), steps)) && Tied(Run(Start(originalSum), steps))
  {
    if |steps| > 0 {
      RunsStayTied(originalSum, steps[..|steps| - 1]);
      StepKeepsTie(Run(Start(originalSum), steps[..|steps| - 1]), steps[|steps| - 1]);
    }
  }

  /** So a draft with lines can be approved exactly when its base values total the original contract sum. */
  lemma DraftIsApprovableExactlyWhen(plan: Plan, s: nat)
    requires Sound(plan) && Tied(plan) && IsEditable(plan, s) && LinesOf(plan.lines, s) != []
    ensures ApproveSchedule(plan, s).Ok? <==> Total(plan.lines, s, Base) == plan.originalSum
  {
    CurrentIsBasePlusAdjustment(plan.lines, s);
    assert s == |plan.schedules| - 1;
  }

  // ---------------------------------------------------------------------------------------------
  // Frozen revisions
  // ---------------------------------------------------------------------------------------------

  lemma {:induction false} AdjustLeavesOthers(lines: seq<SovLine>, id: nat, amount: int, t: nat)
    requires forall line :: line in lines && line.id == id ==> line.schedule != t
    ensures LinesOf(Adjust(lines, id, amount), t) == LinesOf(lines, t)
  {
    if |lines| > 0 {
      var n := |lines| - 1;
      assert forall line :: line in lines[..n] ==> line in lines;
      assert lines[n] in lines;
      AdjustLeavesOthers(lines[..n], id, amount, t);
      assert Adjust(lines, id, amount)[..n] == Adjust(lines[..n], id, amount);
    }
  }

  lemma {:induction false} RewriteLeavesOthers(lines: seq<SovLine>, id: nat, item: string, value: int, t: nat)
    requires forall line :: line in lines && line.id == id ==> line.schedule != t
    ensures LinesOf(Rewrite(lines, id, item, value), t) == LinesOf(lines, t)
  {
    if |lines| > 0 {
      var n := |lines| - 1;
      assert forall line :: line in lines[..n] ==> line in lines;
      assert lines[n] in lines;
      RewriteLeavesOthers(lines[..n], id, item, value, t);
      assert Rewrite(lines, id, item, value)[..n] == Rewrite(lines[..n], id, item, value);
    }
  }

  lemma {:induction false} RemoveLeavesOthers(lines: seq<SovLine>, id: nat, t: nat)
    requires forall line :: line in lines && line.id == id ==> line.schedule != t
    ensures LinesOf(Remove(lines, id), t) == LinesOf(lines, t)
  {
    if |lines| > 0 {
      var n := |lines| - 1;
      assert forall line :: line in lines[..n] ==> line in lines;
      assert lines[n] in lines;
      RemoveLeavesOthers(lines[..n], id, t);
      LinesOfAppend(Remove(lines[..n], id), lines[n], t);
    }
  }

  lemma {:induction false} LinesOfAppend(lines: seq<SovLine>, line: SovLine, t: nat)
    ensures LinesOf(lines + [line], t) == if line.schedule == t then LinesOf(lines, t) + [line] else LinesOf(lines, t)
  {
    assert (lines + [line])[..|lines|] == lines;
  }

  lemma {:induction false} AppendLeavesOthers(lines: seq<SovLine>, more: seq<SovLine>, t: nat)
    requires forall k :: 0 <= k < |more| ==> more[k].schedule != t
    ensures LinesOf(lines + more, t) == LinesOf(lines, t)
  {
    if more == [] {
      assert lines + more == lines;
    } else {
      var n := |more| - 1;
      AppendLeavesOthers(lines, more[..n], t);
      assert (lines + more)[..|lines + more| - 1] == lines + more[..n];
    }
  }

  lemma RowsWithId(lines: seq<SovLine>, id: nat, t: nat)
    requires DistinctIds(lines) && ScheduleOf(lines, id) != Some(t)
    ensures forall line :: line in lines && line.id == id ==> line.schedule != t
  {
    forall line | line in lines && line.id == id ensures line.schedule != t {
      var k :| 0 <= k < |lines| && lines[k] == line;
      FoundRow(lines, id, k);
    }
  }

  lemma {:induction false} LandingLeavesOthers(plan: Plan, o: nat, s: nat, lines: seq<OrderLine>, t: nat)
    requires RowsOk(plan) && s < |plan.schedules| && TargetsBelow(lines, plan.nextId) && t != s
    requires Land(plan, o, s, lines).Ok?
    requires TargetsOn(plan.lines, s, lines)
    ensures LinesOf(Land(plan, o, s, lines).value.lines, t) == LinesOf(plan.lines, t)
  {
    if |lines| > 0 {
      var n := |lines| - 1;
      LandingLeavesOthers(plan, o, s, lines[..n], t);
      LandingLands(plan, o, s, lines[..n]);
      var before, last := Land(plan, o, s, lines[..n]).value, lines[n];
      if last.target.Some? {
        RowsWithId(before.lines, last.target.value, t);
        AdjustLeavesOthers(before.lines, last.target.value, last.amount, t);
      } else {
        var created := SovLine(before.nextId, s, last.newItem, 0, last.amount, last.amount, true, Some(o));
        AppendLeavesOthers(before.lines, [created], t);
      }
    }
  }

  lemma {:induction false} BackingOutLeavesOthers(
    plan: Plan, o: nat, s: nat, orderLines: seq<OrderLine>, n: nat, t: nat)
    requires RowsOk(plan) && StandsHere(plan.lines, o, s, orderLines) && n <= |orderLines| && t != s
    ensures LinesOf(BackOut(plan.lines, o, s, orderLines[..n]), t) == LinesOf(plan.lines, t)
  {
    if n > 0 {
      var m := n - 1;
      BackingOutLeavesOthers(plan, o, s, orderLines, m, t);
      BackingOutReads(plan, o, s, orderLines, m);
      BackingOut(plan, o, s, orderLines[..m]);
      assert orderLines[..n][..m] == orderLines[..m];
      BackingOutOneLeavesOthers(BackOut(plan.lines, o, s, orderLines[..m]), o, s, orderLines[m], t);
    }
  }

  lemma {:induction false} BackingOutOneLeavesOthers(lines: seq<SovLine>, o: nat, s: nat, line: OrderLine, t: nat)
    requires DistinctIds(lines) && t != s
    requires line.target.Some? ==> ScheduleOf(lines, line.target.value) == Some(s)
    ensures LinesOf(BackOutOne(lines, o, s, line), t) == LinesOf(lines, t)
  {
    if line.target.Some? {
      RowsWithId(lines, line.target.value, t);
      AdjustLeavesOthers(lines, line.target.value, -line.amount, t);
    } else if FindCreated(lines, s, o, line.newItem).Some? {
      var created := FindCreated(lines, s, o, line.newItem).value;
      FindCreatedMeans(lines, s, o, line.newItem);
      var k :| 0 <= k < |lines| && lines[k] == created;
      FoundRow(lines, created.id, k);
      RowsWithId(lines, created.id, t);
      RemoveLeavesOthers(lines, created.id, t);
    }
  }

  /** An approved or superseded revision is frozen: no careful step changes any of its lines. */
  lemma FrozenRevisionsStay(plan: Plan, step: Step, t: nat)
    requires Sound(plan) && Careful(plan, step)
    requires t < |plan.schedules| && !plan.schedules[t].Draft?
    ensures LinesOf(After(plan, step).lines, t) == LinesOf(plan.lines, t)
  {
    if Try(plan, step).Ok? {
      match step
      case Add(_, _, _, _) => LineEditLeavesOthers(plan, step, t);
      case Update(_, _, _) => LineEditLeavesOthers(plan, step, t);
      case Delete(_) => LineEditLeavesOthers(plan, step, t);
      case Revise(s) => RevisionLeavesOthers(plan, s, t);
      case ApproveCo(o, s) => LandingLeavesOthers(plan, o, s, plan.orders[o].lines, t);
      case VoidCo(o, s) => VoidLeavesOthers(plan, o, s, t);
      case _ =>
    }
  }

  lemma {:induction false} LineEditLeavesOthers(plan: Plan, step: Step, t: nat)
    requires Sound(plan) && t < |plan.schedules| && !plan.schedules[t].Draft?
    requires (step.Add? || step.Update? || step.Delete?) && Try(plan, step).Ok?
    ensures LinesOf(After(plan, step).lines, t) == LinesOf(plan.lines, t)
  {
    match step
    case Add(s, item, value, _) =>
      AppendLeavesOthers(plan.lines, [SovLine(plan.nextId, s, Strip(item), value, 0, value, false, None)], t);
    case Update(id, item, value) =>
      RowsWithId(plan.lines, id, t);
      RewriteLeavesOthers(plan.lines, id, item, value, t);
    case Delete(id) =>
      RowsWithId(plan.lines, id, t);
      RemoveLeavesOthers(plan.lines, id, t);
  }

  lemma {:induction false} RevisionLeavesOthers(plan: Plan, s: nat, t: nat)
    requires CreateRevision(plan, s).Ok? && t < |plan.schedules|
    ensures LinesOf(CreateRevision(plan, s).value.lines, t) == LinesOf(plan.lines, t)
  {
    AppendLeavesOthers(plan.lines, Copies(LinesOf(plan.lines, s), s + 1, plan.nextId), t);
  }

  lemma {:induction false} VoidLeavesOthers(plan: Plan, o: nat, s: nat, t: nat)
    requires Sound(plan) && Careful(plan, VoidCo(o, s)) && VoidOrder(plan, o, s).Ok?
    requires t < |plan.schedules| && !plan.schedules[t].Draft?
    ensures LinesOf(VoidOrder(plan, o, s).value.lines, t) == LinesOf(plan.lines, t)
  {
    if plan.orders[o].status.OrderApproved? {
      var lines := plan.orders[o].lines;
      BackingOutLeavesOthers(plan, o, s, lines, |lines|, t);
      assert lines[..|lines|] == lines;
    }
  }

  // ---------------------------------------------------------------------------------------------
  // An order written against one revision and approved into the next
  // ---------------------------------------------------------------------------------------------

  lemma {:induction false} AllElsewhere(lines: seq<SovLine>, s: nat, orderLines: seq<OrderLine>)
    requires forall k :: 0 <= k < |orderLines| && orderLines[k].target.Some? ==>
      ScheduleOf(lines, orderLines[k].target.value) != Some(s)
    ensures Elsewhere(lines, s, orderLines) == AdjustingTotal(orderLines)
  {
    if |orderLines| > 0 {
      AllElsewhere(lines, s, orderLines[..|orderLines| - 1]);
    }
  }

  lemma {:induction false} FindSkips(lines: seq<SovLine>, more: seq<SovLine>, id: nat)
    requires forall k :: 0 <= k < |more| ==> more[k].id != id
    ensures Find(lines + more, id) == Find(lines, id)
  {
    if more == [] {
      assert lines + more == lines;
    } else {
      var n := |more| - 1;
      FindSkips(lines, more[..n], id);
      assert (lines + more)[..|lines + more| - 1] == lines + more[..n];
    }
  }

  /**
   * The web route revises the approved schedule and approves the order straight into the revision.
   * Lines the order adjusts were chosen before the revision copied them, so they name the old rows:
   * the new revision ties exactly when what the order adjusts nets to zero.
   */
  lemma ApprovalIntoFreshRevision(plan: Plan, o: nat, s: nat)
    requires Sound(plan) && Tied(plan) && CreateRevision(plan, s).Ok?
    requires ApproveOrder(CreateRevision(plan, s).value, o, s + 1).Ok?
    ensures var next := ApproveOrder(CreateRevision(plan, s).value, o, s + 1).value;
      Tied(next) <==> AdjustingTotal(plan.orders[o].lines) == 0
  {
    var revised := CreateRevision(plan, s).value;
    RevisionKeepsAll(plan, s);
    ApprovalKeepsTieExactlyWhen(revised, o, s + 1);
    forall k | 0 <= k < |plan.orders[o].lines| && plan.orders[o].lines[k].target.Some?
      ensures ScheduleOf(revised.lines, plan.orders[o].lines[k].target.value) != Some(s + 1)
    {
      var id := plan.orders[o].lines[k].target.value;
      assert id < plan.nextId;
      FindSkips(plan.lines, Copies(LinesOf(plan.lines, s), s + 1, plan.nextId), id);
      FindMeans(plan.lines, id);
    }
    AllElsewhere(revised.lines, s + 1, plan.orders[o].lines);
  }

  /** The route's last step, approving that revision, is then refused for every order that adjusts the contract sum. */
  lemma FreshRevisionIsApprovableExactlyWhen(plan: Plan, o: nat, s: nat)
    requires Sound(plan) && Tied(plan) && CreateRevision(plan, s).Ok? && Total(plan.lines, s, Base) == plan.originalSum
    requires ApproveOrder(CreateRevision(plan, s).value, o, s + 1).Ok?
    ensures var next := ApproveOrder(CreateRevision(plan, s).value, o, s + 1).value;
      LinesOf(next.lines, s + 1) != [] ==>
        (ApproveSchedule(next, s + 1).Ok? <==> AdjustingTotal(plan.orders[o].lines) == 0)
  {
    var next := ApproveOrder(CreateRevision(plan, s).value, o, s + 1).value;
    ApprovalIntoFreshRevision(plan, o, s);
    FreshRevisionFigures(plan, o, s);
    CurrentIsBasePlusAdjustment(next.lines, s + 1);
  }

  lemma {:induction false} FreshRevisionFigures(plan: Plan, o: nat, s: nat)
    requires Sound(plan) && Tied(plan) && CreateRevision(plan, s).Ok?
    requires ApproveOrder(CreateRevision(plan, s).value, o, s + 1).Ok?
    ensures var next := ApproveOrder(CreateRevision(plan, s).value, o, s + 1).value;
      && Sound(next) && next.originalSum == plan.originalSum && |next.schedules| == s + 2 && IsEditable(next, s + 1)
      && Total(next.lines, s + 1, Base) == Total(plan.lines, s, Base)
  {
    var revised := CreateRevision(plan, s).value;
    RevisionFigures(plan, s);
    ApprovalKeepsTieExactlyWhen(revised, o, s + 1);
    ApprovalKeepsBase(revised, o, s + 1);
  }

  lemma {:induction false} RevisionFigures(plan: Plan, s: nat)
    requires Sound(plan) && Tied(plan) && CreateRevision(plan, s).Ok?
    ensures var revised := CreateRevision(plan, s).value;
      && Sound(revised) && Tied(revised)
      && revised.originalSum == plan.originalSum && |revised.schedules| == s + 2 && IsEditable(revised, s + 1)
      && Total(revised.lines, s + 1, Base) == Total(plan.lines, s, Base)
  {
    RevisionKeepsAll(plan, s);
    RevisionKeepsTotal(plan, s, Base);
  }

  lemma {:induction false} ApprovalKeepsBase(plan: Plan, o: nat, s: nat)
    requires Sound(plan) && ApproveOrder(plan, o, s).Ok?
    ensures var next := ApproveOrder(plan, o, s).value;
      && next.originalSum == plan.originalSum && next.schedules == plan.schedules
      && Total(next.lines, s, Base) == Total(plan.lines, s, Base)
  {
    LandingLands(plan, o, s, plan.orders[o].lines);
  }

  // The smallest case: one approved line of 100, and a draft order that adds 10 to it.
  const ONE_LINE: SovLine := SovLine(0, 0, "1", 100, 0, 100, false, None)
  const ONE_ADDITION: OrderLine := OrderLine(Some(0), "", 10)
  const ONE_LINE_PLAN: Plan :=
    Plan(100, [ONE_LINE], [Approved], [ChangeOrder(OrderDraft, [ONE_ADDITION], 10)], 1)

  lemma {:induction false} OneLineRevises()
    ensures Sound(ONE_LINE_PLAN) && Tied(ONE_LINE_PLAN) && Total(ONE_LINE_PLAN.lines, 0, Base) == 100
    ensures CreateRevision(ONE_LINE_PLAN, 0) == Ok(ONE_LINE_PLAN.(
      lines := [ONE_LINE, ONE_LINE.(id := 1, schedule := 1)], schedules := [Superseded, Draft], nextId := 2))
  {
    assert [ONE_LINE][..0] == [] && [ONE_ADDITION][..0] == [];
    assert LinesOf([ONE_LINE], 0) == [ONE_LINE];
    var copy := ONE_LINE.(id := 1, schedule := 1);
    assert Copies([ONE_LINE], 1, 1) == [copy] && [ONE_LINE] + [copy] == [ONE_LINE, copy];
    assert [Approved][0 := Superseded] + [Draft] == [Superseded, Draft];
    assert ONE_LINE_PLAN.orders[..0] == [] && ApprovedTotal(ONE_LINE_PLAN.orders) == 0;
    assert LineTotal([ONE_ADDITION]) == 10;
    TotalOne(ONE_LINE, 0, Base);
    TotalOne(ONE_LINE, 0, Adjustment);
    assert Sound(ONE_LINE_PLAN);
  }

  const ONE_LINE_DRAFT: Plan := Plan(100, [ONE_LINE], [Draft], [], 1)
  const ONE_LINE_ROUTE: seq<Step> :=
    [StartSchedule, Add(0, "1", 100, true), Approve(0), StartOrder, AddToOrder(0, Some(0), "", 10)]

  lemma {:induction false} RunNext(plan: Plan, steps: seq<Step>, k: nat)
    requires k < |steps|
    ensures Run(plan, steps[..k + 1]) == After(Run(plan, steps[..k]), steps[k])
  {
    assert steps[..k + 1][..k] == steps[..k];
  }

  lemma {:induction false} OneLineIsDrafted()
    ensures After(After(Start(100), StartSchedule), Add(0, "1", 100, true)) == ONE_LINE_DRAFT
  {
    assert Strip("1") == "1";
    assert After(Start(100), StartSchedule) == Plan(100, [], [Draft], [], 0);
  }

  lemma {:induction false} OneLineIsApproved()
    ensures After(ONE_LINE_DRAFT, Approve(0)) == ONE_LINE_DRAFT.(schedules := [Approved])
  {
    TotalOne(ONE_LINE, 0, Current);
    assert [ONE_LINE][..0] == [] && LinesOf([ONE_LINE], 0) == [ONE_LINE];
    assert ApprovedTotal([]) == 0 && [Draft][0 := Approved] == [Approved];
  }

  lemma {:induction false} OneAdditionIsOrdered(plan: Plan)
    requires plan == ONE_LINE_DRAFT.(schedules := [Approved])
    ensures After(After(plan, StartOrder), AddToOrder(0, Some(0), "", 10)) == ONE_LINE_PLAN
  {
    assert After(plan, StartOrder) == plan.(orders := [ChangeOrder(OrderDraft, [], 0)]);
    assert Strip("") == "" && [ONE_ADDITION][..0] == [] && LineTotal([ONE_ADDITION]) == 10;
    assert [ONE_LINE][..0] == [] && Find([ONE_LINE], 0) == Some(ONE_LINE);
  }

  /** Five steps lead there from an empty contract. */
  lemma {:induction false} OneLineIsReached()
    ensures Run(Start(100), ONE_LINE_ROUTE) == ONE_LINE_PLAN
  {
    var steps := ONE_LINE_ROUTE;
    assert steps[..0] == [] && steps[..5] == steps;
    RunNext(Start(100), steps, 0);
    RunNext(Start(100), steps, 1);
    OneLineIsDrafted();
    RunNext(Start(100), steps, 2);
    OneLineIsApproved();
    RunNext(Start(100), steps, 3);
    RunNext(Start(100), steps, 4);
    OneAdditionIsOrdered(ONE_LINE_DRAFT.(schedules := [Approved]));
  }

  lemma {:induction false} AdditionLands(revised: Plan)
    requires revised.lines == [ONE_LINE, ONE_LINE.(id := 1, schedule := 1)] && revised.schedules == [Superseded, Draft]
    requires revised.orders == ONE_LINE_PLAN.orders
    ensures ApproveOrder(revised, 0, 1).Ok? && LinesOf(ApproveOrder(revised, 0, 1).value.lines, 1) != []
  {
    assert revised.lines[..1] == [ONE_LINE] && [ONE_LINE][..0] == [] && [ONE_ADDITION][..0] == [];
    assert Find([ONE_LINE], 0) == Some(ONE_LINE);
    assert Find(revised.lines, 0).Some?;
    assert Land(revised, 0, 1, []) == Ok(revised);
    AdjustRow(revised.lines, 0, 10, 1);
    assert ApproveOrder(revised, 0, 1).value.lines == Adjust(revised.lines, 0, 10);
  }

  /** There the route revises the schedule and lands the order, and then refuses to approve the revision. */
  lemma {:induction false} RouteRefusesAnAddition()
    ensures Sound(ONE_LINE_PLAN) && Tied(ONE_LINE_PLAN) && CreateRevision(ONE_LINE_PLAN, 0).Ok?
    ensures var landed := ApproveOrder(CreateRevision(ONE_LINE_PLAN, 0).value, 0, 1);
      landed.Ok? && ApproveSchedule(landed.value, 1) == Err(ValidationError)
  {
    OneLineRevises();
    AdditionLands(CreateRevision(ONE_LINE_PLAN, 0).value);
    assert [ONE_ADDITION][..0] == [] && AdjustingTotal([ONE_ADDITION]) == 10;
    FreshRevisionIsApprovableExactlyWhen(ONE_LINE_PLAN, 0, 0);
    FreshRevisionFigures(ONE_LINE_PLAN, 0, 0);
  }
}
