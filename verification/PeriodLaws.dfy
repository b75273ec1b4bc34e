/** One application: what recomputing it guarantees, whatever was entered. */
module PeriodLaws {
  import opened Applications
  import opened Outcomes
  import opened PeriodMoves
  import opened Periods
  import opened Requisition
  import opened Tieout

  function LaterNet(app: Application, orders: seq<Order>): int {
    if |orders| == 0 then 0
    else
      var last := orders[|orders| - 1];
      LaterNet(app, orders[..|orders| - 1]) + if Classify(app, last).Later? then last.amount else 0
  }

  // The box accounts for every approved order except those it has no place for.
  lemma {:induction false} BoxNet(app: Application, orders: seq<Order>)
    ensures BoxOf(app, orders).Net() == NetOrders(orders) - LaterNet(app, orders)
  {
    if |orders| > 0 {
      var n := |orders| - 1;
      BoxNet(app, orders[..n]);
      AddedNet(BoxOf(app, orders[..n]), Classify(app, orders[n]), orders[n].amount);
    }
  }

  lemma AddedNet(box: Box, when: When, amount: int)
    ensures AddToBox(box, when, amount).Net() == box.Net() + if when.Later? then 0 else amount
  {
  }

  // The orders of one class: their net, and their size regardless of direction.
  function NetOf(app: Application, orders: seq<Order>, when: When): int {
    if |orders| == 0 then 0
    else
      var last := orders[|orders| - 1];
      NetOf(app, orders[..|orders| - 1], when) + if Classify(app, last) == when then last.amount else 0
  }

  function GrossOf(app: Application, orders: seq<Order>, when: When): nat {
    if |orders| == 0 then 0
    else
      var last := orders[|orders| - 1];
      GrossOf(app, orders[..|orders| - 1], when)
      + if Classify(app, last) != when then 0 else if last.amount < 0 then -last.amount else last.amount
  }

  /**
   * Additions less deductions is the net of a class and additions plus deductions its size: that fixes all four
   * entries.
   */
  lemma {:induction false} BoxSplitsByPeriod(app: Application, orders: seq<Order>)
    ensures var box := BoxOf(app, orders);
      && box.thisAdditions - box.thisDeductions == NetOf(app, orders, ThisPeriod)
      && box.thisAdditions + box.thisDeductions == GrossOf(app, orders, ThisPeriod)
      && box.prevAdditions - box.prevDeductions == NetOf(app, orders, Earlier)
      && box.prevAdditions + box.prevDeductions == GrossOf(app, orders, Earlier)
      && box.thisAdditions >= 0 && box.thisDeductions >= 0 && box.prevAdditions >= 0 && box.prevDeductions >= 0
  {
    if |orders| > 0 {
      BoxSplitsByPeriod(app, orders[..|orders| - 1]);
    }
  }

  /** Those are the orders approved after the period end that name no application. */
  lemma LaterMeans(app: Application, order: Order)
    requires app.periodStart <= app.periodEnd
    ensures Classify(app, order).Later?
      <==> order.appliesTo.None? && order.approvedDate.Some? && order.approvedDate.value > app.periodEnd
  {
  }

  // Everything that follows from the entries adds up, against what the live tables say.
  ghost predicate AddsUp(app: Application, world: World) {
    && RowsAddUp(app.lines)
    && HeaderAddsUp(app.header, app.lines, app.header.line1, world.netOrders, PreviousCertificates(world.previous))
  }

  /**
   * After a recomputation no header identity, no retainage total and no G or H cell is ever wrong;
   * the change-order box fails exactly when late orders without an explicit application do not net to zero.
   */
  lemma {:induction false} RecomputeTies(book: Book, app: Application, computed: Application, world: World)
    requires Derives(book, app, computed) && world == WorldOf(book, computed)
    ensures forall rule :: rule != SOV_001 && rule != CO_SUM ==> !Fires(Structural(computed, world), rule)
    ensures !Fires(LineLevel(computed, world), G703_G) && !Fires(LineLevel(computed, world), G703_H)
    ensures Fires(Structural(computed, world), CO_SUM) <==> LaterNet(app, book.orders) != 0
  {
    BoxNet(app, book.orders);
    AddedUpTies(computed, world);
  }

  lemma {:induction false} AddedUpTies(app: Application, world: World)
    requires AddsUp(app, world)
    ensures forall rule :: rule != SOV_001 && rule != CO_SUM ==> !Fires(Structural(app, world), rule)
    ensures !Fires(LineLevel(app, world), G703_G) && !Fires(LineLevel(app, world), G703_H)
    ensures Fires(Structural(app, world), CO_SUM) <==> app.box.Net() != app.header.line2
  {
    forall rule | rule != SOV_001 && rule != CO_SUM
      ensures !Fires(Structural(app, world), rule)
    {
      StructuralRule(app, world, rule);
    }
    LineRule(app, world, G703_G);
    LineRule(app, world, G703_H);
    StructuralRule(app, world, CO_SUM);
  }

  /** A freshly opened or re-entered period is therefore blocked only by its schedule total, its box or column D. */
  lemma {:induction false} OnlyThreeRulesCanBlock(
    book: Book, app: Application, computed: Application, world: World, rule: RuleId)
    requires Derives(book, app, computed) && world == WorldOf(book, computed)
    ensures Fires(Structural(computed, world) + LineLevel(computed, world), rule)
      ==> rule == SOV_001 || rule == CO_SUM || rule == G703_D
  {
    RecomputeTies(book, app, computed, world);
    FiresInConcat(Structural(computed, world), LineLevel(computed, world), rule);
    StructuralRule(computed, world, rule);
    LineRule(computed, world, rule);
  }

  /** Recomputing again changes nothing. */
  lemma {:induction false} RecomputeIsIdempotent(book: Book, app: Application, computed: Application)
    requires Recompute(book, app) == Ok(computed)
    ensures Recompute(book, computed) == Ok(computed)
  {
    RecomputeDerives(book, app);
    SameBox(app, computed, book.orders);
  }

  lemma {:induction false} SameBox(a: Application, b: Application, orders: seq<Order>)
    requires a.number == b.number && a.periodStart == b.periodStart && a.periodEnd == b.periodEnd
    ensures BoxOf(a, orders) == BoxOf(b, orders)
  {
    if |orders| > 0 {
      SameBox(a, b, orders[..|orders| - 1]);
    }
  }

  // Column D of every line is what the application before carries to its item.
  ghost predicate CarriesForward(lines: seq<Line>, previous: Option<Application>) {
    forall k :: 0 <= k < |lines| ==> lines[k].d == CarriedTo(CarriedFrom(previous), lines[k].item)
  }

  // Same item, schedule value and carried amount on every line.
  ghost predicate SameInputs(xs: seq<Line>, ys: seq<Line>) {
    && |xs| == |ys|
    && forall k :: 0 <= k < |xs| ==> xs[k].item == ys[k].item && xs[k].c == ys[k].c && xs[k].d == ys[k].d
  }

  lemma {:induction false} SameEntriesInputs(xs: seq<Line>, ys: seq<Line>)
    requires EntriesOf(xs) == EntriesOf(ys)
    ensures SameInputs(xs, ys)
  {
    assert |xs| == |EntriesOf(ys)| == |ys|;
    forall k | 0 <= k < |xs|
      ensures xs[k].item == ys[k].item && xs[k].c == ys[k].c && xs[k].d == ys[k].d
    {
      assert EntriesOf(xs)[k] == EntryOf(xs[k]) && EntriesOf(ys)[k] == EntryOf(ys[k]);
    }
  }

  lemma {:induction false} SameInputsCarry(xs: seq<Line>, ys: seq<Line>, previous: Option<Application>)
    requires SameInputs(xs, ys)
    ensures ColumnTotal(xs, C) == ColumnTotal(ys, C)
    ensures CarriesForward(xs, previous) <==> CarriesForward(ys, previous)
  {
    EqualTotals(xs, ys, C);
  }

  /**
   * Recomputing an open application leaves it submittable exactly when its schedule values total the contract sum
   * to date, late orders net to zero and column D is the carry-forward: all three can be read before the call.
   */
  lemma {:induction false} RecomputedIsCleanExactlyWhen(book: Book, app: Application, computed: Application)
    requires app.IsEditable() && Derives(book, app, computed)
    ensures Clean(computed, WorldOf(book, computed)) <==>
      && ColumnTotal(app.lines, C) == book.originalSum + NetOrders(book.orders)
      && LaterNet(app, book.orders) == 0
      && CarriesForward(app.lines, PreviousIssued(book.applications, app.number))
  {
    var world := WorldOf(book, computed);
    DerivedFigures(book, app, computed, world);
    CleanFromInputs(app, computed, world, book.originalSum + NetOrders(book.orders), LaterNet(app, book.orders));
  }

  lemma {:induction false} DerivedFigures(book: Book, app: Application, computed: Application, world: World)
    requires Derives(book, app, computed) && world == WorldOf(book, computed)
    ensures computed.status == app.status && SameInputs(computed.lines, app.lines) && AddsUp(computed, world)
    ensures world.previous == PreviousIssued(book.applications, app.number)
    ensures computed.header.line3 == book.originalSum + NetOrders(book.orders)
    ensures computed.box.Net() == computed.header.line2 - LaterNet(app, book.orders)
  {
    BoxNet(app, book.orders);
    SameEntriesInputs(computed.lines, app.lines);
  }

  lemma {:induction false} CleanFromInputs(
    app: Application, computed: Application, world: World, contractSum: int, later: int)
    requires computed.IsEditable() && AddsUp(computed, world) && SameInputs(computed.lines, app.lines)
    requires computed.header.line3 == contractSum && computed.box.Net() == computed.header.line2 - later
    ensures Clean(computed, world)
      <==> ColumnTotal(app.lines, C) == contractSum && later == 0 && CarriesForward(app.lines, world.previous)
  {
    SameInputsCarry(computed.lines, app.lines, world.previous);
    ThreeLeft(computed, world);
  }

  // With everything derived in order, three equations are left to check.
  lemma {:induction false} ThreeLeft(app: Application, world: World)
    requires app.IsEditable() && AddsUp(app, world)
    ensures Clean(app, world) <==>
      && ColumnTotal(app.lines, C) == app.header.line3 && app.box.Net() == app.header.line2
      && CarriesForward(app.lines, world.previous)
  {
    CleanMeans(app, world);
    assert Holds(SOV_001, app, world) <==> ColumnTotal(app.lines, C) == app.header.line3;
    assert Holds(CO_SUM, app, world) <==> app.box.Net() == app.header.line2;
    forall k: nat | k < |app.lines|
      ensures LineHolds(G703_G, app, world, k) && LineHolds(G703_H, app, world, k)
      ensures LineHolds(G703_D, app, world, k)
        <==> app.lines[k].d == CarriedTo(CarriedFrom(world.previous), app.lines[k].item)
    {
    }
  }

  // ---------------------------------------------------------------------------------------------
  // A period from opening to submission
  // ---------------------------------------------------------------------------------------------

  function ScheduleValue(lines: seq<ScheduleLine>): int {
    if |lines| == 0 then 0 else ScheduleValue(lines[..|lines| - 1]) + lines[|lines| - 1].value
  }

  lemma {:induction false} HighestBounds(apps: seq<Application>, k: nat)
    requires k < |apps|
    ensures apps[k].number <= HighestNumber(apps)
  {
    if k < |apps| - 1 {
      HighestBounds(apps[..|apps| - 1], k);
    }
  }

  // The application at its own number is not one of those issued before it.
  lemma NewestIsNotPrevious(apps: seq<Application>, app: Application)
    ensures PreviousIssued(apps + [app], app.number) == PreviousIssued(apps, app.number)
  {
    assert (apps + [app])[..|apps|] == apps;
  }

  lemma {:induction false} FirstLinesTotal(lines: seq<Line>, schedule: seq<ScheduleLine>)
    requires |lines| == |schedule| && forall k :: 0 <= k < |lines| ==> lines[k].c == schedule[k].value
    ensures ColumnTotal(lines, C) == ScheduleValue(schedule)
  {
    if |lines| > 0 {
      FirstLinesTotal(lines[..|lines| - 1], schedule[..|lines| - 1]);
    }
  }

  lemma {:induction false} SameLater(a: Application, b: Application, orders: seq<Order>)
    requires a.number == b.number && a.periodStart == b.periodStart && a.periodEnd == b.periodEnd
    ensures LaterNet(a, orders) == LaterNet(b, orders)
  {
    if |orders| > 0 {
      SameLater(a, b, orders[..|orders| - 1]);
    }
  }

  // Entering figures touches columns E and F only.
  lemma {:induction false} EntriesKeepTheRest(lines: seq<Line>, entries: seq<PeriodEntry>)
    requires forall k :: 0 <= k < |entries| ==> entries[k].line < |lines|
    ensures SameInputs(WithEntries(lines, entries), lines)
  {
    if |entries| > 0 {
      EntriesKeepTheRest(lines, entries[..|entries| - 1]);
    }
  }

  lemma FirstLinesCarry(opener: Opener, previous: Option<Application>)
    requires opener.carried == CarriedFrom(previous)
    ensures CarriesForward(Opened(opener).lines, previous)
    ensures ColumnTotal(Opened(opener).lines, C) == ScheduleValue(opener.schedule)
  {
    FirstLinesTotal(Opened(opener).lines, opener.schedule);
  }

  // An opener that has just read its number can still insert.
  lemma {:induction false} FreshNumberIsFree(book: Book, opener: Opener)
    requires ReadOpening(book, opener.periodStart, opener.periodEnd) == Ok(opener)
    ensures !NumberTaken(book.applications, opener.number)
  {
    forall k | 0 <= k < |book.applications|
      ensures book.applications[k].number != opener.number
    {
      HighestBounds(book.applications, k);
    }
  }

  // What the opener read, and the row its insert computed from it.
  ghost predicate JustOpened(book: Book, begun: Book, opener: Opener) {
    && |begun.applications| == |book.applications| + 1
    && begun.applications == book.applications + [begun.applications[|book.applications|]]
    && begun.originalSum == book.originalSum && begun.orders == book.orders && begun.rule == book.rule
    && Derives(book, Opened(opener), begun.applications[|book.applications|])
    && opener.carried == CarriedFrom(PreviousIssued(book.applications, opener.number))
  }

  /** Reading and inserting with nobody else at work leaves the period just opened. */
  lemma {:induction false} OpeningLeaves(book: Book, opener: Opener, read: Book, begun: Book)
    requires book.rule.Some? && ReadOpening(book, opener.periodStart, opener.periodEnd) == Ok(opener)
    requires Moves(book, Read(opener.periodStart, opener.periodEnd), read)
    requires Moves(read, Insert(|book.openers|), begun)
    ensures JustOpened(book, begun, opener)
  {
    assert read == book.(openers := book.openers + [opener]);
    assert read.openers[|book.openers|] == opener;
    FreshNumberIsFree(book, opener);
  }

  // The figures typed into a new application: its schedule, its carry-forward and its late orders are those it was
  // opened on.
  lemma {:induction false} FreshFigures(book: Book, opener: Opener, first: Application, typed: Application)
    requires Derives(book, Opened(opener), first)
    requires opener.carried == CarriedFrom(PreviousIssued(book.applications, opener.number))
    requires typed == first.(lines := typed.lines) && SameInputs(typed.lines, first.lines)
    ensures CarriesForward(typed.lines, PreviousIssued(book.applications, opener.number))
    ensures ColumnTotal(typed.lines, C) == ScheduleValue(opener.schedule)
    ensures LaterNet(typed, book.orders) == LaterNet(Opened(opener), book.orders)
  {
    var previous := PreviousIssued(book.applications, opener.number);
    FirstLinesCarry(opener, previous);
    SameEntriesInputs(first.lines, Opened(opener).lines);
    SameInputsCarry(first.lines, Opened(opener).lines, previous);
    SameInputsCarry(typed.lines, first.lines, previous);
    SameLater(typed, Opened(opener), book.orders);
  }

  lemma {:induction false} OnlyTheLastChanged(apps: seq<Application>, first: Application, final: Application)
    requires final.number == first.number
    ensures (apps + [first])[|apps| := final] == apps + [final]
    ensures PreviousIssued(apps + [final], final.number) == PreviousIssued(apps + [first], final.number)
  {
    NewestIsNotPrevious(apps, first);
    NewestIsNotPrevious(apps, final);
  }

  /** After any entries in a period just opened, the gate asks only about the schedule and the late orders. */
  lemma {:induction false} EnteredIsCleanExactlyWhen(
    book: Book, opener: Opener, begun: Book, entries: seq<PeriodEntry>, entered: Book)
    requires JustOpened(book, begun, opener) && CanEnter(begun, |book.applications|, entries)
    requires Entered(begun, |book.applications|, entries, entered)
    ensures PassesGate(entered, |book.applications|, true) <==>
      && ScheduleValue(opener.schedule) == book.originalSum + NetOrders(book.orders)
      && LaterNet(Opened(opener), book.orders) == 0
  {
    var n := |book.applications|;
    var first := begun.applications[n];
    var typed, final := Typed(first, entries), entered.applications[n];
    EntriesKeepTheRest(first.lines, entries);
    FreshFigures(book, opener, first, typed);
    NewestIsNotPrevious(book.applications, first);
    RecomputedIsCleanExactlyWhen(begun, typed, final);
    OnlyTheLastChanged(book.applications, first, final);
  }

  /**
   * A period opened with nobody else at work can be submitted after any entries exactly when the approved
   * schedule totals the contract sum to date and the orders dated after the period net to zero.
   */
  lemma {:induction false} FreshPeriodIsSubmittableExactlyWhen(
    book: Book, opener: Opener, read: Book, begun: Book, entries: seq<PeriodEntry>, entered: Book, submitted: Book)
    requires book.rule.Some? && ReadOpening(book, opener.periodStart, opener.periodEnd) == Ok(opener)
    requires Moves(book, Read(opener.periodStart, opener.periodEnd), read)
    requires Moves(read, Insert(|book.openers|), begun)
    requires CanEnter(begun, |book.applications|, entries)
    requires Moves(begun, Enter(|book.applications|, entries), entered)
    requires Moves(entered, Submit(|book.applications|, true, false, false), submitted)
    ensures |book.applications| < |submitted.applications|
    ensures submitted.applications[|book.applications|].status.Submitted? <==>
      && ScheduleValue(opener.schedule) == book.originalSum + NetOrders(book.orders)
      && LaterNet(Opened(opener), book.orders) == 0
  {
    OpeningLeaves(book, opener, read, begun);
    EnteredIsCleanExactlyWhen(book, opener, begun, entries, entered);
  }

  /** An opening can only be completed with a retainage rule on file. */
  lemma {:induction false} NoRuleNoPeriod(book: Book, k: nat)
    requires book.rule.None?
    ensures Try(book, Insert(k)).Err? && After(book, Insert(k)) == book
  {
    if k < |book.openers| {
      RecomputeDerives(book, Opened(book.openers[k]));
    }
  }
}
