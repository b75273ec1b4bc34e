/**
 * What the operations of a period do to the stored rows, in terms of the columns alone: which cell an entry lands in,
 * where an order stands in the summary box, what a new period starts from, what a snapshot holds.
 */
module PeriodEffects {
  import opened Applications
  import opened Outcomes
  import opened Periods
  import opened Requisition
  import opened Retainage
  import opened Rounding
  import opened Sums
  import opened Tieout

  // ---------------------------------------------------------------------------------------------
  // Entries
  // ---------------------------------------------------------------------------------------------

  // Entry k is the last one that names row j.
  ghost predicate IsLastFor(entries: seq<PeriodEntry>, j: nat, k: nat) {
    && k < |entries| && entries[k].line == j
    && forall i :: k < i < |entries| ==> entries[i].line != j
  }

  ghost predicate Unnamed(entries: seq<PeriodEntry>, j: nat) {
    forall k :: 0 <= k < |entries| ==> entries[k].line != j
  }

  /**
   * Work this period lands in column E and stored material in column F of the row an entry names, the last entry
   * winning; every other row keeps both, and no row changes its item, C, D or rate.
   */
  ghost predicate EntriesLand(before: seq<Line>, entries: seq<PeriodEntry>, after: seq<Line>) {
    && |after| == |before|
    && forall j: nat :: j < |before| ==>
         && after[j].item == before[j].item && after[j].c == before[j].c && after[j].d == before[j].d
         && after[j].rate == before[j].rate
         && (Unnamed(entries, j) ==> after[j].e == before[j].e && after[j].f == before[j].f)
         && (forall k: nat :: IsLastFor(entries, j, k) ==>
               after[j].e == entries[k].thisPeriod && after[j].f == entries[k].stored)
  }

  lemma {:induction false} OneMoreEntry(
    before: seq<Line>, entries: seq<PeriodEntry>, middle: seq<Line>, entry: PeriodEntry, after: seq<Line>)
    requires EntriesLand(before, entries, middle) && entry.line < |before|
    requires after == middle[entry.line := middle[entry.line].(e := entry.thisPeriod, f := entry.stored)]
    ensures EntriesLand(before, entries + [entry], after)
  {
    var all, n := entries + [entry], |entries|;
    forall j: nat | j < |before|
      ensures Unnamed(all, j) ==> after[j].e == before[j].e && after[j].f == before[j].f
      ensures forall k: nat :: IsLastFor(all, j, k) ==>
        after[j].e == all[k].thisPeriod && after[j].f == all[k].stored
    {
      if Unnamed(all, j) {
        assert all[n].line != j;
        forall k | 0 <= k < n ensures entries[k].line != j { assert all[k].line != j; }
      }
      forall k: nat | IsLastFor(all, j, k)
        ensures after[j].e == all[k].thisPeriod && after[j].f == all[k].stored
      {
        if k < n {
          assert all[n].line != j;
          forall i | k < i < n ensures entries[i].line != j { assert all[i].line != j; }
          assert IsLastFor(entries, j, k);
        }
      }
    }
  }

  lemma {:induction false} TypedEntriesLand(lines: seq<Line>, entries: seq<PeriodEntry>)
    requires forall k :: 0 <= k < |entries| ==> entries[k].line < |lines|
    ensures EntriesLand(lines, entries, WithEntries(lines, entries))
  {
    if |entries| > 0 {
      var rest, last := entries[..|entries| - 1], entries[|entries| - 1];
      assert entries == rest + [last] && last.line < |lines|;
      TypedEntriesLand(lines, rest);
      OneMoreEntry(lines, rest, WithEntries(lines, rest), last, WithEntries(lines, entries));
    }
  }

  // The inputs of a row are its first cells and its rate.
  ghost predicate SameCells(xs: seq<Line>, ys: seq<Line>) {
    && |xs| == |ys|
    && forall j :: 0 <= j < |xs| ==>
         && xs[j].item == ys[j].item && xs[j].c == ys[j].c && xs[j].d == ys[j].d
         && xs[j].e == ys[j].e && xs[j].f == ys[j].f && xs[j].rate == ys[j].rate
  }

  lemma {:induction false} EntriesAreCells(xs: seq<Line>, ys: seq<Line>)
    requires EntriesOf(xs) == EntriesOf(ys)
    ensures SameCells(xs, ys)
  {
    assert |xs| == |EntriesOf(xs)| == |ys|;
    forall j | 0 <= j < |xs|
      ensures EntryOf(xs[j]) == EntryOf(ys[j])
    {
      assert EntriesOf(xs)[j] == EntriesOf(ys)[j];
    }
  }

  lemma {:induction false} LandThenCompute(
    before: seq<Line>, entries: seq<PeriodEntry>, typed: seq<Line>, computed: seq<Line>)
    requires EntriesLand(before, entries, typed) && SameCells(computed, typed)
    ensures EntriesLand(before, entries, computed)
  {
  }

  // ---------------------------------------------------------------------------------------------
  // The change-order box
  // ---------------------------------------------------------------------------------------------

  // The order names this application, or names none and was approved inside its period.
  predicate IsThisMonth(app: Application, order: Order) {
    || order.appliesTo == Some(app.number as int)
    || (order.appliesTo.None? && order.approvedDate.Some?
        && app.periodStart <= order.approvedDate.value && order.approvedDate.value <= app.periodEnd)
  }

  // It names another application, or names none and has no date or one before the period.
  predicate IsPreviousMonths(app: Application, order: Order) {
    || (order.appliesTo.Some? && order.appliesTo.value != app.number)
    || (order.appliesTo.None? && order.approvedDate.None?)
    || (order.appliesTo.None? && order.approvedDate.Some? && order.approvedDate.value < app.periodStart)
  }

  /** An order counts under this period if and only if it names this application or is dated inside its period. */
  lemma {:induction false} ThisPeriodMeans(app: Application, order: Order)
    ensures Classify(app, order).ThisPeriod? <==> IsThisMonth(app, order)
  {
  }

  /** And under previous months if and only if it names another, or names none and has no date or an earlier one. */
  lemma {:induction false} EarlierMeans(app: Application, order: Order)
    ensures Classify(app, order).Earlier? <==> IsPreviousMonths(app, order)
  {
  }

  // The additions, and the sizes of the deductions, among the orders of one column of the box.
  function Additions(app: Application, orders: seq<Order>, thisMonth: bool): (r: seq<int>)
    ensures |r| == |orders|
  {
    seq(|orders|, k requires 0 <= k < |orders| =>
      if (if thisMonth then IsThisMonth(app, orders[k]) else IsPreviousMonths(app, orders[k])) && orders[k].amount > 0
      then orders[k].amount else 0)
  }

  function Deductions(app: Application, orders: seq<Order>, thisMonth: bool): (r: seq<int>)
    ensures |r| == |orders|
  {
    seq(|orders|, k requires 0 <= k < |orders| =>
      if (if thisMonth then IsThisMonth(app, orders[k]) else IsPreviousMonths(app, orders[k])) && orders[k].amount < 0
      then -orders[k].amount else 0)
  }

  /** The four figures of the box, each the sum over the orders that belong in it. */
  ghost predicate BoxShows(app: Application, orders: seq<Order>, box: Box) {
    && box.thisAdditions == Sum(Additions(app, orders, true))
    && box.thisDeductions == Sum(Deductions(app, orders, true))
    && box.prevAdditions == Sum(Additions(app, orders, false))
    && box.prevDeductions == Sum(Deductions(app, orders, false))
  }

  lemma {:induction false} ColumnsGrow(app: Application, orders: seq<Order>, thisMonth: bool)
    requires |orders| > 0
    ensures Additions(app, orders, thisMonth)[..|orders| - 1] == Additions(app, orders[..|orders| - 1], thisMonth)
    ensures Deductions(app, orders, thisMonth)[..|orders| - 1] == Deductions(app, orders[..|orders| - 1], thisMonth)
  {
  }

  lemma {:induction false} BoxIsShown(app: Application, orders: seq<Order>)
    ensures BoxShows(app, orders, BoxOf(app, orders))
  {
    if |orders| > 0 {
      BoxIsShown(app, orders[..|orders| - 1]);
      ColumnsGrow(app, orders, true);
      ColumnsGrow(app, orders, false);
    }
  }

  // ---------------------------------------------------------------------------------------------
  // Opening
  // ---------------------------------------------------------------------------------------------

  /** The rows of a new period: the schedule's, with the carried amount in D and nothing entered yet. */
  ghost predicate StartsFrom(lines: seq<Line>, schedule: seq<ScheduleLine>, carried: map<string, int>) {
    && |lines| == |schedule|
    && forall j :: 0 <= j < |lines| ==>
         && lines[j].item == schedule[j].item && lines[j].c == schedule[j].value && lines[j].rate == schedule[j].rate
         && lines[j].d == (if schedule[j].item in carried then carried[schedule[j].item] else 0)
         && lines[j].e == 0 && lines[j].f == 0
  }

  lemma {:induction false} OpenedStartsFrom(opener: Opener, computed: seq<Line>)
    requires SameCells(computed, Opened(opener).lines)
    ensures StartsFrom(computed, opener.schedule, opener.carried)
  {
  }

  // An open application, a live one, or one issued under a lower number.
  predicate IsWanted(query: Query, app: Application) {
    match query
    case Editable => app.status == Draft || app.status == Rejected
    case Live => app.status != Void
    case IssuedBefore(n) =>
      app.number < n && (app.status == Submitted || app.status == Certified || app.status == Paid)
  }

  ghost predicate NoneWanted(apps: seq<Application>, query: Query) {
    forall k :: 0 <= k < |apps| ==> !IsWanted(query, apps[k])
  }

  // The newest of those: none has a higher number, or the same one later on.
  ghost predicate IsNewest(apps: seq<Application>, query: Query, k: nat) {
    && k < |apps| && IsWanted(query, apps[k])
    && forall j: nat :: j < |apps| && IsWanted(query, apps[j]) ==>
         apps[j].number < apps[k].number || (apps[j].number == apps[k].number && j <= k)
  }

  ghost predicate SomeOpen(apps: seq<Application>) {
    exists k :: 0 <= k < |apps| && (apps[k].status == Draft || apps[k].status == Rejected)
  }

  ghost predicate Overlaps(apps: seq<Application>, periodStart: int) {
    exists k: nat :: IsNewest(apps, Live, k) && periodStart <= apps[k].periodEnd
  }

  lemma {:induction false} NewestStays(apps: seq<Application>, query: Query, i: nat)
    requires |apps| > 0 && IsNewest(apps[..|apps| - 1], query, i)
    requires IsWanted(query, apps[|apps| - 1]) ==> apps[|apps| - 1].number < apps[i].number
    ensures IsNewest(apps, query, i)
  {
    var n := |apps| - 1;
    assert forall j :: 0 <= j < n ==> apps[..n][j] == apps[j];
  }

  lemma {:induction false} LastIsNewest(apps: seq<Application>, query: Query, i: nat)
    requires |apps| > 0 && IsWanted(query, apps[|apps| - 1])
    requires IsNewest(apps[..|apps| - 1], query, i) && apps[i].number <= apps[|apps| - 1].number
    ensures IsNewest(apps, query, |apps| - 1)
  {
    var n := |apps| - 1;
    assert forall j :: 0 <= j < n ==> apps[..n][j] == apps[j];
  }

  /** Each lookup finds the newest of the applications it wants, and nothing only when there is none. */
  lemma {:induction false} LatestIsNewest(apps: seq<Application>, query: Query)
    ensures Latest(apps, query).None? <==> NoneWanted(apps, query)
    ensures Latest(apps, query).Some? ==>
      exists k: nat :: IsNewest(apps, query, k) && apps[k] == Latest(apps, query).value
  {
    if |apps| > 0 {
      var n := |apps| - 1;
      var rest := apps[..n];
      LatestIsNewest(rest, query);
      assert forall j :: 0 <= j < n ==> rest[j] == apps[j];
      assert Matches(query, apps[n]) <==> IsWanted(query, apps[n]);
      if Latest(rest, query).Some? {
        var i: nat :| IsNewest(rest, query, i) && rest[i] == Latest(rest, query).value;
        if IsWanted(query, apps[n]) && apps[i].number <= apps[n].number {
          LastIsNewest(apps, query, i);
        } else {
          NewestStays(apps, query, i);
        }
      } else if IsWanted(query, apps[n]) {
        assert IsNewest(apps, query, n);
      }
    }
  }

  // ---------------------------------------------------------------------------------------------
  // Carrying forward
  // ---------------------------------------------------------------------------------------------

  // The last row with its item number.
  ghost predicate IsLastRow(lines: seq<Line>, j: nat) {
    j < |lines| && forall i :: j < i < |lines| ==> lines[i].item != lines[j].item
  }

  ghost predicate HasItem(lines: seq<Line>, item: string) {
    exists j :: 0 <= j < |lines| && lines[j].item == item
  }

  ghost predicate KeysAre(lines: seq<Line>, carried: map<string, int>) {
    forall item :: item in carried <==> HasItem(lines, item)
  }

  ghost predicate ValuesAre(lines: seq<Line>, carried: map<string, int>) {
    forall j: nat :: IsLastRow(lines, j) ==>
      lines[j].item in carried && carried[lines[j].item] == lines[j].d + lines[j].e
  }

  /** What each row takes to the next period: its D plus its E, the last row of an item number speaking for it. */
  ghost predicate Carries(lines: seq<Line>, carried: map<string, int>) {
    KeysAre(lines, carried) && ValuesAre(lines, carried)
  }

  lemma {:induction false} CarryMapCarries(lines: seq<Line>)
    ensures Carries(lines, CarryMap(lines))
  {
    if |lines| > 0 {
      var n := |lines| - 1;
      CarryMapCarries(lines[..n]);
      OneMoreKey(lines, CarryMap(lines[..n]), lines[n].d + lines[n].e);
      OneMoreValue(lines, CarryMap(lines[..n]));
    }
  }

  lemma {:induction false} OneMoreKey(lines: seq<Line>, carried: map<string, int>, value: int)
    requires |lines| > 0 && KeysAre(lines[..|lines| - 1], carried)
    ensures KeysAre(lines, carried[lines[|lines| - 1].item := value])
  {
    forall item
      ensures item in carried[lines[|lines| - 1].item := value] <==> HasItem(lines, item)
    {
      ItemOfFirst(lines, item);
    }
  }

  lemma {:induction false} ItemOfFirst(lines: seq<Line>, item: string)
    requires |lines| > 0
    ensures HasItem(lines, item) <==> item == lines[|lines| - 1].item || HasItem(lines[..|lines| - 1], item)
  {
    var init := lines[..|lines| - 1];
    if HasItem(init, item) {
      var j :| 0 <= j < |init| && init[j].item == item;
      assert lines[j].item == item;
    }
    if HasItem(lines, item) && item != lines[|init|].item {
      var j :| 0 <= j < |lines| && lines[j].item == item;
      assert init[j].item == item;
    }
  }

  lemma {:induction false} OneMoreValue(lines: seq<Line>, carried: map<string, int>)
    requires |lines| > 0 && ValuesAre(lines[..|lines| - 1], carried)
    ensures var last := lines[|lines| - 1]; ValuesAre(lines, carried[last.item := last.d + last.e])
  {
    var n := |lines| - 1;
    var more := carried[lines[n].item := lines[n].d + lines[n].e];
    forall j: nat | IsLastRow(lines, j)
      ensures lines[j].item in more && more[lines[j].item] == lines[j].d + lines[j].e
    {
      if j < n {
        StillLastRow(lines, j);
      }
    }
  }

  lemma StillLastRow(lines: seq<Line>, j: nat)
    requires IsLastRow(lines, j) && j < |lines| - 1
    ensures var init := lines[..|lines| - 1];
      IsLastRow(init, j) && init[j] == lines[j] && lines[j].item != lines[|lines| - 1].item
  {
  }

  /** A period carries forward from the newest issued application numbered below it, and from nothing without one. */
  ghost predicate CarriesForward(apps: seq<Application>, number: int, carried: map<string, int>) {
    if NoneWanted(apps, IssuedBefore(number)) then carried == map[]
    else exists k: nat :: IsNewest(apps, IssuedBefore(number), k) && Carries(apps[k].lines, carried)
  }

  // What an opening reads for a period: its dates, the next free number, the schedule and the carry-forward.
  ghost predicate IsRead(
    opener: Opener, apps: seq<Application>, schedule: Option<seq<ScheduleLine>>, periodStart: int, periodEnd: int)
  {
    && opener.periodStart == periodStart && opener.periodEnd == periodEnd && schedule == Some(opener.schedule)
    && (forall k :: 0 <= k < |apps| ==> apps[k].number < opener.number)
    && (opener.number == 1 || exists k :: 0 <= k < |apps| && apps[k].number == opener.number - 1)
    && CarriesForward(apps, opener.number, opener.carried)
  }

  lemma {:induction false} CarryForwardIs(apps: seq<Application>, number: int)
    ensures CarriesForward(apps, number, CarriedFrom(PreviousIssued(apps, number)))
  {
    LatestIsNewest(apps, IssuedBefore(number));
    if PreviousIssued(apps, number).Some? {
      CarryMapCarries(PreviousIssued(apps, number).value.lines);
    }
  }

  /** Line 7: what that application certified, or requested where nothing was certified, on top of its own line 7. */
  ghost predicate IsCertifiedToDate(apps: seq<Application>, number: int, amount: int) {
    if NoneWanted(apps, IssuedBefore(number)) then amount == 0
    else exists k: nat ::
      && IsNewest(apps, IssuedBefore(number), k)
      && amount == apps[k].header.line7
           + if apps[k].certified.Some? then apps[k].certified.value else apps[k].header.line8
  }

  lemma {:induction false} CertifiedToDateIs(apps: seq<Application>, number: int)
    ensures IsCertifiedToDate(apps, number, PreviousCertificates(PreviousIssued(apps, number)))
  {
    LatestIsNewest(apps, IssuedBefore(number));
  }

  function OrderAmounts(orders: seq<Order>): (r: seq<int>)
    ensures |r| == |orders|
  {
    seq(|orders|, k requires 0 <= k < |orders| => orders[k].amount)
  }

  lemma {:induction false} NetIsSum(orders: seq<Order>)
    ensures NetOrders(orders) == Sum(OrderAmounts(orders))
  {
    if |orders| > 0 {
      var n := |orders| - 1;
      NetIsSum(orders[..n]);
      assert OrderAmounts(orders)[..n] == OrderAmounts(orders[..n]);
    }
  }

  lemma {:induction false} OnlyOneNewest(apps: seq<Application>, query: Query, j: nat, k: nat)
    requires IsNewest(apps, query, j) && IsNewest(apps, query, k)
    ensures j == k
  {
  }

  /** When an opening is refused, and with which error. */
  lemma {:induction false} OpeningIsRefused(book: Book, periodStart: int, periodEnd: int)
    ensures var r := ReadOpening(book, periodStart, periodEnd);
      var busy := book.schedule.None? || book.revising || SomeOpen(book.applications);
      && (r == Err(ConflictError) <==> busy)
      && (r == Err(ValidationError) <==>
            !busy && (periodEnd < periodStart || Overlaps(book.applications, periodStart)))
      && (r.Ok? <==> !busy && periodStart <= periodEnd && !Overlaps(book.applications, periodStart))
  {
    var apps := book.applications;
    LatestIsNewest(apps, Editable);
    LatestIsNewest(apps, Live);
    if Latest(apps, Live).Some? {
      var i: nat :| IsNewest(apps, Live, i) && apps[i] == Latest(apps, Live).value;
      if Overlaps(apps, periodStart) {
        var k: nat :| IsNewest(apps, Live, k) && periodStart <= apps[k].periodEnd;
        OnlyOneNewest(apps, Live, i, k);
      }
    }
  }

  // ---------------------------------------------------------------------------------------------
  // The frozen record
  // ---------------------------------------------------------------------------------------------

  /** The same header, period and grid, cell by cell from the item number to column I. */
  ghost predicate SameForm(a: Application, b: Application) {
    && a.number == b.number && a.periodStart == b.periodStart && a.periodEnd == b.periodEnd
    && a.header == b.header && |a.lines| == |b.lines|
    && forall k :: 0 <= k < |a.lines| ==>
         && a.lines[k].item == b.lines[k].item
         && a.lines[k].c == b.lines[k].c && a.lines[k].d == b.lines[k].d && a.lines[k].e == b.lines[k].e
         && a.lines[k].f == b.lines[k].f && a.lines[k].g == b.lines[k].g && a.lines[k].h == b.lines[k].h
         && a.lines[k].i == b.lines[k].i
  }

  /** Two applications freeze alike if and only if they are the same form: the fingerprint leaves no figure out. */
  lemma {:induction false} FrozenAlikeExactlyWhen(a: Application, b: Application)
    ensures a.Frozen() == b.Frozen() <==> SameForm(a, b)
  {
    if a.Frozen() == b.Frozen() {
      assert |a.lines| == |a.Frozen().lines| == |b.lines|;
      forall k | 0 <= k < |a.lines|
        ensures FrozenCells(a.lines[k]) == FrozenCells(b.lines[k])
      {
        assert a.Frozen().lines[k] == b.Frozen().lines[k];
      }
    }
  }

  /** The snapshot rules fire exactly on an application that was issued and has no snapshot, or no longer is it. */
  lemma {:induction false} SnapshotFiresExactlyWhen(app: Application, taken: Application)
    requires app.snapshot.Some? ==> app.snapshot.value == taken.Frozen()
    ensures var closed := app.status != Draft && app.status != Rejected && app.status != Void;
      && (Fires(Snapshot(app), SNAPSHOT_MISSING) <==> closed && app.snapshot.None?)
      && (Fires(Snapshot(app), SNAPSHOT_DRIFT) <==> closed && app.snapshot.Some? && !SameForm(app, taken))
      && (forall k :: 0 <= k < |Snapshot(app)| ==> Snapshot(app)[k].severity == Error)
  {
    FrozenAlikeExactlyWhen(app, taken);
    if Snapshot(app) != [] {
      assert Fires(Snapshot(app), Snapshot(app)[0].rule);
    }
  }

  // ---------------------------------------------------------------------------------------------
  // Recomputing
  // ---------------------------------------------------------------------------------------------

  /** Every derived figure of an application: G and H, the box, and what its rule withholds on each row. */
  ghost predicate Reckoned(rule: Spec, orders: seq<Order>, app: Application) {
    && RowsAddUp(app.lines) && BoxShows(app, orders, app.box)
    && exists withheld :: SheetRetains(rule, app.lines, app.header, withheld)
  }

  lemma {:induction false} SheetReckons(
    book: Book, app: Application, rule: Spec, sheet: Sheet, net: int, previous: int)
    requires sheet == Requisition.Compute(EntriesOf(app.lines), book.originalSum, rule, net, previous)
    ensures SameCells(sheet.lines, app.lines)
    ensures Reckoned(
      rule, book.orders, app.(lines := sheet.lines, header := sheet.header, box := BoxOf(app, book.orders)))
  {
    var entries := EntriesOf(app.lines);
    ComputeKeepsEntries(entries, book.originalSum, rule, net, previous);
    ComputeAddsUp(entries, book.originalSum, rule, net, previous);
    EntriesAreCells(sheet.lines, app.lines);
    BoxIsShown(app, book.orders);
    var withheld := ComputeRetains(entries, book.originalSum, rule, net, previous);
    SameBoxShown(
      app, app.(lines := sheet.lines, header := sheet.header, box := BoxOf(app, book.orders)), book.orders);
  }

  lemma {:induction false} SameBoxShown(a: Application, b: Application, orders: seq<Order>)
    requires a.number == b.number && a.periodStart == b.periodStart && a.periodEnd == b.periodEnd
    requires BoxShows(a, orders, b.box)
    ensures BoxShows(b, orders, b.box)
  {
    assert Additions(a, orders, true) == Additions(b, orders, true);
    assert Additions(a, orders, false) == Additions(b, orders, false);
    assert Deductions(a, orders, true) == Deductions(b, orders, true);
    assert Deductions(a, orders, false) == Deductions(b, orders, false);
  }

  /** Lines 1 to 9, from the contract sum, the approved orders and the certificates to date. */
  ghost predicate Headed(originalSum: int, orders: seq<Order>, apps: seq<Application>, app: Application) {
    exists previous ::
      && IsCertifiedToDate(apps, app.number, previous)
      && HeaderAddsUp(app.header, app.lines, originalSum, Sum(OrderAmounts(orders)), previous)
  }

  lemma {:induction false} SheetHeads(book: Book, app: Application, rule: Spec)
    ensures var previous := PreviousCertificates(PreviousIssued(book.applications, app.number));
      var sheet := Requisition.Compute(
        EntriesOf(app.lines), book.originalSum, rule, NetOrders(book.orders), previous);
      Headed(book.originalSum, book.orders, book.applications,
             app.(lines := sheet.lines, header := sheet.header, box := BoxOf(app, book.orders)))
  {
    var previous := PreviousCertificates(PreviousIssued(book.applications, app.number));
    CertifiedToDateIs(book.applications, app.number);
    NetIsSum(book.orders);
    ComputeAddsUp(EntriesOf(app.lines), book.originalSum, rule, NetOrders(book.orders), previous);
  }

  /** A draft of the period: the schedule on its grid, nothing entered, certified or frozen, and all of it computed. */
  ghost predicate IsNewPeriod(
    app: Application, opener: Opener, rule: Spec, orders: seq<Order>, originalSum: int, apps: seq<Application>)
  {
    && app.number == opener.number && app.periodStart == opener.periodStart && app.periodEnd == opener.periodEnd
    && app.status == Status.Draft && app.certified == None && app.snapshot == None
    && StartsFrom(app.lines, opener.schedule, opener.carried)
    && Reckoned(rule, orders, app) && Headed(originalSum, orders, apps, app)
  }

  ghost predicate SomeNumbered(apps: seq<Application>, number: nat) {
    exists j :: 0 <= j < |apps| && apps[j].number == number
  }

  /** A recomputation keeps what was entered and reckons the rest. */
  lemma {:induction false} RecomputeReckons(book: Book, app: Application)
    ensures Recompute(book, app).Ok? <==> book.rule.Some?
    ensures Recompute(book, app).Err? ==> Recompute(book, app) == Err(ValueError)
    ensures book.rule.Some? ==>
      var r := Recompute(book, app).value;
      && r == app.(lines := r.lines, header := r.header, box := r.box)
      && SameCells(r.lines, app.lines) && Reckoned(book.rule.value, book.orders, r)
      && Headed(book.originalSum, book.orders, book.applications, r)
  {
    if book.rule.Some? {
      var net := NetOrders(book.orders);
      var previous := PreviousCertificates(PreviousIssued(book.applications, app.number));
      SheetReckons(
        book, app, book.rule.value,
        Requisition.Compute(EntriesOf(app.lines), book.originalSum, book.rule.value, net, previous), net, previous);
      SheetHeads(book, app, book.rule.value);
    }
  }

  lemma {:induction false} HighestIs(apps: seq<Application>)
    ensures forall k :: 0 <= k < |apps| ==> apps[k].number <= HighestNumber(apps)
    ensures HighestNumber(apps) == 0 || exists k :: 0 <= k < |apps| && apps[k].number == HighestNumber(apps)
  {
    if |apps| > 0 {
      var n := |apps| - 1;
      HighestIs(apps[..n]);
      assert forall k :: 0 <= k < n ==> apps[..n][k] == apps[k];
      if HighestNumber(apps) != apps[n].number && HighestNumber(apps) != 0 {
        var k :| 0 <= k < n && apps[..n][k].number == HighestNumber(apps[..n]);
        assert apps[k].number == HighestNumber(apps);
      }
    }
  }

  // What was withheld, as a share of what was billed, reads above the cap of the rule.
  predicate OverCap(app: Application, rule: Option<Spec>) {
    && rule.Some? && rule.value.cap.Some? && app.header.line4 != 0
    && RoundsAbove(app.header.line5 * BP_SCALE, app.header.line4, rule.value.cap.value)
  }

  /** The cap finding: line 5 over line 4 against the cap, an error exactly where the contract lets it block. */
  lemma {:induction false} CapFiresOver(app: Application, rule: Option<Spec>, blocks: bool)
    ensures Cap(app, rule, blocks) != [] <==> OverCap(app, rule)
    ensures OverCap(app, rule) ==>
      && |Cap(app, rule, blocks)| == 1 && Cap(app, rule, blocks)[0].rule == RETAIN_CAP
      && (Cap(app, rule, blocks)[0].severity == Error <==> blocks)
      && Cap(app, rule, blocks)[0].expected == rule.value.cap.value
      && Cap(app, rule, blocks)[0].actual == PercentOf(app.header.line5, app.header.line4)
  {
    if rule.Some? {
      CapFiresExactlyWhen(rule.value, app.header.line5, app.header.line4);
    }
  }
}
