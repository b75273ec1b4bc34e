/** Whole runs of one contract: column D and line 7 tell the history of what was billed and certified. */
module CarryForwardRuns {
  import opened Applications
  import opened Outcomes
  import opened PeriodMoves
  import opened PeriodRuns
  import opened Periods
  import opened Requisition
  import opened Tieout

  // ---------------------------------------------------------------------------------------------
  // What was billed and certified before an application
  // ---------------------------------------------------------------------------------------------

  /** Column E billed against one item on one continuation sheet. */
  function WorkOn(lines: seq<Line>, item: string): int {
    if |lines| == 0 then 0
    else WorkOn(lines[..|lines| - 1], item) + if lines[|lines| - 1].item == item then lines[|lines| - 1].e else 0
  }

  function IssuedWork(app: Application, item: string): int {
    if app.IsIssued() then WorkOn(app.lines, item) else 0
  }

  /** Column E for the item, over every issued application among the first n. */
  function BilledBefore(apps: seq<Application>, n: nat, item: string): int
    requires n <= |apps|
  {
    if n == 0 then 0 else BilledBefore(apps, n - 1, item) + IssuedWork(apps[n - 1], item)
  }

  function IssuedPayment(app: Application): int {
    if app.IsIssued() then app.CertifiedPayment() else 0
  }

  /** Certified payments over every issued application among the first n. */
  function CertifiedBefore(apps: seq<Application>, n: nat): int
    requires n <= |apps|
  {
    if n == 0 then 0 else CertifiedBefore(apps, n - 1) + IssuedPayment(apps[n - 1])
  }

  /** All work of one application, and all work ever billed up to and including the first n. */
  function IssuedTotal(app: Application): int {
    if app.IsIssued() then ColumnTotal(app.lines, E) else 0
  }

  function AllWork(apps: seq<Application>, n: nat): int
    requires n <= |apps|
  {
    if n == 0 then 0 else AllWork(apps, n - 1) + IssuedTotal(apps[n - 1])
  }

  /** Payments requested over every issued application among the first n. */
  function RequestedBefore(apps: seq<Application>, n: nat): int
    requires n <= |apps|
  {
    if n == 0 then 0
    else RequestedBefore(apps, n - 1) + if apps[n - 1].IsIssued() then apps[n - 1].header.line8 else 0
  }

  // ---------------------------------------------------------------------------------------------
  // The invariants
  // ---------------------------------------------------------------------------------------------

  function Items(lines: seq<Line>): (r: seq<string>)
    ensures |r| == |lines|
  {
    seq(|lines|, k requires 0 <= k < |lines| => lines[k].item)
  }

  /** Column D of every issued line is everything billed for that item on earlier issued applications. */
  ghost predicate ColumnDIsHistory(apps: seq<Application>) {
    forall n: nat, k: nat :: n < |apps| && apps[n].IsIssued() && k < |apps[n].lines| ==>
      apps[n].lines[k].d == BilledBefore(apps, n, apps[n].lines[k].item)
  }

  /** Line 7 of every issued application is everything certified on earlier issued applications. */
  ghost predicate Line7IsHistory(apps: seq<Application>) {
    forall n: nat :: n < |apps| && apps[n].IsIssued() ==> apps[n].header.line7 == CertifiedBefore(apps, n)
  }

  // The equations an issued application was gated on, which nothing can undo.
  ghost predicate IssuedEquations(app: Application) {
    && app.header.line8 == app.header.line6 - app.header.line7
    && app.header.line4 == ColumnTotal(app.lines, G)
    && (forall k :: 0 <= k < |app.lines| ==> app.lines[k].g == app.lines[k].d + app.lines[k].e + app.lines[k].f)
  }

  ghost predicate AllIssuedEquations(apps: seq<Application>) {
    forall n :: 0 <= n < |apps| && apps[n].IsIssued() ==> IssuedEquations(apps[n])
  }

  // Item numbers are unique on every sheet and never disappear from a later one.
  ghost predicate ItemsGrow(book: Book) {
    var apps := book.applications;
    && (forall n :: 0 <= n < |apps| ==> Distinct(Items(apps[n].lines)))
    && (forall m, n :: 0 <= m < n < |apps| ==> Within(Items(apps[m].lines), Items(apps[n].lines)))
    && (book.schedule.None? ==> apps == [] && book.openers == [])
    && (book.schedule.Some? ==>
          && Distinct(Names(book.schedule.value))
          && (forall n :: 0 <= n < |apps| ==> Within(Items(apps[n].lines), Names(book.schedule.value))))
    && (forall k :: 0 <= k < |book.openers| ==> OpenerItems(book, book.openers[k]))
  }

  ghost predicate OpenerItems(book: Book, opener: Opener) {
    && Distinct(Names(opener.schedule))
    && (book.schedule.Some? ==> Within(Names(opener.schedule), Names(book.schedule.value)))
    && (opener.number == |book.applications| + 1 ==>
          forall n :: 0 <= n < |book.applications| ==>
            Within(Items(book.applications[n].lines), Names(opener.schedule)))
  }

  // ---------------------------------------------------------------------------------------------
  // Sums over one sheet
  // ---------------------------------------------------------------------------------------------

  lemma {:induction false} WorkOnAbsent(lines: seq<Line>, item: string)
    requires item !in Items(lines)
    ensures WorkOn(lines, item) == 0
  {
    if |lines| > 0 {
      var n := |lines| - 1;
      assert Items(lines)[n] == lines[n].item;
      forall k | 0 <= k < n ensures Items(lines[..n])[k] != item { assert Items(lines)[k] == lines[k].item; }
      WorkOnAbsent(lines[..n], item);
    }
  }

  lemma {:induction false} WorkOnPresent(lines: seq<Line>, k: nat)
    requires k < |lines| && Distinct(Items(lines))
    ensures WorkOn(lines, lines[k].item) == lines[k].e
  {
    var n := |lines| - 1;
    assert Items(lines[..n]) == Items(lines)[..n];
    if k == n {
      assert forall j :: 0 <= j < n ==> Items(lines)[j] != Items(lines)[n];
      WorkOnAbsent(lines[..n], lines[k].item);
    } else {
      WorkOnPresent(lines[..n], k);
      assert Items(lines)[k] != Items(lines)[n];
    }
  }

  // The carry map of a sheet with unique items holds D + E of each of its lines, and nothing else.
  lemma {:induction false} CarryMapHolds(lines: seq<Line>)
    requires Distinct(Items(lines))
    ensures forall k :: 0 <= k < |lines| ==>
      lines[k].item in CarryMap(lines) && CarryMap(lines)[lines[k].item] == CarryForward(lines[k])
    ensures forall item :: item in CarryMap(lines) ==> item in Items(lines)
  {
    if |lines| > 0 {
      var n := |lines| - 1;
      assert Items(lines[..n]) == Items(lines)[..n];
      CarryMapHolds(lines[..n]);
      forall k | 0 <= k < |lines|
        ensures lines[k].item in CarryMap(lines) && CarryMap(lines)[lines[k].item] == CarryForward(lines[k])
      {
        if k < n {
          assert lines[..n][k] == lines[k] && Items(lines)[k] != Items(lines)[n];
        }
      }
      assert Items(lines)[n] == lines[n].item;
    }
  }

  // ---------------------------------------------------------------------------------------------
  // History under change
  // ---------------------------------------------------------------------------------------------

  // The first n applications count the same in both lists.
  ghost predicate SameHistory(apps: seq<Application>, next: seq<Application>, n: nat) {
    && n <= |apps| && n <= |next|
    && (forall k :: 0 <= k < n ==> apps[k].IsIssued() == next[k].IsIssued())
    && (forall k :: 0 <= k < n && apps[k].IsIssued() ==> apps[k].lines == next[k].lines)
  }

  lemma {:induction false} HistoryKeepsBilled(apps: seq<Application>, next: seq<Application>, n: nat, item: string)
    requires SameHistory(apps, next, n)
    ensures BilledBefore(apps, n, item) == BilledBefore(next, n, item)
  {
    if n > 0 {
      HistoryKeepsBilled(apps, next, n - 1, item);
    }
  }

  ghost predicate SamePayments(apps: seq<Application>, next: seq<Application>, n: nat) {
    && n <= |apps| && n <= |next|
    && (forall k :: 0 <= k < n ==> IssuedPayment(apps[k]) == IssuedPayment(next[k]))
  }

  lemma {:induction false} PaymentsKeepCertified(apps: seq<Application>, next: seq<Application>, n: nat)
    requires SamePayments(apps, next, n)
    ensures CertifiedBefore(apps, n) == CertifiedBefore(next, n)
  {
    if n > 0 {
      PaymentsKeepCertified(apps, next, n - 1);
    }
  }

  lemma {:induction false} NothingIssuedBetween(apps: seq<Application>, m: nat, n: nat, item: string)
    requires m <= n <= |apps| && forall k :: m <= k < n ==> !apps[k].IsIssued()
    ensures BilledBefore(apps, n, item) == BilledBefore(apps, m, item)
    ensures CertifiedBefore(apps, n) == CertifiedBefore(apps, m)
  {
    if m < n {
      NothingIssuedBetween(apps, m, n - 1, item);
    }
  }

  lemma {:induction false} NeverOnASheet(apps: seq<Application>, n: nat, item: string)
    requires n <= |apps| && forall k :: 0 <= k < n ==> item !in Items(apps[k].lines)
    ensures BilledBefore(apps, n, item) == 0
  {
    if n > 0 {
      NeverOnASheet(apps, n - 1, item);
      WorkOnAbsent(apps[n - 1].lines, item);
    }
  }

  // Where the previous issued application of position n stands.
  lemma {:induction false} PreviousIssuedStands(apps: seq<Application>, n: nat)
    requires Numbered(apps) && n <= |apps|
    ensures var p := PreviousIssued(apps, n + 1);
      && (p.None? ==> forall k :: 0 <= k < n ==> !apps[k].IsIssued())
      && (p.Some? ==>
            && 1 <= p.value.number <= n && apps[p.value.number - 1] == p.value && p.value.IsIssued()
            && forall k :: p.value.number <= k < n ==> !apps[k].IsIssued())
  {
    LatestMeans(apps, IssuedBefore(n + 1));
    forall k | 0 <= k < n && apps[k].IsIssued()
      ensures Matches(IssuedBefore(n + 1), apps[k])
    {
    }
  }

  /**
   * What the opening of period n + 1 and its G703-D gate carry to an item is exactly the billing history of the
   * item.
   */
  lemma {:induction false} CarryIsHistory(book: Book, n: nat, item: string)
    requires Numbered(book.applications) && n <= |book.applications|
    requires ColumnDIsHistory(book.applications) && ItemsGrow(book)
    ensures CarriedTo(CarriedFrom(PreviousIssued(book.applications, n + 1)), item)
      == BilledBefore(book.applications, n, item)
  {
    var apps := book.applications;
    PreviousIssuedStands(apps, n);
    var previous := PreviousIssued(apps, n + 1);
    if previous.None? {
      NothingIssuedBetween(apps, 0, n, item);
    } else {
      var m := previous.value.number - 1;
      NothingIssuedBetween(apps, m + 1, n, item);
      CarryFromSheet(book, m, item);
    }
  }

  /** An opener reads, for every item, everything ever billed for it. */
  lemma {:induction false} OpeningReadsHistory(book: Book, opener: Opener, item: string)
    requires Orderly(book) && ColumnDIsHistory(book.applications) && ItemsGrow(book)
    requires ReadOpening(book, opener.periodStart, opener.periodEnd) == Ok(opener)
    ensures opener.number == |book.applications| + 1
    ensures CarriedTo(opener.carried, item) == BilledBefore(book.applications, |book.applications|, item)
  {
    HighestIsCount(book.applications);
    CarryIsHistory(book, |book.applications|, item);
  }

  lemma {:induction false} CarryFromSheet(book: Book, m: nat, item: string)
    requires m < |book.applications| && book.applications[m].IsIssued()
    requires ColumnDIsHistory(book.applications) && ItemsGrow(book)
    ensures CarriedTo(CarryMap(book.applications[m].lines), item) == BilledBefore(book.applications, m + 1, item)
  {
    var apps := book.applications;
    var lines := apps[m].lines;
    CarryMapHolds(lines);
    if item in Items(lines) {
      var k: nat :| k < |lines| && Items(lines)[k] == item;
      WorkOnPresent(lines, k);
      assert lines[k].d == BilledBefore(apps, m, item);
    } else {
      WorkOnAbsent(lines, item);
      forall j | 0 <= j < m ensures item !in Items(apps[j].lines) {
        assert Within(Items(apps[j].lines), Items(lines));
      }
      NeverOnASheet(apps, m, item);
    }
  }

  /** What the first computation and the G702-007 gate of application n + 1 read is exactly the certificate history. */
  lemma {:induction false} CertificatesAreHistory(apps: seq<Application>, n: nat)
    requires Numbered(apps) && n <= |apps| && Line7IsHistory(apps)
    ensures PreviousCertificates(PreviousIssued(apps, n + 1)) == CertifiedBefore(apps, n)
  {
    PreviousIssuedStands(apps, n);
    var previous := PreviousIssued(apps, n + 1);
    if previous.None? {
      NothingIssuedBetween(apps, 0, n, "");
    } else {
      NothingIssuedBetween(apps, previous.value.number, n, "");
    }
  }

  // ---------------------------------------------------------------------------------------------
  // Steps
  // ---------------------------------------------------------------------------------------------

  lemma {:induction false} DerivesKeepsItems(book: Book, app: Application, computed: Application)
    requires Derives(book, app, computed)
    ensures Items(computed.lines) == Items(app.lines)
  {
    assert |computed.lines| == |EntriesOf(app.lines)| == |app.lines|;
    forall k | 0 <= k < |app.lines|
      ensures computed.lines[k].item == app.lines[k].item
    {
      assert EntriesOf(computed.lines)[k] == EntryOf(computed.lines[k]);
      assert EntriesOf(app.lines)[k] == EntryOf(app.lines[k]);
    }
  }

  lemma {:induction false} EntriesKeepItems(lines: seq<Line>, entries: seq<PeriodEntry>)
    requires forall k :: 0 <= k < |entries| ==> entries[k].line < |lines|
    ensures Items(WithEntries(lines, entries)) == Items(lines)
  {
    if |entries| > 0 {
      var n := |entries| - 1;
      EntriesKeepItems(lines, entries[..n]);
      var init := WithEntries(lines, entries[..n]);
      forall k | 0 <= k < |lines|
        ensures WithEntries(lines, entries)[k].item == lines[k].item
      {
        assert Items(init)[k] == Items(lines)[k];
      }
    }
  }

  lemma {:induction false} EnterKeepsItems(book: Book, k: nat, entries: seq<PeriodEntry>, next: Book)
    requires CanEnter(book, k, entries) && Entered(book, k, entries, next)
    ensures Items(next.applications[k].lines) == Items(book.applications[k].lines)
  {
    EntriesKeepItems(book.applications[k].lines, entries);
    DerivesKeepsItems(book, Typed(book.applications[k], entries), next.applications[k]);
  }

  // No step changes the items of a stored sheet.
  lemma {:induction false} UpdateKeepsItems(book: Book, step: Step, next: Book, k: nat)
    requires Moves(book, step, next) && k < |book.applications|
    ensures k < |next.applications|
    ensures Items(next.applications[k].lines) == Items(book.applications[k].lines)
  {
    if step.Enter? && step.app == k && CanEnter(book, k, step.entries) {
      EnterKeepsItems(book, k, step.entries, next);
    }
  }

  lemma WithinTransitive(a: seq<string>, b: seq<string>, c: seq<string>)
    requires Within(a, b) && Within(b, c)
    ensures Within(a, c)
  {
  }

  lemma {:induction false} StepKeepsItemsGrowing(book: Book, step: Step, next: Book)
    requires Moves(book, step, next) && Orderly(book) && ItemsGrow(book) && Respects(ItemsPersist, book, step)
    ensures ItemsGrow(next)
  {
    match step
    case Read(periodStart, periodEnd) => ReadKeepsItems(book, periodStart, periodEnd);
    case Insert(k) => if CanInsert(book, k) { InsertKeepsItems(book, k, next); }
    case NewSchedule(lines) => ScheduleKeepsItems(book, lines);
    case _ =>
      forall k: nat | k < |book.applications|
        ensures k < |next.applications| && Items(next.applications[k].lines) == Items(book.applications[k].lines)
      {
        UpdateKeepsItems(book, step, next, k);
      }
      SameShape(book, step, next);
      SameItemsGrow(book, next);
  }

  lemma {:induction false} SameShape(book: Book, step: Step, next: Book)
    requires Moves(book, step, next) && !step.Read? && !step.Insert? && !step.NewSchedule?
    ensures next.schedule == book.schedule && next.openers == book.openers
    ensures |next.applications| == |book.applications|
  {
  }

  lemma {:induction false} SameItemsGrow(book: Book, next: Book)
    requires ItemsGrow(book) && next.schedule == book.schedule && next.openers == book.openers
    requires |next.applications| == |book.applications|
    requires forall k :: 0 <= k < |book.applications| ==>
      Items(next.applications[k].lines) == Items(book.applications[k].lines)
    ensures ItemsGrow(next)
  {
    forall k | 0 <= k < |next.openers| ensures OpenerItems(next, next.openers[k]) {
      assert OpenerItems(book, book.openers[k]);
    }
  }

  lemma {:induction false} ReadKeepsItems(book: Book, periodStart: int, periodEnd: int)
    requires Orderly(book) && ItemsGrow(book)
    ensures ItemsGrow(Kept(book, Plain(book, Read(periodStart, periodEnd))))
  {
    var next := Kept(book, Plain(book, Read(periodStart, periodEnd)));
    forall k | 0 <= k < |next.openers| ensures OpenerItems(next, next.openers[k]) {
      if k < |book.openers| {
        assert OpenerItems(book, book.openers[k]);
      }
    }
  }

  lemma {:induction false} InsertKeepsItems(book: Book, k: nat, next: Book)
    requires Orderly(book) && ItemsGrow(book) && CanInsert(book, k) && Inserted(book, k, next)
    ensures ItemsGrow(next)
  {
    var opener, app := book.openers[k], next.applications[|book.applications|];
    assert OpenerSound(book.applications, opener) && OpenerItems(book, opener);
    FreeNumberIsNext(book.applications, opener.number);
    DerivesKeepsItems(book, Opened(opener), app);
    assert Items(FirstLines(opener)) == Names(opener.schedule);
    AppendKeepsItems(book, app, opener);
  }

  lemma {:induction false} AppendKeepsItems(book: Book, app: Application, opener: Opener)
    requires Orderly(book) && ItemsGrow(book) && book.schedule.Some?
    requires OpenerItems(book, opener) && opener.number == |book.applications| + 1
    requires Items(app.lines) == Names(opener.schedule)
    ensures ItemsGrow(book.(applications := book.applications + [app]))
  {
    var apps, next := book.applications, book.(applications := book.applications + [app]);
    forall m, n | 0 <= m < n < |next.applications|
      ensures Within(Items(next.applications[m].lines), Items(next.applications[n].lines))
    {
      assert next.applications[m] == apps[m];
    }
    forall j | 0 <= j < |next.openers| ensures OpenerItems(next, next.openers[j]) {
      assert OpenerItems(book, book.openers[j]) && OpenerSound(apps, book.openers[j]);
    }
  }

  lemma {:induction false} ScheduleKeepsItems(book: Book, lines: seq<ScheduleLine>)
    requires ItemsGrow(book) && Respects(ItemsPersist, book, NewSchedule(lines))
    ensures ItemsGrow(book.(schedule := Some(lines), revising := false))
  {
    var next := book.(schedule := Some(lines), revising := false);
    if book.schedule.Some? {
      forall n | 0 <= n < |book.applications|
        ensures Within(Items(book.applications[n].lines), Names(lines))
      {
        WithinTransitive(Items(book.applications[n].lines), Names(book.schedule.value), Names(lines));
      }
      forall k | 0 <= k < |next.openers| ensures OpenerItems(next, next.openers[k]) {
        assert OpenerItems(book, book.openers[k]);
        WithinTransitive(Names(book.openers[k].schedule), Names(book.schedule.value), Names(lines));
      }
    }
  }

  // An application that becomes issued is the last one, and it passed the gates.
  lemma {:induction false} NewlyIssued(book: Book, step: Step, next: Book, n: nat)
    requires Moves(book, step, next) && Orderly(book) && Respects(PaymentsOnIssued, book, step)
    requires n < |next.applications| && next.applications[n].IsIssued()
    requires n < |book.applications| ==> !book.applications[n].IsIssued()
    ensures n == |book.applications| - 1 && step.Submit? && step.app == n && PassesGate(book, n, true)
    ensures next.applications[n].lines == book.applications[n].lines
    ensures next.applications[n].header == book.applications[n].header
  {
  }

  lemma {:induction false} GateEquations(app: Application, world: World)
    requires app.IsEditable() && Clean(app, world)
    ensures IssuedEquations(app) && app.header.line7 == PreviousCertificates(world.previous)
    ensures forall k :: 0 <= k < |app.lines| ==>
      app.lines[k].d == CarriedTo(CarriedFrom(world.previous), app.lines[k].item)
  {
    CleanMeans(app, world);
    assert Holds(G702_004, app, world) && Holds(G702_008, app, world) && Holds(G702_007, app, world);
    forall k: nat | k < |app.lines|
      ensures app.lines[k].g == app.lines[k].d + app.lines[k].e + app.lines[k].f
      ensures app.lines[k].d == CarriedTo(CarriedFrom(world.previous), app.lines[k].item)
    {
      assert LineHolds(G703_G, app, world, k) && LineHolds(G703_D, app, world, k);
    }
  }

  lemma {:induction false} StepKeepsEquations(book: Book, step: Step, next: Book)
    requires Moves(book, step, next) && Orderly(book) && Respects(PaymentsOnIssued, book, step)
    requires AllIssuedEquations(book.applications)
    ensures AllIssuedEquations(next.applications)
  {
    var apps := book.applications;
    StepEvolves(book, step, next);
    forall n: nat | n < |next.applications| && next.applications[n].IsIssued()
      ensures IssuedEquations(next.applications[n])
    {
      if n < |apps| && apps[n].IsIssued() {
        assert Evolves(apps[n], next.applications[n]);
      } else {
        NewlyIssued(book, step, next, n);
        GateEquations(apps[n], WorldOf(book, apps[n]));
      }
    }
  }

  // Up to an issued application, the list of issued sheets is unchanged by a step that respects the hypotheses.
  // Below an application that is issued after the step, nothing becomes issued or stops being so.
  lemma {:induction false} OneKeepsHistory(book: Book, step: Step, next: Book, n: nat, k: nat)
    requires Moves(book, step, next) && Orderly(book)
    requires Respects(PaymentsOnIssued, book, step) && Respects(VoidsOnLatest, book, step)
    requires k < n < |book.applications| && n < |next.applications| && next.applications[n].IsIssued()
    requires !book.applications[n].IsIssued() ==> step.Submit?
    ensures book.applications[k].IsIssued() == next.applications[k].IsIssued()
  {
    if next.applications[k].IsIssued() && !book.applications[k].IsIssued() {
      NewlyIssued(book, step, next, k);
    }
  }

  lemma {:induction false} StepKeepsHistory(book: Book, step: Step, next: Book, n: nat)
    requires Moves(book, step, next) && Orderly(book)
    requires Respects(PaymentsOnIssued, book, step) && Respects(VoidsOnLatest, book, step)
    requires n < |next.applications| && next.applications[n].IsIssued()
    ensures n < |book.applications| && SameHistory(book.applications, next.applications, n)
  {
    var apps := book.applications;
    StepEvolves(book, step, next);
    if n >= |apps| || !apps[n].IsIssued() {
      NewlyIssued(book, step, next, n);
    }
    forall k: nat | k < n
      ensures apps[k].IsIssued() == next.applications[k].IsIssued()
      ensures apps[k].IsIssued() ==> apps[k].lines == next.applications[k].lines
    {
      assert Evolves(apps[k], next.applications[k]);
      OneKeepsHistory(book, step, next, n, k);
    }
  }

  lemma {:induction false} StepKeepsColumnD(book: Book, step: Step, next: Book)
    requires Moves(book, step, next) && Orderly(book) && ItemsGrow(book) && ColumnDIsHistory(book.applications)
    requires Respects(PaymentsOnIssued, book, step) && Respects(VoidsOnLatest, book, step)
    ensures ColumnDIsHistory(next.applications)
  {
    StepEvolves(book, step, next);
    forall n: nat, k: nat
      | n < |next.applications| && next.applications[n].IsIssued() && k < |next.applications[n].lines|
      ensures next.applications[n].lines[k].d == BilledBefore(next.applications, n, next.applications[n].lines[k].item)
    {
      IssuedColumnDKept(book, step, next, n, k);
    }
  }

  lemma {:induction false} IssuedColumnDKept(book: Book, step: Step, next: Book, n: nat, k: nat)
    requires Moves(book, step, next) && Orderly(book) && ItemsGrow(book) && ColumnDIsHistory(book.applications)
    requires Respects(PaymentsOnIssued, book, step) && Respects(VoidsOnLatest, book, step)
    requires n < |next.applications| && next.applications[n].IsIssued() && k < |next.applications[n].lines|
    requires n < |book.applications| ==> Evolves(book.applications[n], next.applications[n])
    ensures next.applications[n].lines[k].d == BilledBefore(next.applications, n, next.applications[n].lines[k].item)
  {
    var apps := book.applications;
    StepKeepsHistory(book, step, next, n);
    HistoryKeepsBilled(apps, next.applications, n, next.applications[n].lines[k].item);
    if !apps[n].IsIssued() {
      NewlyIssued(book, step, next, n);
      GateEquations(apps[n], WorldOf(book, apps[n]));
      CarryIsHistory(book, n, apps[n].lines[k].item);
    }
  }

  lemma {:induction false} StepKeepsLine7(book: Book, step: Step, next: Book)
    requires Moves(book, step, next) && Orderly(book) && Line7IsHistory(book.applications)
    requires Respects(PaymentsOnIssued, book, step)
    requires Respects(VoidsOnLatest, book, step) && Respects(CertifiesLatest, book, step)
    ensures Line7IsHistory(next.applications)
  {
    StepEvolves(book, step, next);
    forall n: nat | n < |next.applications| && next.applications[n].IsIssued()
      ensures next.applications[n].header.line7 == CertifiedBefore(next.applications, n)
    {
      IssuedLine7Kept(book, step, next, n);
    }
  }

  lemma {:induction false} IssuedLine7Kept(book: Book, step: Step, next: Book, n: nat)
    requires Moves(book, step, next) && Orderly(book) && Line7IsHistory(book.applications)
    requires Respects(PaymentsOnIssued, book, step)
    requires Respects(VoidsOnLatest, book, step) && Respects(CertifiesLatest, book, step)
    requires n < |next.applications| && next.applications[n].IsIssued()
    requires n < |book.applications| ==> Evolves(book.applications[n], next.applications[n])
    ensures next.applications[n].header.line7 == CertifiedBefore(next.applications, n)
  {
    var apps := book.applications;
    StepKeepsHistory(book, step, next, n);
    StepKeepsPayments(book, step, next, n);
    PaymentsKeepCertified(apps, next.applications, n);
    if !apps[n].IsIssued() {
      NewlyIssued(book, step, next, n);
      GateEquations(apps[n], WorldOf(book, apps[n]));
      CertificatesAreHistory(apps, n);
    }
  }

  lemma {:induction false} StepKeepsPayments(book: Book, step: Step, next: Book, n: nat)
    requires Moves(book, step, next) && Orderly(book)
    requires Respects(PaymentsOnIssued, book, step)
    requires Respects(VoidsOnLatest, book, step) && Respects(CertifiesLatest, book, step)
    requires n < |next.applications| && next.applications[n].IsIssued()
    ensures n < |book.applications| && SamePayments(book.applications, next.applications, n)
  {
    var apps := book.applications;
    StepEvolves(book, step, next);
    StepKeepsHistory(book, step, next, n);
    if !apps[n].IsIssued() {
      NewlyIssued(book, step, next, n);
    }
    forall k: nat | k < n
      ensures IssuedPayment(apps[k]) == IssuedPayment(next.applications[k])
    {
      assert Evolves(apps[k], next.applications[k]);
      OneKeepsPayment(book, step, next, n, k);
    }
  }

  lemma {:induction false} OneKeepsPayment(book: Book, step: Step, next: Book, n: nat, k: nat)
    requires Moves(book, step, next) && Respects(CertifiesLatest, book, step)
    requires k < n < |book.applications| && n < |next.applications| && next.applications[n].IsIssued()
    requires !book.applications[n].IsIssued() ==> step.Submit?
    ensures next.applications[k].certified == book.applications[k].certified
  {
  }

  // ---------------------------------------------------------------------------------------------
  // Runs
  // ---------------------------------------------------------------------------------------------

  const CARRY_HYPOTHESES: set<Hypothesis> := {PaymentsOnIssued, VoidsOnLatest, ItemsPersist}
  const CERTIFICATE_HYPOTHESES: set<Hypothesis> := {PaymentsOnIssued, VoidsOnLatest, CertifiesLatest}

  lemma {:induction false} RunRespectsFewer(
    fewer: set<Hypothesis>, more: set<Hypothesis>, books: seq<Book>, steps: seq<Step>)
    requires fewer <= more && RunRespects(more, books, steps)
    ensures RunRespects(fewer, books, steps)
  {
    forall k | 0 <= k < |steps|
      ensures RespectsAll(fewer, books[k], steps[k])
    {
      assert RespectsAll(more, books[k], steps[k]);
    }
  }

  /**
   * Over every run in which item numbers persist, voids touch only the latest issued application and
   * payments only issued ones: column D of every issued line is the sum of column E for its item over
   * all earlier issued applications.
   */
  lemma {:induction false} ColumnDOverRuns(originalSum: int, books: seq<Book>, steps: seq<Step>, n: nat)
    requires IsRun(originalSum, books, steps) && RunRespects(CARRY_HYPOTHESES, books, steps) && n <= |steps|
    ensures ColumnDIsHistory(books[n].applications) && ItemsGrow(books[n]) && AllIssuedEquations(books[n].applications)
  {
    if n > 0 {
      var book, step, next := books[n - 1], steps[n - 1], books[n];
      ColumnDOverRuns(originalSum, books, steps, n - 1);
      RunRespectsFewer({PaymentsOnIssued}, CARRY_HYPOTHESES, books, steps);
      RunsStayOrderly(originalSum, books, steps, n - 1);
      assert RespectsAll(CARRY_HYPOTHESES, book, step);
      assert Respects(PaymentsOnIssued, book, step) && Respects(VoidsOnLatest, book, step);
      assert Respects(ItemsPersist, book, step);
      StepKeepsColumnD(book, step, next);
      StepKeepsItemsGrowing(book, step, next);
      StepKeepsEquations(book, step, next);
    }
  }

  /**
   * Over every run that also certifies only the latest issued application: line 7 is the sum of earlier
   * certificates.
   */
  lemma {:induction false} Line7OverRuns(originalSum: int, books: seq<Book>, steps: seq<Step>, n: nat)
    requires IsRun(originalSum, books, steps) && RunRespects(CERTIFICATE_HYPOTHESES, books, steps) && n <= |steps|
    ensures Line7IsHistory(books[n].applications) && AllIssuedEquations(books[n].applications)
  {
    if n > 0 {
      var book, step, next := books[n - 1], steps[n - 1], books[n];
      Line7OverRuns(originalSum, books, steps, n - 1);
      RunRespectsFewer({PaymentsOnIssued}, CERTIFICATE_HYPOTHESES, books, steps);
      RunsStayOrderly(originalSum, books, steps, n - 1);
      assert RespectsAll(CERTIFICATE_HYPOTHESES, book, step);
      assert Respects(PaymentsOnIssued, book, step) && Respects(VoidsOnLatest, book, step);
      assert Respects(CertifiesLatest, book, step);
      StepKeepsLine7(book, step, next);
      StepKeepsEquations(book, step, next);
    }
  }

  // ---------------------------------------------------------------------------------------------
  // What the invariants say about the header
  // ---------------------------------------------------------------------------------------------

  // Column D summed over a sheet, when each entry is the history of its item.
  function HistoryTotal(apps: seq<Application>, n: nat, lines: seq<Line>): int
    requires n <= |apps|
  {
    if |lines| == 0 then 0
    else HistoryTotal(apps, n, lines[..|lines| - 1]) + BilledBefore(apps, n, lines[|lines| - 1].item)
  }

  function WorkOver(lines: seq<Line>, sheet: seq<Line>): int {
    if |lines| == 0 then 0 else WorkOver(lines[..|lines| - 1], sheet) + WorkOn(sheet, lines[|lines| - 1].item)
  }

  // Occurrences of one line's work in a list of items: exactly one when the items are distinct.
  lemma {:induction false} OneLineCounted(lines: seq<Line>, sheet: seq<Line>)
    requires |sheet| > 0 && Distinct(Items(lines))
    ensures var n := |sheet| - 1;
      WorkOver(lines, sheet) == WorkOver(lines, sheet[..n]) + if sheet[n].item in Items(lines) then sheet[n].e else 0
  {
    if |lines| > 0 {
      var m, n := |lines| - 1, |sheet| - 1;
      assert Items(lines[..m]) == Items(lines)[..m];
      OneLineCounted(lines[..m], sheet);
      assert Items(lines)[m] == lines[m].item;
      if sheet[n].item in Items(lines) && sheet[n].item !in Items(lines)[..m] {
        assert sheet[n].item == lines[m].item;
      }
      if sheet[n].item in Items(lines)[..m] {
        var k :| 0 <= k < m && Items(lines)[..m][k] == sheet[n].item;
        assert Items(lines)[k] != Items(lines)[m];
      }
    }
  }

  lemma {:induction false} EverySheetLineCounted(lines: seq<Line>, sheet: seq<Line>)
    requires Distinct(Items(lines)) && Within(Items(sheet), Items(lines))
    ensures WorkOver(lines, sheet) == ColumnTotal(sheet, E)
  {
    if |sheet| == 0 {
      EmptySheet(lines, sheet);
    } else {
      var n := |sheet| - 1;
      assert Items(sheet[..n]) == Items(sheet)[..n];
      EverySheetLineCounted(lines, sheet[..n]);
      OneLineCounted(lines, sheet);
      assert Items(sheet)[n] == sheet[n].item;
    }
  }

  lemma {:induction false} EmptySheet(lines: seq<Line>, sheet: seq<Line>)
    requires |sheet| == 0
    ensures WorkOver(lines, sheet) == 0
  {
    if |lines| > 0 {
      EmptySheet(lines[..|lines| - 1], sheet);
    }
  }

  lemma {:induction false} HistoryTotalLast(apps: seq<Application>, n: nat, lines: seq<Line>)
    requires 0 < n <= |apps|
    ensures HistoryTotal(apps, n, lines)
      == HistoryTotal(apps, n - 1, lines) + if apps[n - 1].IsIssued() then WorkOver(lines, apps[n - 1].lines) else 0
  {
    if |lines| > 0 {
      HistoryTotalLast(apps, n, lines[..|lines| - 1]);
    }
  }

  lemma {:induction false} NoHistory(apps: seq<Application>, lines: seq<Line>)
    ensures HistoryTotal(apps, 0, lines) == 0
  {
    if |lines| > 0 {
      NoHistory(apps, lines[..|lines| - 1]);
    }
  }

  lemma {:induction false} HistoryIsAllWork(apps: seq<Application>, n: nat, lines: seq<Line>)
    requires n <= |apps| && Distinct(Items(lines))
    requires forall m :: 0 <= m < n ==> Within(Items(apps[m].lines), Items(lines))
    ensures HistoryTotal(apps, n, lines) == AllWork(apps, n)
  {
    if n == 0 {
      NoHistory(apps, lines);
    } else {
      HistoryIsAllWork(apps, n - 1, lines);
      HistoryTotalLast(apps, n, lines);
      EverySheetLineCounted(lines, apps[n - 1].lines);
    }
  }

  lemma {:induction false} ColumnDTotal(apps: seq<Application>, n: nat, lines: seq<Line>)
    requires n <= |apps| && forall k :: 0 <= k < |lines| ==> lines[k].d == BilledBefore(apps, n, lines[k].item)
    ensures ColumnTotal(lines, D) == HistoryTotal(apps, n, lines)
  {
    if |lines| > 0 {
      ColumnDTotal(apps, n, lines[..|lines| - 1]);
    }
  }

  lemma {:induction false} ColumnGTotal(lines: seq<Line>)
    requires forall k :: 0 <= k < |lines| ==> lines[k].g == lines[k].d + lines[k].e + lines[k].f
    ensures ColumnTotal(lines, G) == ColumnTotal(lines, D) + ColumnTotal(lines, E) + ColumnTotal(lines, F)
  {
    if |lines| > 0 {
      ColumnGTotal(lines[..|lines| - 1]);
    }
  }

  /** Line 4 of an issued application is all work ever billed, plus the material stored now. */
  lemma {:induction false} Line4IsAllWorkPlusStored(originalSum: int, books: seq<Book>, steps: seq<Step>, n: nat)
    requires IsRun(originalSum, books, steps) && RunRespects(CARRY_HYPOTHESES, books, steps)
    requires var apps := books[|steps|].applications; n < |apps| && apps[n].IsIssued()
    ensures var apps := books[|steps|].applications;
      apps[n].header.line4 == AllWork(apps, n + 1) + ColumnTotal(apps[n].lines, F)
  {
    ColumnDOverRuns(originalSum, books, steps, |steps|);
    Line4IsHistory(books[|steps|], n);
  }

  lemma {:induction false} Line4IsHistory(book: Book, n: nat)
    requires ColumnDIsHistory(book.applications) && ItemsGrow(book) && AllIssuedEquations(book.applications)
    requires n < |book.applications| && book.applications[n].IsIssued()
    ensures var apps := book.applications;
      apps[n].header.line4 == AllWork(apps, n + 1) + ColumnTotal(apps[n].lines, F)
  {
    var apps := book.applications;
    assert IssuedEquations(apps[n]);
    ColumnGTotal(apps[n].lines);
    ColumnDTotal(apps, n, apps[n].lines);
    HistoryIsAllWork(apps, n, apps[n].lines);
  }

  ghost predicate NoCertificates(apps: seq<Application>, n: nat)
    requires n <= |apps|
  {
    forall k :: 0 <= k < n && apps[k].IsIssued() ==> apps[k].certified.None?
  }

  lemma {:induction false} RequestsStand(apps: seq<Application>, n: nat)
    requires n <= |apps| && NoCertificates(apps, n)
    ensures RequestedBefore(apps, n) == CertifiedBefore(apps, n)
  {
    if n > 0 {
      RequestsStand(apps, n - 1);
    }
  }

  /** With no certificate on file, the payments requested so far telescope to line 6 of the latest application. */
  lemma {:induction false} PaymentsTelescope(originalSum: int, books: seq<Book>, steps: seq<Step>, n: nat)
    requires IsRun(originalSum, books, steps) && RunRespects(CERTIFICATE_HYPOTHESES, books, steps)
    requires var apps := books[|steps|].applications; n < |apps| && apps[n].IsIssued() && NoCertificates(apps, n + 1)
    ensures var apps := books[|steps|].applications; RequestedBefore(apps, n + 1) == apps[n].header.line6
  {
    Line7OverRuns(originalSum, books, steps, |steps|);
    TelescopesAt(books[|steps|].applications, n);
  }

  lemma TelescopesAt(apps: seq<Application>, n: nat)
    requires n < |apps| && apps[n].IsIssued() && NoCertificates(apps, n + 1)
    requires Line7IsHistory(apps) && IssuedEquations(apps[n])
    ensures RequestedBefore(apps, n + 1) == apps[n].header.line6
  {
    RequestsStand(apps, n + 1);
  }

  // ---------------------------------------------------------------------------------------------
  // Exactly when the unchecked operations are harmless
  // ---------------------------------------------------------------------------------------------

  lemma {:induction false} VoidedHistory(apps: seq<Application>, v: nat, n: nat, item: string)
    requires v < |apps| && apps[v].IsIssued() && n <= |apps|
    ensures var next := apps[v := apps[v].(status := Void)];
      && BilledBefore(next, n, item) == BilledBefore(apps, n, item) - (if v < n then WorkOn(apps[v].lines, item) else 0)
      && CertifiedBefore(next, n) == CertifiedBefore(apps, n) - (if v < n then apps[v].CertifiedPayment() else 0)
  {
    if n > 0 {
      VoidedHistory(apps, v, n - 1, item);
    }
  }

  /**
   * Voiding an issued application keeps column D right exactly when it billed nothing on the items of later issued
   * ones.
   */
  lemma {:induction false} VoidKeepsColumnDExactlyWhen(book: Book, v: nat, next: Book)
    requires Moves(book, VoidApp(v), next) && ColumnDIsHistory(book.applications)
    requires v < |book.applications| && book.applications[v].IsIssued() && !book.applications[v].status.Paid?
    ensures ColumnDIsHistory(next.applications) <==> NothingBilledForLater(book.applications, v)
  {
    assert next.applications == book.applications[v := book.applications[v].(status := Void)];
    WithAndWithoutColumnD(book.applications, v);
  }

  // The sheet billed nothing on any item of a later issued sheet.
  ghost predicate NothingBilledForLater(apps: seq<Application>, v: nat)
    requires v < |apps|
  {
    forall n: nat, k: nat :: v < n < |apps| && apps[n].IsIssued() && k < |apps[n].lines| ==>
      WorkOn(apps[v].lines, apps[n].lines[k].item) == 0
  }

  ghost predicate SheetIsHistory(apps: seq<Application>, n: nat)
    requires n < |apps|
  {
    forall k: nat :: k < |apps[n].lines| ==> apps[n].lines[k].d == BilledBefore(apps, n, apps[n].lines[k].item)
  }

  // Column D with an issued application and without it: the sheets before it agree, its own is its own affair,
  // and the later ones agree exactly when it billed nothing for them.
  lemma {:induction false} WithAndWithoutColumnD(apps: seq<Application>, v: nat)
    requires v < |apps| && apps[v].IsIssued()
    ensures var without := apps[v := apps[v].(status := Void)];
      && (ColumnDIsHistory(apps) ==> (ColumnDIsHistory(without) <==> NothingBilledForLater(apps, v)))
      && (ColumnDIsHistory(without) ==>
            (ColumnDIsHistory(apps) <==> SheetIsHistory(apps, v) && NothingBilledForLater(apps, v)))
  {
    var without := apps[v := apps[v].(status := Void)];
    forall n: nat, k: nat | n < |apps| && n != v && apps[n].IsIssued() && k < |apps[n].lines|
      ensures without[n] == apps[n]
      ensures BilledBefore(without, n, apps[n].lines[k].item) == BilledBefore(apps, n, apps[n].lines[k].item)
        - if v < n then WorkOn(apps[v].lines, apps[n].lines[k].item) else 0
    {
      VoidedHistory(apps, v, n, apps[n].lines[k].item);
    }
    if ColumnDIsHistory(apps) && ColumnDIsHistory(without) {
      forall n: nat, k: nat | v < n < |apps| && apps[n].IsIssued() && k < |apps[n].lines|
        ensures WorkOn(apps[v].lines, apps[n].lines[k].item) == 0
      {
        assert apps[n].lines[k].d == BilledBefore(apps, n, apps[n].lines[k].item);
        assert without[n].lines[k].d == BilledBefore(without, n, without[n].lines[k].item);
      }
    }
  }

  lemma {:induction false} WithAndWithoutLine7(apps: seq<Application>, v: nat)
    requires v < |apps| && apps[v].IsIssued()
    ensures var without := apps[v := apps[v].(status := Void)];
      var harmless := NoLaterIssued(apps, v) || apps[v].CertifiedPayment() == 0;
      && (Line7IsHistory(apps) ==> (Line7IsHistory(without) <==> harmless))
      && (Line7IsHistory(without) ==>
            (Line7IsHistory(apps) <==> apps[v].header.line7 == CertifiedBefore(apps, v) && harmless))
  {
    var without := apps[v := apps[v].(status := Void)];
    forall n: nat | n < |apps| && n != v && apps[n].IsIssued()
      ensures without[n] == apps[n]
      ensures CertifiedBefore(without, n) == CertifiedBefore(apps, n) - if v < n then apps[v].CertifiedPayment() else 0
    {
      VoidedHistory(apps, v, n, "");
    }
    if Line7IsHistory(apps) && Line7IsHistory(without) && !NoLaterIssued(apps, v) {
      var n: nat :| v < n < |apps| && apps[n].IsIssued();
      assert apps[n].header.line7 == CertifiedBefore(apps, n) && without[n].header.line7 == CertifiedBefore(without, n);
    }
  }

  /** Voiding keeps line 7 right exactly when nothing later is issued or nothing was certified on it. */
  lemma {:induction false} VoidKeepsLine7ExactlyWhen(book: Book, v: nat, next: Book)
    requires Moves(book, VoidApp(v), next) && Line7IsHistory(book.applications)
    requires v < |book.applications| && book.applications[v].IsIssued() && !book.applications[v].status.Paid?
    ensures Line7IsHistory(next.applications)
      <==> NoLaterIssued(book.applications, v) || book.applications[v].CertifiedPayment() == 0
  {
    assert next.applications == book.applications[v := book.applications[v].(status := Void)];
    WithAndWithoutLine7(book.applications, v);
  }

  lemma {:induction false} CertifiedHistory(apps: seq<Application>, v: nat, amount: int, n: nat)
    requires v < |apps| && apps[v].IsIssued() && n <= |apps|
    ensures var next := apps[v := apps[v].(status := Certified, certified := Some(amount))];
      CertifiedBefore(next, n) == CertifiedBefore(apps, n) + if v < n then amount - apps[v].CertifiedPayment() else 0
  {
    if n > 0 {
      CertifiedHistory(apps, v, amount, n - 1);
    }
  }

  /** Certifying keeps line 7 right exactly when nothing later is issued or the amount is what already stood. */
  lemma {:induction false} CertifyKeepsLine7ExactlyWhen(book: Book, v: nat, amount: int, next: Book)
    requires Moves(book, Certify(v, amount), next) && Line7IsHistory(book.applications)
    requires v < |book.applications| && book.applications[v].status.Submitted?
    ensures Line7IsHistory(next.applications)
      <==> NoLaterIssued(book.applications, v) || amount == book.applications[v].CertifiedPayment()
  {
    var apps := book.applications;
    assert next.applications == apps[v := apps[v].(status := Certified, certified := Some(amount))];
    forall n: nat | n < |apps| && apps[n].IsIssued()
      ensures next.applications[n].IsIssued() && next.applications[n].header == apps[n].header
      ensures apps[n].header.line7 == CertifiedBefore(next.applications, n)
        <==> (v < n ==> amount == apps[v].CertifiedPayment())
    {
      CertifiedHistory(apps, v, amount, n);
    }
    if Line7IsHistory(next.applications) && !NoLaterIssued(apps, v) {
      var n: nat :| v < n < |apps| && apps[n].IsIssued();
      assert next.applications[n].header.line7 == CertifiedBefore(next.applications, n);
    }
  }

  /**
   * A closing payment on a voided application brings it back. That keeps column D right exactly when its own column D
   * is its history and it billed nothing on the items of later issued applications.
   */
  lemma {:induction false} PaymentKeepsColumnDExactlyWhen(book: Book, v: nat, amount: int, next: Book)
    requires Moves(book, Pay(v, amount, true), next) && amount != 0 && ColumnDIsHistory(book.applications)
    requires v < |book.applications| && book.applications[v].status.Void?
    ensures ColumnDIsHistory(next.applications)
      <==> SheetIsHistory(book.applications, v) && NothingBilledForLater(book.applications, v)
  {
    var apps, paid := book.applications, next.applications;
    assert paid == apps[v := apps[v].(status := Paid)] && paid[v := paid[v].(status := Void)] == apps;
    WithAndWithoutColumnD(paid, v);
    forall item: string
      ensures BilledBefore(paid, v, item) == BilledBefore(apps, v, item)
    {
      VoidedHistory(paid, v, v, item);
    }
  }

  /**
   * And line 7 exactly when its own line 7 is what was certified before it and nothing later is issued or it adds
   * nothing.
   */
  lemma {:induction false} PaymentKeepsLine7ExactlyWhen(book: Book, v: nat, amount: int, next: Book)
    requires Moves(book, Pay(v, amount, true), next) && amount != 0 && Line7IsHistory(book.applications)
    requires v < |book.applications| && book.applications[v].status.Void?
    ensures Line7IsHistory(next.applications) <==>
      && book.applications[v].header.line7 == CertifiedBefore(book.applications, v)
      && (NoLaterIssued(book.applications, v) || book.applications[v].CertifiedPayment() == 0)
  {
    var apps, paid := book.applications, next.applications;
    assert paid == apps[v := apps[v].(status := Paid)] && paid[v := paid[v].(status := Void)] == apps;
    WithAndWithoutLine7(paid, v);
    VoidedHistory(paid, v, v, "");
    assert NoLaterIssued(paid, v) <==> NoLaterIssued(apps, v) by {
      assert forall j :: v < j < |apps| ==> paid[j] == apps[j];
    }
  }

  // ---------------------------------------------------------------------------------------------
  // Exactly when item numbers matter
  // ---------------------------------------------------------------------------------------------

  /** The last row of a sheet with the item: the one whose carry-forward wins. */
  function LastRow(lines: seq<Line>, item: string): Option<Line> {
    if |lines| == 0 then None
    else if lines[|lines| - 1].item == item then Some(lines[|lines| - 1])
    else LastRow(lines[..|lines| - 1], item)
  }

  lemma {:induction false} LastRowIsARow(lines: seq<Line>, item: string)
    ensures var row := LastRow(lines, item); row.Some? ==> row.value in lines && row.value.item == item
  {
    if |lines| > 0 {
      LastRowIsARow(lines[..|lines| - 1], item);
    }
  }

  lemma {:induction false} LastRowCarries(lines: seq<Line>, item: string)
    ensures CarriedTo(CarryMap(lines), item)
      == match LastRow(lines, item) case Some(row) => CarryForward(row) case None => 0
  {
    if |lines| > 0 {
      LastRowCarries(lines[..|lines| - 1], item);
    }
  }

  // The item was on the previous issued sheet with all its work on its last row, or has no history at all.
  ghost predicate ItemCarriesOver(apps: seq<Application>, n: nat, item: string)
    requires n <= |apps|
  {
    var previous := PreviousIssued(apps, n + 1);
    var row := if previous.Some? then LastRow(previous.value.lines, item) else None;
    match row
    case Some(last) => WorkOn(previous.value.lines, item) == last.e
    case None => BilledBefore(apps, n, item) == 0
  }

  // Whatever its item numbers, what is carried to an item is its history exactly when the item carries over.
  lemma {:induction false} CarryIsHistoryExactlyWhen(apps: seq<Application>, n: nat, item: string)
    requires Numbered(apps) && n <= |apps| && ColumnDIsHistory(apps)
    ensures CarriedTo(CarriedFrom(PreviousIssued(apps, n + 1)), item) == BilledBefore(apps, n, item)
      <==> ItemCarriesOver(apps, n, item)
  {
    PreviousIssuedStands(apps, n);
    var previous := PreviousIssued(apps, n + 1);
    if previous.Some? {
      var m := previous.value.number - 1;
      var lines := apps[m].lines;
      NothingIssuedBetween(apps, m + 1, n, item);
      LastRowCarries(lines, item);
      LastRowIsARow(lines, item);
      if LastRow(lines, item).Some? {
        var k: nat :| k < |lines| && lines[k] == LastRow(lines, item).value;
        assert lines[k].d == BilledBefore(apps, m, item);
      }
    }
  }

  /**
   * With no promise about item numbers: a submission keeps column D right exactly when every item of the submitted
   * sheet carries over, which can be read from the stored sheets before the call.
   */
  lemma {:induction false} SubmitKeepsColumnDExactlyWhen(book: Book, n: nat, next: Book)
    requires Orderly(book) && ColumnDIsHistory(book.applications)
    requires PassesGate(book, n, true) && Moves(book, Submit(n, true, false, false), next)
    ensures ColumnDIsHistory(next.applications) <==>
      forall k: nat :: k < |book.applications[n].lines| ==>
        ItemCarriesOver(book.applications, n, book.applications[n].lines[k].item)
  {
    var apps, issued := book.applications, next.applications;
    assert n == |apps| - 1 && issued == apps[n := issued[n]] && issued[n].lines == apps[n].lines;
    GateEquations(apps[n], WorldOf(book, apps[n]));
    forall m: nat, item: string | m < |apps|
      ensures BilledBefore(issued, m, item) == BilledBefore(apps, m, item)
    {
      HistoryKeepsBilled(apps, issued, m, item);
    }
    forall k: nat | k < |apps[n].lines|
      ensures apps[n].lines[k].d == BilledBefore(apps, n, apps[n].lines[k].item)
        <==> ItemCarriesOver(apps, n, apps[n].lines[k].item)
    {
      CarryIsHistoryExactlyWhen(apps, n, apps[n].lines[k].item);
    }
    SubmittedSheet(apps, issued, n);
  }

  lemma {:induction false} SubmittedSheet(apps: seq<Application>, issued: seq<Application>, n: nat)
    requires ColumnDIsHistory(apps) && n + 1 == |apps| && |issued| == |apps| && issued[..n] == apps[..n]
    requires issued[n].IsIssued() && issued[n].lines == apps[n].lines
    requires forall m: nat, item: string :: m < |apps| ==> BilledBefore(issued, m, item) == BilledBefore(apps, m, item)
    ensures ColumnDIsHistory(issued) <==>
      forall k: nat :: k < |apps[n].lines| ==> apps[n].lines[k].d == BilledBefore(apps, n, apps[n].lines[k].item)
  {
    assert forall m: nat :: m < n ==> issued[m] == issued[..n][m] == apps[..n][m] == apps[m];
    if ColumnDIsHistory(issued) {
      forall k: nat | k < |apps[n].lines|
        ensures apps[n].lines[k].d == BilledBefore(apps, n, apps[n].lines[k].item)
      {
        assert issued[n].lines[k].d == BilledBefore(issued, n, issued[n].lines[k].item);
      }
    }
  }
}
