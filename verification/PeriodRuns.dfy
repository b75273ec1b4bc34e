/** Whole runs of one contract: numbering, periods and the frozen record, under every interleaving. */
module PeriodRuns {
  import opened Applications
  import opened Outcomes
  import opened PeriodMoves
  import opened Periods
  import opened Tieout

  // What a run may have to promise, because the code does not check it.
  datatype Hypothesis = PaymentsOnIssued | VoidsOnLatest | CertifiesLatest | ItemsPersist

  ghost predicate NoLaterIssued(apps: seq<Application>, k: nat) {
    forall j :: k < j < |apps| ==> !apps[j].IsIssued()
  }

  function Names(lines: seq<ScheduleLine>): (r: seq<string>)
    ensures |r| == |lines|
  {
    seq(|lines|, k requires 0 <= k < |lines| => lines[k].item)
  }

  ghost predicate Distinct(names: seq<string>) {
    forall j, k :: 0 <= j < k < |names| ==> names[j] != names[k]
  }

  ghost predicate Within(names: seq<string>, others: seq<string>) {
    forall k :: 0 <= k < |names| ==> names[k] in others
  }

  ghost predicate Respects(hypothesis: Hypothesis, book: Book, step: Step) {
    match hypothesis
    case PaymentsOnIssued =>
      step.Pay? && step.app < |book.applications| ==> book.applications[step.app].IsIssued()
    case VoidsOnLatest =>
      (step.VoidApp? && step.app < |book.applications| && book.applications[step.app].IsIssued())
      ==> NoLaterIssued(book.applications, step.app)
    case CertifiesLatest =>
      step.Certify? && step.app < |book.applications| ==> NoLaterIssued(book.applications, step.app)
    case ItemsPersist =>
      step.NewSchedule? ==>
        Distinct(Names(step.lines)) && (book.schedule.Some? ==> Within(Names(book.schedule.value), Names(step.lines)))
  }

  ghost predicate RespectsAll(hypotheses: set<Hypothesis>, book: Book, step: Step) {
    forall h :: h in hypotheses ==> Respects(h, book, step)
  }

  ghost predicate RunRespects(hypotheses: set<Hypothesis>, books: seq<Book>, steps: seq<Step>) {
    |books| == |steps| + 1 && forall k :: 0 <= k < |steps| ==> RespectsAll(hypotheses, books[k], steps[k])
  }

  // ---------------------------------------------------------------------------------------------
  // What a single step can do to the applications
  // ---------------------------------------------------------------------------------------------

  // The only three things that ever happen to a stored application.
  ghost predicate Evolves(before: Application, after: Application) {
    && after.number == before.number && after.periodStart == before.periodStart && after.periodEnd == before.periodEnd
    && (!before.IsEditable() ==>
          && !after.IsEditable() && after.header == before.header && after.lines == before.lines
          && after.snapshot == before.snapshot)
  }

  lemma {:induction false} StepEvolves(book: Book, step: Step, next: Book)
    requires Moves(book, step, next)
    ensures |book.applications| <= |next.applications| <= |book.applications| + 1
    ensures forall k :: 0 <= k < |book.applications| ==> Evolves(book.applications[k], next.applications[k])
  {
  }

  /** Once issued, for ever the same: no later step of any kind changes a frozen figure or the snapshot. */
  lemma {:induction false} IssuedFiguresNeverChange(books: seq<Book>, steps: seq<Step>, m: nat, n: nat, k: nat)
    requires IsChain(books, steps) && m <= n <= |steps|
    requires k < |books[m].applications| && !books[m].applications[k].IsEditable()
    ensures k < |books[n].applications|
    ensures var before, after := books[m].applications[k], books[n].applications[k];
      && !after.IsEditable() && after.lines == before.lines && after.header == before.header
      && after.Frozen() == before.Frozen() && after.snapshot == before.snapshot
    decreases n
  {
    if m < n {
      IssuedFiguresNeverChange(books, steps, m, n - 1, k);
      StepEvolves(books[n - 1], steps[n - 1], books[n]);
      assert Evolves(books[n - 1].applications[k], books[n].applications[k]);
    }
  }

  // ---------------------------------------------------------------------------------------------
  // Numbering and periods
  // ---------------------------------------------------------------------------------------------

  ghost predicate Numbered(apps: seq<Application>) {
    forall k :: 0 <= k < |apps| ==> apps[k].number == k + 1
  }

  ghost predicate EditableIsLast(apps: seq<Application>) {
    forall k :: 0 <= k < |apps| && apps[k].IsEditable() ==> k == |apps| - 1
  }

  ghost predicate PeriodsInOrder(apps: seq<Application>) {
    && (forall k :: 0 <= k < |apps| ==> apps[k].periodStart <= apps[k].periodEnd)
    && (forall j, k :: 0 <= j < k < |apps| && !apps[j].status.Void? && !apps[k].status.Void?
          ==> apps[j].periodEnd < apps[k].periodStart)
  }

  // An opener that can still insert has read a state in which nothing was open and everything live ended earlier.
  ghost predicate OpenerSound(apps: seq<Application>, opener: Opener) {
    && 1 <= opener.number <= |apps| + 1 && opener.periodStart <= opener.periodEnd
    && (opener.number == |apps| + 1 ==>
          forall k :: 0 <= k < |apps| ==>
            !apps[k].IsEditable() && (!apps[k].status.Void? ==> apps[k].periodEnd < opener.periodStart))
  }

  ghost predicate Orderly(book: Book) {
    && Numbered(book.applications) && EditableIsLast(book.applications) && PeriodsInOrder(book.applications)
    && (forall k :: 0 <= k < |book.openers| ==> OpenerSound(book.applications, book.openers[k]))
  }

  lemma {:induction false} HighestIsCount(apps: seq<Application>)
    requires Numbered(apps)
    ensures HighestNumber(apps) == |apps|
  {
    if |apps| > 0 {
      HighestIsCount(apps[..|apps| - 1]);
    }
  }

  lemma {:induction false} LatestMeans(apps: seq<Application>, query: Query)
    requires Numbered(apps)
    ensures var r := Latest(apps, query);
      && (r.None? ==> forall k :: 0 <= k < |apps| ==> !Matches(query, apps[k]))
      && (r.Some? ==>
            && 1 <= r.value.number <= |apps| && apps[r.value.number - 1] == r.value && Matches(query, r.value)
            && forall k :: r.value.number <= k < |apps| ==> !Matches(query, apps[k]))
  {
    if |apps| > 0 {
      LatestMeans(apps[..|apps| - 1], query);
    }
  }

  lemma NumberIsTaken(apps: seq<Application>, number: nat)
    requires Numbered(apps) && 1 <= number <= |apps|
    ensures NumberTaken(apps, number)
  {
    assert apps[number - 1].number == number;
  }

  // With dense numbers, the constraint lets an opener in only at the number it read.
  lemma FreeNumberIsNext(apps: seq<Application>, number: nat)
    requires Numbered(apps) && 1 <= number <= |apps| + 1 && !NumberTaken(apps, number)
    ensures number == |apps| + 1
  {
    if number <= |apps| {
      NumberIsTaken(apps, number);
    }
  }

  lemma {:induction false} ReadKeepsOrder(book: Book, periodStart: int, periodEnd: int)
    requires Orderly(book)
    ensures Orderly(Kept(book, Plain(book, Read(periodStart, periodEnd))))
  {
    LatestMeans(book.applications, Editable);
    LatestMeans(book.applications, Live);
    HighestIsCount(book.applications);
    var r := ReadOpening(book, periodStart, periodEnd);
    if r.Ok? {
      var live := Latest(book.applications, Live);
      forall k | 0 <= k < |book.applications| && !book.applications[k].status.Void?
        ensures book.applications[k].periodEnd < periodStart
      {
        assert Matches(Live, book.applications[k]);
        assert live.Some? && k <= live.value.number - 1;
      }
      assert OpenerSound(book.applications, r.value);
    }
  }

  lemma {:induction false} InsertKeepsOrder(book: Book, k: nat, next: Book)
    requires Orderly(book) && CanInsert(book, k) && Inserted(book, k, next)
    ensures Orderly(next)
  {
    var opener, app := book.openers[k], next.applications[|book.applications|];
    assert OpenerSound(book.applications, opener);
    FreeNumberIsNext(book.applications, opener.number);
    AppendKeepsOrder(book.applications, app);
    forall j | 0 <= j < |book.openers|
      ensures OpenerSound(next.applications, book.openers[j])
    {
      assert OpenerSound(book.applications, book.openers[j]);
    }
  }

  lemma {:induction false} AppendKeepsOrder(apps: seq<Application>, app: Application)
    requires Numbered(apps) && PeriodsInOrder(apps)
    requires app.number == |apps| + 1 && app.periodStart <= app.periodEnd
    requires forall k :: 0 <= k < |apps| ==>
      !apps[k].IsEditable() && (!apps[k].status.Void? ==> apps[k].periodEnd < app.periodStart)
    ensures Numbered(apps + [app]) && EditableIsLast(apps + [app]) && PeriodsInOrder(apps + [app])
  {
  }

  // Applications updated in place, none of them reopened or revived.
  ghost predicate UpdatesInPlace(book: Book, next: Book) {
    && |next.applications| == |book.applications| && next.openers == book.openers
    && forall k :: 0 <= k < |book.applications| ==>
         var before, after := book.applications[k], next.applications[k];
         && after.number == before.number
         && after.periodStart == before.periodStart && after.periodEnd == before.periodEnd
         && (after.IsEditable() ==> before.IsEditable()) && (!after.status.Void? ==> !before.status.Void?)
  }

  lemma {:induction false} InPlaceKeepsOrder(book: Book, next: Book)
    requires Orderly(book) && UpdatesInPlace(book, next)
    ensures Orderly(next)
  {
    forall k | 0 <= k < |book.openers|
      ensures OpenerSound(next.applications, book.openers[k])
    {
      assert OpenerSound(book.applications, book.openers[k]);
    }
  }

  lemma {:induction false} UpdateIsInPlace(book: Book, step: Step, next: Book)
    requires Moves(book, step, next) && Respects(PaymentsOnIssued, book, step) && !step.Read? && !step.Insert?
    ensures UpdatesInPlace(book, next)
  {
  }

  lemma {:induction false} StepKeepsOrder(book: Book, step: Step, next: Book)
    requires Orderly(book) && Moves(book, step, next) && Respects(PaymentsOnIssued, book, step)
    ensures Orderly(next)
  {
    match step
    case Read(periodStart, periodEnd) => ReadKeepsOrder(book, periodStart, periodEnd);
    case Insert(k) => if CanInsert(book, k) { InsertKeepsOrder(book, k, next); }
    case _ =>
      UpdateIsInPlace(book, step, next);
      InPlaceKeepsOrder(book, next);
  }

  /**
   * Under every interleaving of openers with entries, submissions, certificates, voids and payments:
   * numbers are dense from 1, at most the highest-numbered application is editable, and live periods
   * are disjoint and ordered by number.
   */
  lemma {:induction false} RunsStayOrderly(originalSum: int, books: seq<Book>, steps: seq<Step>, n: nat)
    requires IsRun(originalSum, books, steps) && RunRespects({PaymentsOnIssued}, books, steps) && n <= |steps|
    ensures Orderly(books[n])
  {
    if n > 0 {
      RunsStayOrderly(originalSum, books, steps, n - 1);
      assert RespectsAll({PaymentsOnIssued}, books[n - 1], steps[n - 1]);
      StepKeepsOrder(books[n - 1], steps[n - 1], books[n]);
    }
  }

  // A voided period can come back: its dates are still free, and no opener has read them as free.
  ghost predicate DatesStillFree(book: Book, k: nat)
    requires k < |book.applications|
  {
    var apps := book.applications;
    && (forall j :: 0 <= j < |apps| && j != k && !apps[j].status.Void? ==>
          if j < k then apps[j].periodEnd < apps[k].periodStart else apps[k].periodEnd < apps[j].periodStart)
    && (forall i :: 0 <= i < |book.openers| && book.openers[i].number == |apps| + 1 ==>
          apps[k].periodEnd < book.openers[i].periodStart)
  }

  /**
   * A closing payment keeps everything in order exactly when it does not revive a voided period whose dates were
   * reused.
   */
  lemma {:induction false} PaymentKeepsOrderExactlyWhen(book: Book, k: nat, amount: int, next: Book)
    requires Orderly(book) && k < |book.applications| && amount != 0 && !book.applications[k].IsEditable()
    requires Moves(book, Pay(k, amount, true), next)
    ensures Orderly(next) <==> (book.applications[k].status.Void? ==> DatesStillFree(book, k))
  {
    var apps := book.applications;
    assert next.applications == apps[k := apps[k].(status := Paid)];
    if Orderly(next) {
      PaidMeansFree(book, k, next);
    } else if apps[k].status.Void? ==> DatesStillFree(book, k) {
      FreeMayBePaid(book, k, next);
    }
  }

  lemma {:induction false} PaidMeansFree(book: Book, k: nat, next: Book)
    requires k < |book.applications| && next.openers == book.openers && Orderly(next)
    requires next.applications == book.applications[k := book.applications[k].(status := Paid)]
    ensures DatesStillFree(book, k)
  {
    forall j | 0 <= j < |book.applications| && j != k && !book.applications[j].status.Void?
      ensures if j < k then book.applications[j].periodEnd < book.applications[k].periodStart
              else book.applications[k].periodEnd < book.applications[j].periodStart
    {
      assert next.applications[j] == book.applications[j] && !next.applications[k].status.Void?;
    }
    forall i | 0 <= i < |book.openers| && book.openers[i].number == |book.applications| + 1
      ensures book.applications[k].periodEnd < book.openers[i].periodStart
    {
      assert OpenerSound(next.applications, next.openers[i]);
      assert next.applications[k].periodEnd == book.applications[k].periodEnd && !next.applications[k].status.Void?;
    }
  }

  lemma {:induction false} FreeMayBePaid(book: Book, k: nat, next: Book)
    requires Orderly(book) && k < |book.applications| && next.openers == book.openers
    requires next.applications == book.applications[k := book.applications[k].(status := Paid)]
    requires book.applications[k].status.Void? ==> DatesStillFree(book, k)
    ensures Orderly(next)
  {
    forall i | 0 <= i < |book.openers|
      ensures OpenerSound(next.applications, next.openers[i])
    {
      assert OpenerSound(book.applications, book.openers[i]);
    }
  }

  // ---------------------------------------------------------------------------------------------
  // The frozen record
  // ---------------------------------------------------------------------------------------------

  ghost predicate RecordKept(app: Application) {
    && !app.status.InReview?
    && (app.IsIssued() ==> app.snapshot == Some(app.Frozen()))
  }

  ghost predicate RecordsKept(book: Book) {
    forall k :: 0 <= k < |book.applications| ==> RecordKept(book.applications[k])
  }

  lemma {:induction false} OneKeepsRecord(book: Book, step: Step, next: Book, k: nat)
    requires Moves(book, step, next) && Respects(PaymentsOnIssued, book, step)
    requires k < |book.applications| && RecordKept(book.applications[k]) && k < |next.applications|
    ensures RecordKept(next.applications[k])
  {
  }

  lemma {:induction false} StepKeepsRecords(book: Book, step: Step, next: Book)
    requires RecordsKept(book) && Moves(book, step, next) && Respects(PaymentsOnIssued, book, step)
    ensures RecordsKept(next)
  {
    var apps := book.applications;
    StepEvolves(book, step, next);
    forall k | 0 <= k < |next.applications|
      ensures RecordKept(next.applications[k])
    {
      if k < |apps| {
        assert RecordKept(apps[k]);
        OneKeepsRecord(book, step, next, k);
      } else {
        assert next.applications[k].status.Draft?;
      }
    }
  }

  /** In every reachable state the snapshot rules are silent on every application. */
  lemma {:induction false} SnapshotsNeverDrift(originalSum: int, books: seq<Book>, steps: seq<Step>, n: nat)
    requires IsRun(originalSum, books, steps) && RunRespects({PaymentsOnIssued}, books, steps) && n <= |steps|
    ensures RecordsKept(books[n])
    ensures forall k :: 0 <= k < |books[n].applications| ==> Snapshot(books[n].applications[k]) == []
  {
    if n > 0 {
      SnapshotsNeverDrift(originalSum, books, steps, n - 1);
      assert RespectsAll({PaymentsOnIssued}, books[n - 1], steps[n - 1]);
      StepKeepsRecords(books[n - 1], steps[n - 1], books[n]);
    }
    forall k | 0 <= k < |books[n].applications|
      ensures Snapshot(books[n].applications[k]) == []
    {
      assert RecordKept(books[n].applications[k]);
    }
  }

  /** A closing payment on a voided application keeps the record exactly when it was voided as it had been submitted. */
  lemma {:induction false} PaymentKeepsRecordsExactlyWhen(book: Book, k: nat, amount: int, next: Book)
    requires RecordsKept(book) && k < |book.applications| && amount != 0 && book.applications[k].status.Void?
    requires Moves(book, Pay(k, amount, true), next)
    ensures RecordsKept(next) <==> book.applications[k].snapshot == Some(book.applications[k].Frozen())
    ensures Snapshot(next.applications[k]) == []
      <==> book.applications[k].snapshot == Some(book.applications[k].Frozen())
  {
    var apps := book.applications;
    assert next.applications == apps[k := apps[k].(status := Paid)];
    assert next.applications[k].Frozen() == apps[k].Frozen();
    forall j | 0 <= j < |apps| && j != k
      ensures RecordKept(next.applications[j])
    {
      assert RecordKept(apps[j]);
    }
  }
}
