/**
 * The stored contract, and the operations that update it in place. Each one does what its Step says, and is a move in
 * the sense of the run theorems, refused or not: performing them one after another is a run.
 */
module PeriodEngine {
  import opened Applications
  import opened Outcomes
  import opened PeriodEffects
  import opened PeriodMoves
  import opened Periods
  import opened Requisition
  import opened Retainage
  import opened Sums
  import opened Tieout

  datatype Answer = Done | Refused(error: Error)

  function AnswerTo(r: Result<Book>): Answer {
    match r
    case Ok(_) => Done
    case Err(e) => Refused(e)
  }

  // The derived columns, written into the rows that were entered.
  method WriteBack(lines: seq<Line>, results: seq<Line>) returns (written: seq<Line>)
    requires |results| == |lines|
    requires forall k :: 0 <= k < |lines| ==> EntryOf(results[k]) == EntryOf(lines[k])
    ensures written == results
  {
    written := lines;
    for k := 0 to |lines|
      invariant written == results[..k] + lines[k..]
    {
      var result := results[k];
      assert written[k] == lines[k] && EntryOf(result) == EntryOf(lines[k]);
      written := written[k := written[k].(g := result.g, h := result.h, i := result.i, percent := result.percent)];
    }
  }

  function OpenerFor(book: Book, periodStart: int, periodEnd: int): Opener
    requires book.schedule.Some?
  {
    var number := HighestNumber(book.applications) + 1;
    Opener(number, periodStart, periodEnd, CarriedFrom(PreviousIssued(book.applications, number)), book.schedule.value)
  }

  // What an opening notes, or nothing.
  lemma {:induction false} ReadingMoves(book: Book, periodStart: int, periodEnd: int)
    ensures var r, step := ReadOpening(book, periodStart, periodEnd), Read(periodStart, periodEnd);
      && (r.Ok? ==> book.schedule.Some? && r.value == OpenerFor(book, periodStart, periodEnd))
      && Try(book, step) == (match r case Ok(o) => Ok(book.(openers := book.openers + [o])) case Err(e) => Err(e))
      && After(book, step) == (if r.Ok? then book.(openers := book.openers + [r.value]) else book)
      && Moves(book, step, After(book, step))
  {
  }

  class Contract {
    var originalSum: int
    var applications: seq<Application>
    var schedule: Option<seq<ScheduleLine>>
    var revising: bool
    var orders: seq<Order>
    var rule: Option<Spec>
    var openers: seq<Opener>

    ghost function View(): Book
      reads this
    {
      Book(originalSum, applications, schedule, revising, orders, rule, openers)
    }

    constructor (originalSum: int, rule: Option<Spec>)
      ensures View() == Book(originalSum, [], None, false, [], rule, [])
    {
      this.originalSum := originalSum;
      applications, schedule, revising, orders, openers := [], None, false, [], [];
      this.rule := rule;
    }

    // Lookups

    method LatestApplication(query: Query) returns (r: Option<Application>)
      ensures r == Latest(applications, query)
      ensures r.None? <==> NoneWanted(applications, query)
      ensures r.Some? ==> exists k: nat :: IsNewest(applications, query, k) && r == Some(applications[k])
    {
      r := None;
      for k := 0 to |applications|
        invariant r == Latest(applications[..k], query)
      {
        assert applications[..k + 1][..k] == applications[..k];
        var app := applications[k];
        if Matches(query, app) && (r.None? || r.value.number <= app.number) {
          r := Some(app);
        }
      }
      assert applications[..|applications|] == applications;
      LatestIsNewest(applications, query);
    }

    method NextNumber() returns (number: nat)
      ensures number == HighestNumber(applications) + 1
      ensures forall k :: 0 <= k < |applications| ==> applications[k].number < number
      ensures number == 1 || exists k :: 0 <= k < |applications| && applications[k].number == number - 1
    {
      var highest := 0;
      for k := 0 to |applications|
        invariant highest == HighestNumber(applications[..k])
      {
        assert applications[..k + 1][..k] == applications[..k];
        if applications[k].number > highest {
          highest := applications[k].number;
        }
      }
      assert applications[..|applications|] == applications;
      HighestIs(applications);
      number := highest + 1;
    }

    method CarryForwardMap(number: nat) returns (carried: map<string, int>)
      ensures carried == CarriedFrom(PreviousIssued(applications, number))
      ensures CarriesForward(applications, number, carried)
    {
      carried := map[];
      var previous := LatestApplication(IssuedBefore(number));
      if previous.Some? {
        var lines := previous.value.lines;
        for k := 0 to |lines|
          invariant carried == CarryMap(lines[..k])
        {
          assert lines[..k + 1][..k] == lines[..k];
          carried := carried[lines[k].item := CarryForward(lines[k])];
        }
        assert lines[..|lines|] == lines;
      }
      CarryForwardIs(applications, number);
    }

    method ApprovedTotal() returns (net: int)
      ensures net == NetOrders(orders) == Sum(OrderAmounts(orders))
    {
      net := 0;
      for k := 0 to |orders|
        invariant net == NetOrders(orders[..k])
      {
        assert orders[..k + 1][..k] == orders[..k];
        net := net + orders[k].amount;
      }
      assert orders[..|orders|] == orders;
      NetIsSum(orders);
    }

    // Opening

    /** The reads of an opening: its guards, its number and its carry-forward, all from one snapshot. */
    method BeginOpening(periodStart: int, periodEnd: int) returns (answer: Answer)
      modifies this`openers
      ensures View() == After(old(View()), Read(periodStart, periodEnd))
      ensures Moves(old(View()), Read(periodStart, periodEnd), View())
      ensures answer == AnswerTo(Try(old(View()), Read(periodStart, periodEnd)))
      ensures answer ==
        if schedule.None? || revising || SomeOpen(applications) then Refused(ConflictError)
        else if periodEnd < periodStart || Overlaps(applications, periodStart) then Refused(ValidationError)
        else Done
      ensures !answer.Done? ==> openers == old(openers)
      ensures answer.Done? ==>
        && |openers| == |old(openers)| + 1 && openers == old(openers) + [openers[|openers| - 1]]
        && IsRead(openers[|openers| - 1], applications, schedule, periodStart, periodEnd)
    {
      ReadingMoves(View(), periodStart, periodEnd);
      var refusal := OpeningRefusal(periodStart, periodEnd);
      if refusal.Some? {
        return Refused(refusal.value);
      }
      var opener := NewOpener(periodStart, periodEnd);
      openers := openers + [opener];
      return Done;
    }

    // The guards, in their order.
    method OpeningRefusal(periodStart: int, periodEnd: int) returns (refusal: Option<Error>)
      ensures match ReadOpening(View(), periodStart, periodEnd)
        case Ok(_) => refusal.None?
        case Err(e) => refusal == Some(e)
      ensures refusal ==
        if schedule.None? || revising || SomeOpen(applications) then Some(ConflictError)
        else if periodEnd < periodStart || Overlaps(applications, periodStart) then Some(ValidationError)
        else None
    {
      OpeningIsRefused(View(), periodStart, periodEnd);
      if schedule.None? || revising {
        return Some(ConflictError);
      }
      var existing := LatestApplication(Editable);
      if existing.Some? {
        return Some(ConflictError);
      }
      if periodEnd < periodStart {
        return Some(ValidationError);
      }
      var live := LatestApplication(Live);
      if live.Some? && periodStart <= live.value.periodEnd {
        return Some(ValidationError);
      }
      return None;
    }

    method NewOpener(periodStart: int, periodEnd: int) returns (opener: Opener)
      requires schedule.Some?
      ensures IsRead(opener, applications, schedule, periodStart, periodEnd)
      ensures opener == OpenerFor(View(), periodStart, periodEnd)
    {
      var number := NextNumber();
      var carried := CarryForwardMap(number);
      opener := Opener(number, periodStart, periodEnd, carried, schedule.value);
    }

    // The unique (contract, number) constraint.
    method IsTaken(number: nat) returns (taken: bool)
      ensures taken <==> SomeNumbered(applications, number)
      ensures taken <==> NumberTaken(applications, number)
    {
      taken := false;
      for j := 0 to |applications|
        invariant taken <==> NumberTaken(applications[..j], number)
      {
        assert applications[..j + 1][..j] == applications[..j] && applications[..j + 1][j] == applications[j];
        taken := taken || applications[j].number == number;
      }
      assert applications[..|applications|] == applications;
    }

    method FirstRows(opener: Opener) returns (lines: seq<Line>)
      ensures lines == FirstLines(opener)
    {
      lines := [];
      for j := 0 to |opener.schedule|
        invariant lines == FirstLines(opener)[..j]
      {
        lines := lines + [FirstLine(opener.schedule[j], opener.carried)];
      }
      assert lines == FirstLines(opener);
    }

    /** The insert of an opening, its lines and its first recomputation. */
    method FinishOpening(k: nat) returns (answer: Answer)
      modifies this`applications
      ensures View() == After(old(View()), Insert(k))
      ensures Moves(old(View()), Insert(k), View())
      ensures answer == AnswerTo(Try(old(View()), Insert(k)))
      ensures answer ==
        if k >= |openers| then Refused(NotFoundError)
        else if SomeNumbered(old(applications), openers[k].number) then Refused(ConflictError)
        else if rule.None? then Refused(ValueError)
        else Done
      ensures !answer.Done? ==> applications == old(applications)
      ensures answer.Done? ==>
        && |applications| == |old(applications)| + 1
        && applications == old(applications) + [applications[|applications| - 1]]
        && IsNewPeriod(
             applications[|applications| - 1], openers[k], rule.value, orders, originalSum, old(applications))
    {
      if k >= |openers| {
        return Refused(NotFoundError);
      }
      var opener := openers[k];
      var taken := IsTaken(opener.number);
      if taken {
        return Refused(ConflictError);
      }
      RecomputeDerives(View(), Opened(opener));
      var computed := NewPeriod(opener);
      if computed.Err? {
        return Refused(computed.error);
      }
      applications := applications + [computed.value];
      return Done;
    }

    // The application an opening inserts, computed for the first time.
    method NewPeriod(opener: Opener) returns (r: Result<Application>)
      ensures r == Recompute(View(), Opened(opener))
      ensures if rule.None? then r == Err(ValueError) else r.Ok?
      ensures r.Ok? ==> IsNewPeriod(r.value, opener, rule.value, orders, originalSum, applications)
    {
      var lines := FirstRows(opener);
      r := Recomputed(Application(opener.number, opener.periodStart, opener.periodEnd, Status.Draft,
                                  NO_FIGURES, Box(0, 0, 0, 0), lines, None, None));
      if r.Ok? {
        OpenedStartsFrom(opener, r.value.lines);
      }
    }

    // Entering and computing

    /** Every derived figure of one application, written back row by row. */
    method Recomputed(app: Application) returns (r: Result<Application>)
      ensures r == Recompute(View(), app)
      ensures if rule.None? then r == Err(ValueError) else r.Ok?
      ensures r.Ok? ==>
        && r.value == app.(lines := r.value.lines, header := r.value.header, box := r.value.box)
        && SameCells(r.value.lines, app.lines) && Reckoned(rule.value, orders, r.value)
        && Headed(originalSum, orders, applications, r.value)
    {
      RecomputeReckons(View(), app);
      r := Derived(app);
    }

    // The same, row by row.
    method Derived(app: Application) returns (r: Result<Application>)
      ensures r == Recompute(View(), app)
    {
      if rule.None? {
        return Err(ValueError);
      }
      var entries := [];
      for k := 0 to |app.lines|
        invariant entries == EntriesOf(app.lines)[..k]
      {
        entries := entries + [EntryOf(app.lines[k])];
      }
      assert entries == EntriesOf(app.lines);
      var net := ApprovedTotal();
      var previous := LatestApplication(IssuedBefore(app.number));
      var sheet := Requisition.Compute(entries, originalSum, rule.value, net, PreviousCertificates(previous));
      ComputeKeepsEntries(entries, originalSum, rule.value, net, PreviousCertificates(previous));
      var lines := WriteBack(app.lines, sheet.lines);
      var box := SummaryBox(app);
      return Ok(app.(lines := lines, header := sheet.header, box := box));
    }

    method SummaryBox(app: Application) returns (box: Box)
      ensures box == BoxOf(app, orders)
      ensures BoxShows(app, orders, box)
    {
      box := Box(0, 0, 0, 0);
      for k := 0 to |orders|
        invariant box == BoxOf(app, orders[..k])
      {
        assert orders[..k + 1][..k] == orders[..k];
        box := AddToBox(box, Classify(app, orders[k]), orders[k].amount);
      }
      assert orders[..|orders|] == orders;
      BoxIsShown(app, orders);
    }

    // The rows with the entries typed in, or nothing when one names a line that is not on the application.
    method TypeIn(app: Application, entries: seq<PeriodEntry>) returns (typed: Option<Application>)
      ensures typed.Some? <==> forall i :: 0 <= i < |entries| ==> entries[i].line < |app.lines|
      ensures typed.Some? ==>
        typed.value == app.(lines := typed.value.lines) && EntriesLand(app.lines, entries, typed.value.lines)
      ensures typed.Some? <==> AllOnApplication(app, entries)
      ensures typed.Some? ==> typed.value == Typed(app, entries)
    {
      var lines := app.lines;
      for j := 0 to |entries|
        invariant forall i :: 0 <= i < j ==> entries[i].line < |app.lines|
        invariant lines == WithEntries(app.lines, entries[..j])
      {
        if entries[j].line >= |app.lines| {
          return None;
        }
        assert entries[..j + 1][..j] == entries[..j];
        lines := lines[entries[j].line := lines[entries[j].line].(e := entries[j].thisPeriod, f := entries[j].stored)];
      }
      assert entries[..|entries|] == entries;
      TypedEntriesLand(app.lines, entries);
      return Some(app.(lines := lines));
    }

    // The same application with the entries in their cells.
    ghost predicate IsEntered(before: Application, entries: seq<PeriodEntry>, after: Application) {
      && after == before.(lines := after.lines, header := after.header, box := after.box)
      && EntriesLand(before.lines, entries, after.lines)
    }

    /** Entries land in their cells and the application is recomputed. */
    method EnterEntries(k: nat, entries: seq<PeriodEntry>) returns (answer: Answer)
      modifies this`applications
      ensures View() == After(old(View()), Enter(k, entries))
      ensures Moves(old(View()), Enter(k, entries), View())
      ensures answer == AnswerTo(Try(old(View()), Enter(k, entries)))
      ensures answer ==
        if k >= |old(applications)| then Refused(NotFoundError)
        else if old(applications)[k].status != Status.Draft && old(applications)[k].status != Rejected then
          Refused(ConflictError)
        else if exists i :: 0 <= i < |entries| && entries[i].line >= |old(applications)[k].lines| then
          Refused(NotFoundError)
        else if rule.None? then Refused(ValueError)
        else Done
      ensures !answer.Done? ==> applications == old(applications)
      ensures answer.Done? ==>
        && |applications| == |old(applications)| && applications == old(applications)[k := applications[k]]
        && IsEntered(old(applications)[k], entries, applications[k]) && Reckoned(rule.value, orders, applications[k])
        && Headed(originalSum, orders, old(applications), applications[k])
    {
      if k >= |applications| {
        return Refused(NotFoundError);
      }
      var app := applications[k];
      if !app.IsEditable() {
        return Refused(ConflictError);
      }
      var typed := TypeIn(app, entries);
      if typed.None? {
        return Refused(NotFoundError);
      }
      RecomputeDerives(View(), typed.value);
      var computed := Recomputed(typed.value);
      if computed.Err? {
        return Refused(computed.error);
      }
      LandThenCompute(app.lines, entries, typed.value.lines, computed.value.lines);
      applications := applications[k := computed.value];
      return Done;
    }

    // Submitting and after

    // The blocking findings of the rules of this model.
    method IsBlocked(app: Application, capBlocks: bool) returns (blocked: bool)
      ensures blocked <==> !Clean(app, WorldOf(View(), app)) || (capBlocks && OverCap(app, rule))
    {
      var net := ApprovedTotal();
      var previous := LatestApplication(IssuedBefore(app.number));
      var world := World(net, previous);
      var lineFindings := RunLineLevel(app, world);
      CapFiresOver(app, rule, true);
      return Structural(app, world) != [] || lineFindings != [] || (capBlocks && Cap(app, rule, true) != []);
    }

    method SubmitApplication(k: nat, named: bool, capBlocks: bool, otherErrors: bool) returns (answer: Answer)
      modifies this`applications
      ensures View() == After(old(View()), Submit(k, named, capBlocks, otherErrors))
      ensures Moves(old(View()), Submit(k, named, capBlocks, otherErrors), View())
      ensures answer == AnswerTo(Try(old(View()), Submit(k, named, capBlocks, otherErrors)))
      ensures answer ==
        if k >= |old(applications)| then Refused(NotFoundError)
        else if !named then Refused(ValidationError)
        else if old(applications)[k].status != Status.Draft && old(applications)[k].status != Rejected then
          Refused(ConflictError)
        else if !Clean(old(applications)[k], WorldOf(old(View()), old(applications)[k]))
             || (capBlocks && OverCap(old(applications)[k], rule)) || otherErrors then Refused(ValidationError)
        else Done
      ensures !answer.Done? ==> applications == old(applications)
      ensures answer.Done? ==>
        applications == old(applications)[
          k := old(applications)[k].(status := Submitted, snapshot := Some(old(applications)[k].Frozen()))]
    {
      if k >= |applications| {
        return Refused(NotFoundError);
      }
      if !named {
        return Refused(ValidationError);
      }
      var app := applications[k];
      if !app.IsEditable() {
        return Refused(ConflictError);
      }
      CapFiresOver(app, rule, true);
      var blocked := IsBlocked(app, capBlocks);
      if blocked || otherErrors {
        return Refused(ValidationError);
      }
      applications := applications[k := app.(status := Submitted, snapshot := Some(app.Frozen()))];
      return Done;
    }

    method CertifyApplication(k: nat, amount: int) returns (answer: Answer)
      modifies this`applications
      ensures View() == After(old(View()), Certify(k, amount))
      ensures Moves(old(View()), Certify(k, amount), View())
      ensures answer == AnswerTo(Try(old(View()), Certify(k, amount)))
      ensures answer ==
        if k >= |old(applications)| then Refused(NotFoundError)
        else if old(applications)[k].status != Submitted then Refused(ConflictError)
        else Done
      ensures applications ==
        if answer.Done? then
          old(applications)[k := old(applications)[k].(status := Certified, certified := Some(amount))]
        else old(applications)
    {
      if k >= |applications| {
        return Refused(NotFoundError);
      }
      if !applications[k].status.Submitted? {
        return Refused(ConflictError);
      }
      applications := applications[k := applications[k].(status := Certified, certified := Some(amount))];
      return Done;
    }

    method VoidApplication(k: nat) returns (answer: Answer)
      modifies this`applications
      ensures View() == After(old(View()), VoidApp(k))
      ensures Moves(old(View()), VoidApp(k), View())
      ensures answer == AnswerTo(Try(old(View()), VoidApp(k)))
      ensures answer ==
        if k >= |old(applications)| then Refused(NotFoundError)
        else if old(applications)[k].status == Paid then Refused(ConflictError)
        else Done
      ensures applications ==
        if answer.Done? then old(applications)[k := old(applications)[k].(status := Void)] else old(applications)
    {
      if k >= |applications| {
        return Refused(NotFoundError);
      }
      if applications[k].status.Paid? {
        return Refused(ConflictError);
      }
      applications := applications[k := applications[k].(status := Void)];
      return Done;
    }

    method RecordPayment(k: nat, amount: int, closes: bool) returns (answer: Answer)
      modifies this`applications
      ensures View() == After(old(View()), Pay(k, amount, closes))
      ensures Moves(old(View()), Pay(k, amount, closes), View())
      ensures answer == AnswerTo(Try(old(View()), Pay(k, amount, closes)))
      ensures answer ==
        if k >= |old(applications)| then Refused(NotFoundError)
        else if old(applications)[k].status == Status.Draft || old(applications)[k].status == Rejected then
          Refused(ValidationError)
        else if amount == 0 then Refused(ValidationError)
        else Done
      ensures applications ==
        if answer.Done? && closes then old(applications)[k := old(applications)[k].(status := Paid)]
        else old(applications)
    {
      if k >= |applications| {
        return Refused(NotFoundError);
      }
      if applications[k].IsEditable() || amount == 0 {
        return Refused(ValidationError);
      }
      if closes {
        applications := applications[k := applications[k].(status := Paid)];
      } else {
        assert applications[k := applications[k]] == applications;
      }
      return Done;
    }

    // The surroundings moving on: the schedule, the orders, the rule and the sum that every later figure is read from

    method BeginRevision() returns (answer: Answer)
      modifies this`revising
      ensures View() == After(old(View()), Revise)
      ensures answer == if schedule.None? || old(revising) then Refused(ConflictError) else Done
      ensures revising == (answer.Done? || old(revising))
      ensures Moves(old(View()), Revise, View())
      ensures answer == AnswerTo(Try(old(View()), Revise))
    {
      if schedule.None? || revising {
        return Refused(ConflictError);
      }
      revising := true;
      return Done;
    }

    method AdoptSchedule(lines: seq<ScheduleLine>)
      modifies this`schedule, this`revising
      ensures View() == After(old(View()), NewSchedule(lines))
      ensures schedule == Some(lines) && !revising
      ensures Moves(old(View()), NewSchedule(lines), View())
    {
      schedule, revising := Some(lines), false;
    }

    method ReplaceOrders(orders: seq<Order>)
      modifies this`orders
      ensures View() == After(old(View()), NewOrders(orders))
      ensures Moves(old(View()), NewOrders(orders), View())
    {
      this.orders := orders;
    }

    method ReplaceRule(rule: Option<Spec>)
      modifies this`rule
      ensures View() == After(old(View()), NewRule(rule))
      ensures Moves(old(View()), NewRule(rule), View())
    {
      this.rule := rule;
    }

    method ReplaceSum(sum: int)
      modifies this`originalSum
      ensures View() == After(old(View()), NewSum(sum))
      ensures Moves(old(View()), NewSum(sum), View())
    {
      originalSum := sum;
    }
  }
}
