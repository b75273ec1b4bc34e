/** The period engine: opening, entering, recomputing, submitting, certifying, voiding and paying a period. */
module Periods {
  import opened Applications
  import opened Outcomes
  import opened Requisition
  import opened Retainage
  import opened Tieout

  // What an application line is built from.
  datatype ScheduleLine = ScheduleLine(item: string, value: int, rate: Option<int>)

  // An approved change order. An application is identified by its number within the contract.
  datatype Order = Order(amount: int, approvedDate: Option<int>, appliesTo: Option<int>)

  // What an opener has read and not yet written: everything its insert depends on.
  datatype Opener = Opener(
    number: nat, periodStart: int, periodEnd: int, carried: map<string, int>, schedule: seq<ScheduleLine>)

  // What a user types for one line.
  datatype PeriodEntry = PeriodEntry(line: nat, thisPeriod: int, stored: int)

  /**
   * Everything stored for one contract, and the openers in flight. `schedule` is the newest approved one; while a
   * revision of it is still a draft it is superseded, and no schedule is approved.
   */
  datatype Book = Book(
    originalSum: int, applications: seq<Application>, schedule: Option<seq<ScheduleLine>>, revising: bool,
    orders: seq<Order>, rule: Option<Spec>, openers: seq<Opener>)

  // ---------------------------------------------------------------------------------------------
  // Lookups
  // ---------------------------------------------------------------------------------------------

  datatype Query = Editable | Live | IssuedBefore(number: int)

  predicate Matches(query: Query, app: Application) {
    match query
    case Editable => app.IsEditable()
    case Live => !app.status.Void?
    case IssuedBefore(n) => app.number < n && app.IsIssued()
  }

  /** The matching application with the highest number. */
  function Latest(apps: seq<Application>, query: Query): Option<Application> {
    if |apps| == 0 then None
    else
      var rest, last := Latest(apps[..|apps| - 1], query), apps[|apps| - 1];
      if Matches(query, last) && (rest.None? || rest.value.number <= last.number) then Some(last) else rest
  }

  function HighestNumber(apps: seq<Application>): nat {
    if |apps| == 0 then 0
    else
      var rest, last := HighestNumber(apps[..|apps| - 1]), apps[|apps| - 1].number;
      if last > rest then last else rest
  }

  function NetOrders(orders: seq<Order>): int {
    if |orders| == 0 then 0 else NetOrders(orders[..|orders| - 1]) + orders[|orders| - 1].amount
  }

  function PreviousIssued(apps: seq<Application>, number: int): Option<Application> {
    Latest(apps, IssuedBefore(number))
  }

  function WorldOf(book: Book, app: Application): World {
    World(NetOrders(book.orders), PreviousIssued(book.applications, app.number))
  }

  // ---------------------------------------------------------------------------------------------
  // Opening
  // ---------------------------------------------------------------------------------------------

  /** The guards of an opening and what it reads, in one look at the tables. */
  function ReadOpening(book: Book, periodStart: int, periodEnd: int): Result<Opener> {
    if book.schedule.None? || book.revising then Err(ConflictError)
    else if Latest(book.applications, Editable).Some? then Err(ConflictError)
    else if periodEnd < periodStart then Err(ValidationError)
    else
      var live := Latest(book.applications, Live);
      if live.Some? && periodStart <= live.value.periodEnd then Err(ValidationError)
      else
        var number := HighestNumber(book.applications) + 1;
        Ok(Opener(number, periodStart, periodEnd,
                  CarriedFrom(PreviousIssued(book.applications, number)), book.schedule.value))
  }

  function FirstLine(line: ScheduleLine, carried: map<string, int>): Line {
    var d := CarriedTo(carried, line.item);
    Line(line.item, line.value, d, 0, 0, d, line.value - d, 0, 0, line.rate)
  }

  function FirstLines(opener: Opener): (r: seq<Line>)
    ensures |r| == |opener.schedule|
  {
    seq(|opener.schedule|, k requires 0 <= k < |opener.schedule| => FirstLine(opener.schedule[k], opener.carried))
  }

  const NO_FIGURES: Header := Header(0, 0, 0, 0, 0, 0, 0, 0, 0, 0, 0)

  function Opened(opener: Opener): Application {
    Application(opener.number, opener.periodStart, opener.periodEnd, Status.Draft,
                NO_FIGURES, Box(0, 0, 0, 0), FirstLines(opener), None, None)
  }

  predicate NumberTaken(apps: seq<Application>, number: nat) {
    exists k :: 0 <= k < |apps| && apps[k].number == number
  }

  /** The insert, refused by the unique (contract, number) constraint when somebody else got there first. */
  function InsertOpening(book: Book, opener: Opener): Result<Book> {
    if NumberTaken(book.applications, opener.number) then Err(ConflictError)
    else
      match Recompute(book, Opened(opener))
      case Err(e) => Err(e)
      case Ok(app) => Ok(book.(applications := book.applications + [app]))
  }

  // ---------------------------------------------------------------------------------------------
  // Entering and recomputing
  // ---------------------------------------------------------------------------------------------

  function EntryOf(line: Line): Entry {
    Entry(line.item, line.c, line.d, line.e, line.f, line.rate)
  }

  function EntriesOf(lines: seq<Line>): (r: seq<Entry>)
    ensures |r| == |lines|
  {
    seq(|lines|, k requires 0 <= k < |lines| => EntryOf(lines[k]))
  }

  /** Columns C to F and the line rate are inputs: computing never changes them. */
  lemma ComputeKeepsEntries(entries: seq<Entry>, originalSum: int, rule: Spec, net: int, previous: int)
    ensures EntriesOf(Requisition.Compute(entries, originalSum, rule, net, previous).lines) == entries
  {
  }

  datatype When = ThisPeriod | Earlier | Later

  /** Approval date inside the period, unless the order names the application it belongs to. */
  function Classify(app: Application, order: Order): When {
    if order.appliesTo.Some? then
      if order.appliesTo.value == app.number then ThisPeriod else Earlier
    else if order.approvedDate.None? then Earlier
    else if app.periodStart <= order.approvedDate.value <= app.periodEnd then ThisPeriod
    else if order.approvedDate.value < app.periodStart then Earlier
    else Later
  }

  function AddToBox(box: Box, when: When, amount: int): Box {
    match when
    case ThisPeriod =>
      if amount > 0 then box.(thisAdditions := box.thisAdditions + amount)
      else box.(thisDeductions := box.thisDeductions - amount)
    case Earlier =>
      if amount > 0 then box.(prevAdditions := box.prevAdditions + amount)
      else box.(prevDeductions := box.prevDeductions - amount)
    case Later => box
  }

  function BoxOf(app: Application, orders: seq<Order>): Box {
    if |orders| == 0 then Box(0, 0, 0, 0)
    else
      var last := orders[|orders| - 1];
      AddToBox(BoxOf(app, orders[..|orders| - 1]), Classify(app, last), last.amount)
  }

  /** Derives every column and every header line; a contract without a retainage rule cannot be computed. */
  function Recompute(book: Book, app: Application): Result<Application> {
    match book.rule
    case None => Err(ValueError)
    case Some(rule) =>
      var sheet := Requisition.Compute(EntriesOf(app.lines), book.originalSum, rule, NetOrders(book.orders),
                                       PreviousCertificates(PreviousIssued(book.applications, app.number)));
      Ok(app.(lines := sheet.lines, header := sheet.header, box := BoxOf(app, book.orders)))
  }

  function WithEntries(lines: seq<Line>, entries: seq<PeriodEntry>): (r: seq<Line>)
    requires forall k :: 0 <= k < |entries| ==> entries[k].line < |lines|
    ensures |r| == |lines|
  {
    if |entries| == 0 then lines
    else
      var init, last := WithEntries(lines, entries[..|entries| - 1]), entries[|entries| - 1];
      init[last.line := init[last.line].(e := last.thisPeriod, f := last.stored)]
  }

  predicate AllOnApplication(app: Application, entries: seq<PeriodEntry>) {
    forall k :: 0 <= k < |entries| ==> entries[k].line < |app.lines|
  }

  function EnterFigures(book: Book, app: Application, entries: seq<PeriodEntry>): Result<Application> {
    if !app.IsEditable() then Err(ConflictError)
    else if !AllOnApplication(app, entries) then Err(NotFoundError)
    else Recompute(book, app.(lines := WithEntries(app.lines, entries)))
  }

  // ---------------------------------------------------------------------------------------------
  // Submitting, certifying, voiding, paying
  // ---------------------------------------------------------------------------------------------

  /**
   * Submission: refused while any ERROR rule fires. `otherErrors` stands for the blocking findings
   * of the rules outside this model, `capBlocks` for a contract that enforces the cap by blocking.
   */
  function SubmitPeriod(
    book: Book, app: Application, named: bool, capBlocks: bool, otherErrors: bool): Result<Application>
  {
    if !named then Err(ValidationError)
    else if !app.IsEditable() then Err(ConflictError)
    else if !Clean(app, WorldOf(book, app)) || (capBlocks && Cap(app, book.rule, true) != []) || otherErrors then
      Err(ValidationError)
    else Ok(app.(status := Submitted, snapshot := Some(app.Frozen())))
  }

  function CertifyPeriod(app: Application, amount: int): Result<Application> {
    if !app.status.Submitted? then Err(ConflictError)
    else Ok(app.(status := Certified, certified := Some(amount)))
  }

  function VoidPeriod(app: Application): Result<Application> {
    if app.status.Paid? then Err(ConflictError)
    else Ok(app.(status := Void))
  }

  /** A payment: whether it closes the period depends on sums outside this model. */
  function PayPeriod(app: Application, amount: int, closes: bool): Result<Application> {
    if app.IsEditable() then Err(ValidationError)
    else if amount == 0 then Err(ValidationError)
    else Ok(if closes then app.(status := Paid) else app)
  }

  // ---------------------------------------------------------------------------------------------
  // Steps
  // ---------------------------------------------------------------------------------------------

  /** One thing that can happen to a contract. The last five are the surroundings moving on. */
  datatype Step =
    | Read(periodStart: int, periodEnd: int)
    | Insert(opener: nat)
    | Enter(app: nat, entries: seq<PeriodEntry>)
    | Submit(app: nat, named: bool, capBlocks: bool, otherErrors: bool)
    | Certify(app: nat, certified: int)
    | VoidApp(app: nat)
    | Pay(app: nat, amount: int, closes: bool)
    | Revise
    | NewSchedule(lines: seq<ScheduleLine>)
    | NewOrders(orders: seq<Order>)
    | NewRule(rule: Option<Spec>)
    | NewSum(sum: int)

  function Replace(book: Book, k: nat, r: Result<Application>): Result<Book>
    requires k < |book.applications|
  {
    match r
    case Err(e) => Err(e)
    case Ok(app) => Ok(book.(applications := book.applications[k := app]))
  }

  // Steps that compute no figures.
  function Plain(book: Book, step: Step): Result<Book> {
    match step
    case Read(periodStart, periodEnd) =>
      (match ReadOpening(book, periodStart, periodEnd)
       case Err(e) => Err(e)
       case Ok(opener) => Ok(book.(openers := book.openers + [opener])))
    case Certify(k, amount) =>
      if k < |book.applications| then Replace(book, k, CertifyPeriod(book.applications[k], amount))
      else Err(NotFoundError)
    case VoidApp(k) =>
      if k < |book.applications| then Replace(book, k, VoidPeriod(book.applications[k])) else Err(NotFoundError)
    case Pay(k, amount, closes) =>
      if k < |book.applications| then Replace(book, k, PayPeriod(book.applications[k], amount, closes))
      else Err(NotFoundError)
    case Revise => if book.schedule.None? || book.revising then Err(ConflictError) else Ok(book.(revising := true))
    case NewSchedule(lines) => Ok(book.(schedule := Some(lines), revising := false))
    case NewOrders(orders) => Ok(book.(orders := orders))
    case NewRule(rule) => Ok(book.(rule := rule))
    case NewSum(sum) => Ok(book.(originalSum := sum))
    case _ => Ok(book)
  }

  function Try(book: Book, step: Step): Result<Book> {
    match step
    case Insert(k) => if k < |book.openers| then InsertOpening(book, book.openers[k]) else Err(NotFoundError)
    case Enter(k, entries) =>
      if k < |book.applications| then Replace(book, k, EnterFigures(book, book.applications[k], entries))
      else Err(NotFoundError)
    case Submit(k, named, capBlocks, otherErrors) =>
      if k < |book.applications| then
        Replace(book, k, SubmitPeriod(book, book.applications[k], named, capBlocks, otherErrors))
      else Err(NotFoundError)
    case _ => Plain(book, step)
  }

  // A refused step changes nothing.
  function Kept(book: Book, r: Result<Book>): Book {
    match r
    case Ok(next) => next
    case Err(_) => book
  }

  function After(book: Book, step: Step): Book {
    Kept(book, Try(book, step))
  }
}
