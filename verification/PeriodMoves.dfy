/**
 * What one step may do to a contract, said without the arithmetic of withholding. Everything proved about runs
 * rests on this relation alone, so it holds of any way of filling in column I and line 5.
 */
module PeriodMoves {
  import opened Applications
  import opened Outcomes
  import opened Periods
  import opened Requisition
  import opened Tieout

  /** A recomputation: the entries stay, and everything derived from them adds up. */
  ghost predicate Derives(book: Book, app: Application, computed: Application) {
    && computed == app.(lines := computed.lines, header := computed.header, box := BoxOf(app, book.orders))
    && EntriesOf(computed.lines) == EntriesOf(app.lines)
    && RowsAddUp(computed.lines)
    && HeaderAddsUp(computed.header, computed.lines, book.originalSum, NetOrders(book.orders),
                    PreviousCertificates(PreviousIssued(book.applications, app.number)))
  }

  // An insert goes through when its number is free and a rule is on file.
  predicate CanInsert(book: Book, k: nat) {
    k < |book.openers| && !NumberTaken(book.applications, book.openers[k].number) && book.rule.Some?
  }

  predicate CanEnter(book: Book, k: nat, entries: seq<PeriodEntry>) {
    && k < |book.applications| && book.applications[k].IsEditable()
    && AllOnApplication(book.applications[k], entries) && book.rule.Some?
  }

  // The part of the submission gate that this model spells out.
  predicate PassesGate(book: Book, k: nat, named: bool) {
    && named && k < |book.applications| && book.applications[k].IsEditable()
    && Clean(book.applications[k], WorldOf(book, book.applications[k]))
  }

  ghost predicate Inserted(book: Book, k: nat, next: Book)
    requires CanInsert(book, k)
  {
    var n := |book.applications|;
    && |next.applications| == n + 1
    && next == book.(applications := book.applications + [next.applications[n]])
    && Derives(book, Opened(book.openers[k]), next.applications[n])
  }

  function Typed(app: Application, entries: seq<PeriodEntry>): Application
    requires AllOnApplication(app, entries)
  {
    app.(lines := WithEntries(app.lines, entries))
  }

  ghost predicate Entered(book: Book, k: nat, entries: seq<PeriodEntry>, next: Book)
    requires CanEnter(book, k, entries)
  {
    && |next.applications| == |book.applications|
    && next == book.(applications := book.applications[k := next.applications[k]])
    && Derives(book, Typed(book.applications[k], entries), next.applications[k])
  }

  function WithSubmitted(book: Book, k: nat): Book
    requires k < |book.applications|
  {
    var app := book.applications[k];
    book.(applications := book.applications[k := app.(status := Submitted, snapshot := Some(app.Frozen()))])
  }

  /** One step. A submission that passes the gate may still be refused by the cap or by the rules outside this model. */
  ghost predicate Moves(book: Book, step: Step, next: Book) {
    match step
    case Insert(k) => if CanInsert(book, k) then Inserted(book, k, next) else next == book
    case Enter(k, entries) => if CanEnter(book, k, entries) then Entered(book, k, entries, next) else next == book
    case Submit(k, named, capBlocks, otherErrors) =>
      if !PassesGate(book, k, named) then next == book
      else next == WithSubmitted(book, k) || (next == book && (capBlocks || otherErrors))
    case _ => next == Kept(book, Plain(book, step))
  }

  // ---------------------------------------------------------------------------------------------
  // Recomputing does what the relation says; the rest of every operation is in its definition
  // ---------------------------------------------------------------------------------------------

  /** A recomputation is possible exactly with a rule on file, and derives what it should. */
  lemma {:induction false} RecomputeDerives(book: Book, app: Application)
    ensures Recompute(book, app).Ok? <==> book.rule.Some?
    ensures book.rule.Some? ==> Derives(book, app, Recompute(book, app).value)
  {
    if book.rule.Some? {
      var entries, net := EntriesOf(app.lines), NetOrders(book.orders);
      var previous := PreviousCertificates(PreviousIssued(book.applications, app.number));
      ComputeAddsUp(entries, book.originalSum, book.rule.value, net, previous);
      ComputeKeepsEntries(entries, book.originalSum, book.rule.value, net, previous);
    }
  }

  /** Every step of the engine is a move, so the theorems over runs are theorems about `After`. */
  ghost method EveryStepMoves(book: Book, step: Step)
    ensures Moves(book, step, After(book, step))
  {
    match step
    case Insert(k) => if k < |book.openers| { RecomputeDerives(book, Opened(book.openers[k])); }
    case Enter(k, entries) =>
      if k < |book.applications| && AllOnApplication(book.applications[k], entries) {
        RecomputeDerives(book, Typed(book.applications[k], entries));
      }
    case _ =>
  }

  // ---------------------------------------------------------------------------------------------
  // Runs
  // ---------------------------------------------------------------------------------------------

  function Start(originalSum: int): Book {
    Book(originalSum, [], None, false, [], None, [])
  }

  // One move after another, refused ones included.
  ghost predicate IsChain(books: seq<Book>, steps: seq<Step>) {
    |books| == |steps| + 1 && forall k :: 0 <= k < |steps| ==> Moves(books[k], steps[k], books[k + 1])
  }

  /** The states of a run: a chain from an empty contract. */
  ghost predicate IsRun(originalSum: int, books: seq<Book>, steps: seq<Step>) {
    IsChain(books, steps) && books[0] == Start(originalSum)
  }
}
