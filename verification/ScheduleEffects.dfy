/** What the operations on a schedule and its change orders do to the stored rows, in terms of the columns alone. */
module ScheduleEffects {
  import opened MoneyText
  import opened Outcomes
  import opened Schedules
  import opened Sums

  // ---------------------------------------------------------------------------------------------
  // Rows
  // ---------------------------------------------------------------------------------------------

  ghost predicate IsRow(lines: seq<SovLine>, k: nat, id: nat) {
    k < |lines| && lines[k].id == id
  }

  ghost predicate NoRow(lines: seq<SovLine>, id: nat) {
    forall k :: 0 <= k < |lines| ==> lines[k].id != id
  }

  predicate OnDraft(schedules: seq<ScheduleStatus>, s: nat) {
    s < |schedules| && schedules[s] == Draft
  }

  // The same row with a new number and value: the current value follows from what has been adjusted on it.
  function Retyped(row: SovLine, item: string, value: int): SovLine {
    SovLine(row.id, row.schedule, Strip(item), value, row.adjustment, value + row.adjustment, row.isCoLine, row.source)
  }

  // The rows of one schedule are the ones at these positions.
  ghost predicate ArePositions(lines: seq<SovLine>, s: nat, positions: seq<nat>) {
    && (forall i :: 0 <= i < |positions| ==> positions[i] < |lines| && lines[positions[i]].schedule == s)
    && (forall i, j :: 0 <= i < j < |positions| ==> positions[i] < positions[j])
    && (forall k: nat :: k < |lines| && lines[k].schedule == s ==> k in positions)
  }

  // The rows are the ones at these positions, in their order.
  ghost predicate AreRowsAt(lines: seq<SovLine>, positions: seq<nat>, rows: seq<SovLine>) {
    && |rows| == |positions|
    && forall i :: 0 <= i < |rows| ==> positions[i] < |lines| && rows[i] == lines[positions[i]]
  }

  lemma {:induction false} OneMorePosition(lines: seq<SovLine>, s: nat, rest: seq<nat>)
    requires |lines| > 0 && ArePositions(lines[..|lines| - 1], s, rest)
    ensures ArePositions(lines, s, if lines[|lines| - 1].schedule == s then rest + [|lines| - 1] else rest)
  {
    var n := |lines| - 1;
    var positions := if lines[n].schedule == s then rest + [n] else rest;
    forall k: nat | k < |lines| && lines[k].schedule == s
      ensures k in positions
    {
      if k < n {
        assert lines[..n][k] == lines[k];
        assert k in rest;
      } else {
        assert positions[|rest|] == n;
      }
    }
  }

  lemma {:induction false} OneMoreRow(lines: seq<SovLine>, rest: seq<nat>, rows: seq<SovLine>)
    requires |lines| > 0 && AreRowsAt(lines[..|lines| - 1], rest, rows)
    ensures AreRowsAt(lines, rest, rows)
    ensures AreRowsAt(lines, rest + [|lines| - 1], rows + [lines[|lines| - 1]])
  {
  }

  /** A schedule's rows, in the order of the table. */
  lemma {:induction false} LinesArePositions(lines: seq<SovLine>, s: nat) returns (positions: seq<nat>)
    ensures ArePositions(lines, s, positions) && AreRowsAt(lines, positions, LinesOf(lines, s))
  {
    if |lines| > 0 {
      var n := |lines| - 1;
      var rest := LinesArePositions(lines[..n], s);
      positions := if lines[n].schedule == s then rest + [n] else rest;
      OneMorePosition(lines, s, rest);
      OneMoreRow(lines, rest, LinesOf(lines[..n], s));
    } else {
      positions := [];
    }
  }

  lemma {:induction false} EmptyExactlyWhen(lines: seq<SovLine>, s: nat)
    ensures LinesOf(lines, s) == [] <==> forall k :: 0 <= k < |lines| ==> lines[k].schedule != s
  {
    var positions := LinesArePositions(lines, s);
    if LinesOf(lines, s) != [] {
      assert lines[positions[0]].schedule == s;
    }
  }

  /** The new rows repeat the rows of a schedule on the next revision, under fresh ids and otherwise unchanged. */
  ghost predicate AreCopies(lines: seq<SovLine>, s: nat, copies: seq<SovLine>, firstId: nat) {
    exists positions ::
      && ArePositions(lines, s, positions) && |copies| == |positions|
      && forall i :: 0 <= i < |copies| ==>
           var row := lines[positions[i]];
           copies[i] == SovLine(
             firstId + i, s + 1, row.item, row.base, row.adjustment, row.current, row.isCoLine, row.source)
  }

  lemma {:induction false} CopiesAre(lines: seq<SovLine>, s: nat, firstId: nat)
    ensures AreCopies(lines, s, Copies(LinesOf(lines, s), s + 1, firstId), firstId)
  {
    var positions := LinesArePositions(lines, s);
    assert ArePositions(lines, s, positions) && AreRowsAt(lines, positions, LinesOf(lines, s));
  }

  // ---------------------------------------------------------------------------------------------
  // Totals
  // ---------------------------------------------------------------------------------------------

  function Bases(lines: seq<SovLine>, s: nat): (r: seq<int>)
    ensures |r| == |lines|
  {
    seq(|lines|, k requires 0 <= k < |lines| => if lines[k].schedule == s then lines[k].base else 0)
  }

  function Adjustments(lines: seq<SovLine>, s: nat): (r: seq<int>)
    ensures |r| == |lines|
  {
    seq(|lines|, k requires 0 <= k < |lines| => if lines[k].schedule == s then lines[k].adjustment else 0)
  }

  function Currents(lines: seq<SovLine>, s: nat): (r: seq<int>)
    ensures |r| == |lines|
  {
    seq(|lines|, k requires 0 <= k < |lines| => if lines[k].schedule == s then lines[k].current else 0)
  }

  /** The three totals of a schedule are the sums of its three columns. */
  lemma {:induction false} TotalsAreSums(lines: seq<SovLine>, s: nat)
    ensures Total(lines, s, Base) == Sum(Bases(lines, s))
    ensures Total(lines, s, Adjustment) == Sum(Adjustments(lines, s))
    ensures Total(lines, s, Current) == Sum(Currents(lines, s))
  {
    if |lines| > 0 {
      var n := |lines| - 1;
      TotalsAreSums(lines[..n], s);
      assert Bases(lines, s)[..n] == Bases(lines[..n], s);
      assert Adjustments(lines, s)[..n] == Adjustments(lines[..n], s);
      assert Currents(lines, s)[..n] == Currents(lines[..n], s);
    }
  }

  function ApprovedAmounts(orders: seq<ChangeOrder>): (r: seq<int>)
    ensures |r| == |orders|
  {
    seq(|orders|, k requires 0 <= k < |orders| => if orders[k].status == OrderApproved then orders[k].amount else 0)
  }

  lemma {:induction false} ApprovedIsSum(orders: seq<ChangeOrder>)
    ensures ApprovedTotal(orders) == Sum(ApprovedAmounts(orders))
  {
    if |orders| > 0 {
      var n := |orders| - 1;
      ApprovedIsSum(orders[..n]);
      assert ApprovedAmounts(orders)[..n] == ApprovedAmounts(orders[..n]);
    }
  }

  function LineAmounts(lines: seq<OrderLine>): (r: seq<int>)
    ensures |r| == |lines|
  {
    seq(|lines|, k requires 0 <= k < |lines| => lines[k].amount)
  }

  lemma {:induction false} LineTotalIsSum(lines: seq<OrderLine>)
    ensures LineTotal(lines) == Sum(LineAmounts(lines))
  {
    if |lines| > 0 {
      var n := |lines| - 1;
      LineTotalIsSum(lines[..n]);
      assert LineAmounts(lines)[..n] == LineAmounts(lines[..n]);
    }
  }

  // ---------------------------------------------------------------------------------------------
  // One change-order line on the table
  // ---------------------------------------------------------------------------------------------

  datatype Table = Table(rows: seq<SovLine>, nextId: nat)

  // The same row with its adjustment moved and its current value following; the base stays.
  function Shifted(row: SovLine, amount: int): SovLine {
    SovLine(row.id, row.schedule, row.item, row.base, row.adjustment + amount, row.base + row.adjustment + amount,
            row.isCoLine, row.source)
  }

  // A line that names a row moves it; one that names none appends a row with no base, under the order's number.
  ghost predicate Lands(before: Table, after: Table, line: OrderLine, o: nat, s: nat) {
    match line.target
    case Some(id) =>
      && after.nextId == before.nextId
      && exists k: nat ::
           IsRow(before.rows, k, id) && after.rows == before.rows[k := Shifted(before.rows[k], line.amount)]
    case None =>
      var created := SovLine(before.nextId, s, line.newItem, 0, line.amount, line.amount, true, Some(o));
      after == Table(before.rows + [created], before.nextId + 1)
  }

  // The tables on the way from the first line of an order on.
  ghost predicate LandOneByOne(tables: seq<Table>, lines: seq<OrderLine>, o: nat, s: nat) {
    && |tables| == |lines| + 1
    && forall n :: 0 <= n < |lines| ==> Lands(tables[n], tables[n + 1], lines[n], o, s)
  }

  /** Every line of the order has landed on the table, one after another. */
  ghost predicate AllLand(before: Table, after: Table, lines: seq<OrderLine>, o: nat, s: nat) {
    exists tables :: LandOneByOne(tables, lines, o, s) && tables[0] == before && tables[|lines|] == after
  }

  /** Some line of the order names a row that is not there when its turn comes. */
  ghost predicate SomeMissing(before: Table, lines: seq<OrderLine>, o: nat, s: nat) {
    exists n, middle ::
      && 0 <= n < |lines| && AllLand(before, middle, lines[..n], o, s)
      && lines[n].target.Some? && NoRow(middle.rows, lines[n].target.value)
  }

  lemma {:induction false} NoneLand(before: Table, o: nat, s: nat)
    ensures AllLand(before, before, [], o, s)
  {
    assert LandOneByOne([before], [], o, s);
  }

  lemma {:induction false} OneMoreLands(
    before: Table, middle: Table, after: Table, lines: seq<OrderLine>, line: OrderLine, o: nat, s: nat)
    requires AllLand(before, middle, lines, o, s) && Lands(middle, after, line, o, s)
    ensures AllLand(before, after, lines + [line], o, s)
  {
    var tables :| LandOneByOne(tables, lines, o, s) && tables[0] == before && tables[|lines|] == middle;
    assert LandOneByOne(tables + [after], lines + [line], o, s);
  }

  ghost predicate IsMade(row: SovLine, s: nat, o: nat, item: string) {
    row.schedule == s && row.source == Some(o) && row.item == item
  }

  ghost predicate IsLastMade(rows: seq<SovLine>, k: nat, s: nat, o: nat, item: string) {
    k < |rows| && IsMade(rows[k], s, o, item) && forall j :: k < j < |rows| ==> !IsMade(rows[j], s, o, item)
  }

  // A row that was moved moves back, if it is still there; one that was created goes, if it is still there.
  ghost predicate IsBackedOut(before: seq<SovLine>, after: seq<SovLine>, line: OrderLine, o: nat, s: nat) {
    match line.target
    case Some(id) =>
      if NoRow(before, id) then after == before
      else exists k: nat :: IsRow(before, k, id) && after == before[k := Shifted(before[k], -line.amount)]
    case None =>
      if forall j :: 0 <= j < |before| ==> !IsMade(before[j], s, o, line.newItem) then after == before
      else exists k: nat :: IsLastMade(before, k, s, o, line.newItem) && after == before[..k] + before[k + 1..]
  }

  ghost predicate ComeOffOneByOne(tables: seq<seq<SovLine>>, lines: seq<OrderLine>, o: nat, s: nat) {
    && |tables| == |lines| + 1
    && forall n :: 0 <= n < |lines| ==> IsBackedOut(tables[n], tables[n + 1], lines[n], o, s)
  }

  /** Every line of the order has come off the table, one after another. */
  ghost predicate AllComeOff(before: seq<SovLine>, after: seq<SovLine>, lines: seq<OrderLine>, o: nat, s: nat) {
    exists tables :: ComeOffOneByOne(tables, lines, o, s) && tables[0] == before && tables[|lines|] == after
  }

  lemma {:induction false} NoneComeOff(before: seq<SovLine>, o: nat, s: nat)
    ensures AllComeOff(before, before, [], o, s)
  {
    assert ComeOffOneByOne([before], [], o, s);
  }

  lemma {:induction false} OneMoreComesOff(
    before: seq<SovLine>, middle: seq<SovLine>, after: seq<SovLine>, lines: seq<OrderLine>, line: OrderLine,
    o: nat, s: nat)
    requires AllComeOff(before, middle, lines, o, s) && IsBackedOut(middle, after, line, o, s)
    ensures AllComeOff(before, after, lines + [line], o, s)
  {
    var tables :| ComeOffOneByOne(tables, lines, o, s) && tables[0] == before && tables[|lines|] == middle;
    assert ComeOffOneByOne(tables + [after], lines + [line], o, s);
  }

  lemma {:induction false} LastMadeIsFound(rows: seq<SovLine>, s: nat, o: nat, item: string)
    ensures FindCreated(rows, s, o, item).None? ==> forall j :: 0 <= j < |rows| ==> !IsMade(rows[j], s, o, item)
    ensures FindCreated(rows, s, o, item).Some? ==>
      exists k: nat :: IsLastMade(rows, k, s, o, item) && FindCreated(rows, s, o, item).value == rows[k]
  {
    if |rows| > 0 {
      var n := |rows| - 1;
      LastMadeIsFound(rows[..n], s, o, item);
      if IsMade(rows[n], s, o, item) {
        assert IsLastMade(rows, n, s, o, item);
      } else if FindCreated(rows[..n], s, o, item).Some? {
        var k: nat :| IsLastMade(rows[..n], k, s, o, item) && FindCreated(rows, s, o, item).value == rows[..n][k];
        assert IsLastMade(rows, k, s, o, item);
      }
    }
  }
}
