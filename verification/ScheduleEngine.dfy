/** The stored schedules and change orders, and the operations that update their rows in place. */
module ScheduleEngine {
  import opened MoneyText
  import opened Outcomes
  import opened ScheduleEffects
  import opened ScheduleRuns
  import opened Schedules
  import opened Sums

  datatype Answer = Done | Refused(error: Error)

  function AnswerTo(r: Result<Plan>): Answer {
    match r
    case Ok(_) => Done
    case Err(e) => Refused(e)
  }

  // With unique ids, changing every row that has the id is changing the one row at position k.

  lemma AdjustOneRow(lines: seq<SovLine>, id: nat, amount: int, k: nat)
    requires DistinctIds(lines) && k < |lines| && lines[k].id == id
    ensures Adjust(lines, id, amount) == lines[k := Adjusted(lines[k], amount)]
  {
    forall j: nat | j < |lines|
      ensures Adjust(lines, id, amount)[j] == lines[k := Adjusted(lines[k], amount)][j]
    {
      AdjustRow(lines, id, amount, j);
      SamePosition(lines, id, j, k);
    }
  }

  lemma RewriteOneRow(lines: seq<SovLine>, id: nat, item: string, value: int, k: nat)
    requires DistinctIds(lines) && k < |lines| && lines[k].id == id
    ensures Rewrite(lines, id, item, value)
      == lines[k := lines[k].(item := Strip(item), base := value, current := value + lines[k].adjustment)]
  {
    forall j: nat | j < |lines|
      ensures Rewrite(lines, id, item, value)[j]
        == lines[k := lines[k].(item := Strip(item), base := value, current := value + lines[k].adjustment)][j]
    {
      RewriteRow(lines, id, item, value, j);
      SamePosition(lines, id, j, k);
    }
  }

  lemma SamePosition(lines: seq<SovLine>, id: nat, j: nat, k: nat)
    requires DistinctIds(lines) && j < |lines| && k < |lines| && lines[k].id == id
    ensures lines[j].id == id <==> j == k
  {
    if j < k {
      assert lines[j].id != lines[k].id;
    } else if k < j {
      assert lines[k].id != lines[j].id;
    }
  }

  lemma {:induction false} RemoveNoRow(lines: seq<SovLine>, id: nat)
    requires forall k :: 0 <= k < |lines| ==> lines[k].id != id
    ensures Remove(lines, id) == lines && Find(lines, id).None?
  {
    if |lines| > 0 {
      RemoveNoRow(lines[..|lines| - 1], id);
    }
  }

  lemma {:induction false} RemoveOneRow(lines: seq<SovLine>, id: nat, k: nat)
    requires DistinctIds(lines) && k < |lines| && lines[k].id == id
    ensures Remove(lines, id) == lines[..k] + lines[k + 1..]
  {
    var n := |lines| - 1;
    if k == n {
      forall j | 0 <= j < n ensures lines[..n][j].id != id { SamePosition(lines, id, j, k); }
      RemoveNoRow(lines[..n], id);
      assert lines[k + 1..] == [];
    } else {
      SamePosition(lines, id, n, k);
      RemoveOneRow(lines[..n], id, k);
      assert lines[..n][..k] == lines[..k];
      assert lines[..n][k + 1..] + [lines[n]] == lines[k + 1..];
    }
  }

  lemma AdjustNoRow(lines: seq<SovLine>, id: nat, amount: int)
    requires Find(lines, id).None?
    ensures Adjust(lines, id, amount) == lines
  {
    FindMeans(lines, id);
    forall j: nat | j < |lines| ensures Adjust(lines, id, amount)[j] == lines[j] {
      AdjustRow(lines, id, amount, j);
    }
  }

  class Ledger {
    var originalSum: int
    var lines: seq<SovLine>
    var schedules: seq<ScheduleStatus>
    var orders: seq<ChangeOrder>
    var nextId: nat

    ghost function View(): Plan
      reads this
    {
      Plan(originalSum, lines, schedules, orders, nextId)
    }

    ghost predicate Valid()
      reads this
    {
      RowsOk(View())
    }

    constructor (originalSum: int)
      ensures Valid() && View() == Start(originalSum)
    {
      this.originalSum := originalSum;
      lines, schedules, orders, nextId := [], [], [], 0;
    }

    // The position of the row with this id, or the end of the table.
    method Position(id: nat) returns (k: nat)
      requires Valid()
      ensures k <= |lines| && (k < |lines| <==> Find(lines, id).Some?)
      ensures k < |lines| ==> lines[k].id == id && Find(lines, id) == Some(lines[k])
      ensures k == |lines| ==> NoRow(lines, id)
      ensures k < |lines| ==> forall j: nat :: IsRow(lines, j, id) ==> j == k
    {
      k := 0;
      while k < |lines| && lines[k].id != id
        invariant k <= |lines| && forall j :: 0 <= j < k ==> lines[j].id != id
      {
        k := k + 1;
      }
      if k < |lines| {
        FoundRow(lines, id, k);
      } else {
        RemoveNoRow(lines, id);
      }
    }

    method ApprovedChangeOrders() returns (total: int)
      ensures total == ApprovedTotal(orders) == Sum(ApprovedAmounts(orders))
    {
      ApprovedIsSum(orders);
      total := 0;
      for o := 0 to |orders|
        invariant total == ApprovedTotal(orders[..o])
      {
        assert orders[..o + 1][..o] == orders[..o];
        if orders[o].status.OrderApproved? {
          total := total + orders[o].amount;
        }
      }
      assert orders[..|orders|] == orders;
    }

    method ScheduledTotal(s: nat, measure: Measure) returns (total: int)
      ensures total == Total(lines, s, measure)
      ensures measure == Base ==> total == Sum(Bases(lines, s))
      ensures measure == Adjustment ==> total == Sum(Adjustments(lines, s))
      ensures measure == Current ==> total == Sum(Currents(lines, s))
    {
      TotalsAreSums(lines, s);
      total := 0;
      for k := 0 to |lines|
        invariant total == Total(lines[..k], s, measure)
      {
        assert lines[..k + 1][..k] == lines[..k];
        if lines[k].schedule == s {
          total := total + Amount(lines[k], measure);
        }
      }
      assert lines[..|lines|] == lines;
    }

    method RowsOf(s: nat) returns (rows: seq<SovLine>)
      ensures rows == LinesOf(lines, s)
    {
      rows := [];
      for k := 0 to |lines|
        invariant rows == LinesOf(lines[..k], s)
      {
        assert lines[..k + 1][..k] == lines[..k];
        if lines[k].schedule == s {
          rows := rows + [lines[k]];
        }
      }
      assert lines[..|lines|] == lines;
    }

    method StartFirstSchedule() returns (answer: Answer)
      requires Valid()
      modifies this`schedules
      ensures Valid() && View() == After(old(View()), StartSchedule)
      ensures answer == AnswerTo(Try(old(View()), StartSchedule))
      ensures answer == if |old(schedules)| > 0 then Refused(ConflictError) else Done
      ensures schedules == if answer.Done? then [Draft] else old(schedules)
    {
      if |schedules| > 0 {
        return Refused(ConflictError);
      }
      schedules := [Draft];
      return Done;
    }

    method AddRow(s: nat, item: string, value: int, described: bool) returns (answer: Answer)
      requires Valid()
      modifies this`lines, this`nextId
      ensures Valid() && View() == After(old(View()), Add(s, item, value, described))
      ensures answer == AnswerTo(Try(old(View()), Add(s, item, value, described)))
      ensures answer ==
        if !OnDraft(schedules, s) then Refused(ConflictError)
        else if !described then Refused(ValidationError)
        else if exists k :: 0 <= k < |old(lines)| && old(lines)[k].schedule == s && old(lines)[k].item == item then
          Refused(ConflictError)
        else Done
      ensures answer.Done? ==>
        && lines == old(lines) + [SovLine(old(nextId), s, Strip(item), value, 0, value, false, None)]
        && nextId == old(nextId) + 1
      ensures !answer.Done? ==> lines == old(lines) && nextId == old(nextId)
    {
      if s >= |schedules| || !schedules[s].Draft? {
        return Refused(ConflictError);
      }
      if !described {
        return Refused(ValidationError);
      }
      for k := 0 to |lines|
        invariant !ItemUsed(lines[..k], s, item)
      {
        if lines[k].schedule == s && lines[k].item == item {
          return Refused(ConflictError);
        }
      }
      assert lines[..|lines|] == lines;
      var line := SovLine(nextId, s, Strip(item), value, 0, value, false, None);
      AppendKeepsRows(View(), [line], schedules);
      lines := lines + [line];
      nextId := nextId + 1;
      return Done;
    }

    method UpdateRow(id: nat, item: string, value: int) returns (answer: Answer)
      requires Valid()
      modifies this`lines
      ensures Valid() && View() == After(old(View()), Update(id, item, value))
      ensures answer == AnswerTo(Try(old(View()), Update(id, item, value)))
      ensures NoRow(old(lines), id) ==> answer == Refused(NotFoundError)
      ensures forall k: nat :: IsRow(old(lines), k, id) ==>
        answer == if OnDraft(schedules, old(lines)[k].schedule) then Done else Refused(ConflictError)
      ensures answer.Done? ==> forall k: nat :: IsRow(old(lines), k, id) ==>
        lines == old(lines)[k := Retyped(old(lines)[k], item, value)]
      ensures !answer.Done? ==> lines == old(lines)
    {
      var k := Position(id);
      if k == |lines| {
        return Refused(NotFoundError);
      }
      var s := lines[k].schedule;
      if s >= |schedules| || !schedules[s].Draft? {
        return Refused(ConflictError);
      }
      RewriteKeepsRows(View(), id, item, value);
      RewriteRowAt(k, item, value);
      return Done;
    }

    method RewriteRowAt(k: nat, item: string, value: int)
      requires Valid() && k < |lines|
      modifies this`lines
      ensures lines == old(lines)[k := Retyped(old(lines)[k], item, value)]
      ensures lines == Rewrite(old(lines), old(lines)[k].id, item, value)
    {
      RewriteOneRow(lines, lines[k].id, item, value, k);
      lines := lines[k := lines[k].(item := Strip(item), base := value, current := value + lines[k].adjustment)];
    }

    method DeleteRow(id: nat) returns (answer: Answer)
      requires Valid()
      modifies this`lines
      ensures Valid() && View() == After(old(View()), Delete(id))
      ensures answer == AnswerTo(Try(old(View()), Delete(id)))
      ensures NoRow(old(lines), id) ==> answer == Refused(NotFoundError)
      ensures forall k: nat :: IsRow(old(lines), k, id) ==>
        answer == if OnDraft(schedules, old(lines)[k].schedule) && !old(lines)[k].isCoLine then Done
                  else Refused(ConflictError)
      ensures answer.Done? ==> forall k: nat :: IsRow(old(lines), k, id) ==>
        lines == old(lines)[..k] + old(lines)[k + 1..]
      ensures !answer.Done? ==> lines == old(lines)
    {
      var k := Position(id);
      if k == |lines| {
        return Refused(NotFoundError);
      }
      var s := lines[k].schedule;
      if s >= |schedules| || !schedules[s].Draft? || lines[k].isCoLine {
        return Refused(ConflictError);
      }
      RemoveOneRow(lines, id, k);
      RemoveKeepsRows(View(), id);
      lines := lines[..k] + lines[k + 1..];
      return Done;
    }

    method SaveContractSum(sum: int) returns (answer: Answer)
      requires Valid()
      modifies this`originalSum
      ensures Valid() && View() == After(old(View()), EditSum(sum))
      ensures answer == AnswerTo(Try(old(View()), EditSum(sum)))
      ensures answer == if sum > 0 then Done else Refused(ValidationError)
      ensures originalSum == if sum > 0 then sum else old(originalSum)
    {
      if sum <= 0 {
        return Refused(ValidationError);
      }
      originalSum := sum;
      return Done;
    }

    method ApproveRevision(s: nat) returns (answer: Answer)
      requires Valid()
      modifies this`schedules
      ensures Valid() && View() == After(old(View()), Approve(s))
      ensures answer == AnswerTo(Try(old(View()), Approve(s)))
      ensures answer ==
        if !OnDraft(old(schedules), s) then Refused(ConflictError)
        else if forall k :: 0 <= k < |lines| ==> lines[k].schedule != s then Refused(ValidationError)
        else if Sum(Currents(lines, s)) != originalSum + Sum(ApprovedAmounts(orders)) then Refused(ValidationError)
        else Done
      ensures schedules == if answer.Done? then old(schedules)[s := Approved] else old(schedules)
    {
      if s >= |schedules| || !schedules[s].Draft? {
        return Refused(ConflictError);
      }
      EmptyExactlyWhen(lines, s);
      var rows := RowsOf(s);
      if rows == [] {
        return Refused(ValidationError);
      }
      var total := ScheduledTotal(s, Current);
      var net := ApprovedChangeOrders();
      if total != originalSum + net {
        return Refused(ValidationError);
      }
      schedules := schedules[s := Approved];
      return Done;
    }

    method Supersede(s: nat) returns (answer: Answer)
      requires Valid()
      modifies this`lines, this`schedules, this`nextId
      ensures Valid() && View() == After(old(View()), Revise(s))
      ensures answer == AnswerTo(Try(old(View()), Revise(s)))
      ensures answer ==
        if s >= |old(schedules)| then Refused(NotFoundError)
        else if old(schedules)[s] != Approved || s < |old(schedules)| - 1 then Refused(ConflictError)
        else Done
      ensures answer.Done? ==>
        && schedules == old(schedules)[s := Superseded] + [Draft]
        && |lines| >= |old(lines)| && lines[..|old(lines)|] == old(lines)
        && AreCopies(old(lines), s, lines[|old(lines)|..], old(nextId))
        && nextId == old(nextId) + |lines| - |old(lines)|
      ensures !answer.Done? ==> schedules == old(schedules) && lines == old(lines) && nextId == old(nextId)
    {
      if s >= |schedules| {
        return Refused(NotFoundError);
      }
      if !schedules[s].Approved? || s + 1 < |schedules| {
        return Refused(ConflictError);
      }
      RevisionKeepsRows(View(), s);
      var source := RowsOf(s);
      CopiesAre(lines, s, nextId);
      AppendCopies(source, s + 1);
      schedules := schedules[s := Superseded] + [Draft];
      return Done;
    }

    method AppendCopies(source: seq<SovLine>, s: nat)
      modifies this`lines, this`nextId
      ensures lines == old(lines) + Copies(source, s, old(nextId)) && nextId == old(nextId) + |source|
      ensures lines[..|old(lines)|] == old(lines) && lines[|old(lines)|..] == Copies(source, s, old(nextId))
    {
      ghost var copies := Copies(source, s, nextId);
      for k := 0 to |source|
        invariant nextId == old(nextId) + k && lines == old(lines) + copies[..k]
      {
        lines := lines + [source[k].(id := nextId, schedule := s)];
        nextId := nextId + 1;
      }
      assert copies[..|source|] == copies;
    }

    method StartChangeOrder()
      requires Valid()
      modifies this`orders
      ensures Valid() && View() == After(old(View()), StartOrder)
      ensures orders == old(orders) + [ChangeOrder(OrderDraft, [], 0)]
    {
      orders := orders + [ChangeOrder(OrderDraft, [], 0)];
    }

    method AppendToOrder(o: nat, target: Option<nat>, newItem: string, amount: int) returns (answer: Answer)
      requires Valid()
      modifies this`orders
      ensures Valid() && View() == After(old(View()), AddToOrder(o, target, newItem, amount))
      ensures answer == AnswerTo(Try(old(View()), AddToOrder(o, target, newItem, amount)))
      ensures answer ==
        if o >= |old(orders)| || (target.Some? && NoRow(lines, target.value)) then Refused(NotFoundError)
        else if old(orders)[o].status != OrderDraft then Refused(ConflictError)
        else if target.None? && Strip(newItem) == "" then Refused(ValidationError)
        else Done
      ensures answer.Done? ==>
        var all := old(orders)[o].lines + [OrderLine(target, Strip(newItem), amount)];
        orders == old(orders)[o := ChangeOrder(OrderDraft, all, Sum(LineAmounts(all)))]
      ensures !answer.Done? ==> orders == old(orders)
    {
      if o >= |orders| {
        return Refused(NotFoundError);
      }
      if target.Some? {
        var k := Position(target.value);
        if k == |lines| {
          return Refused(NotFoundError);
        }
      }
      if !orders[o].status.OrderDraft? {
        return Refused(ConflictError);
      }
      if target.None? && Strip(newItem) == "" {
        return Refused(ValidationError);
      }
      var orderLines := orders[o].lines + [OrderLine(target, Strip(newItem), amount)];
      var total := 0;
      for k := 0 to |orderLines|
        invariant total == LineTotal(orderLines[..k])
      {
        assert orderLines[..k + 1][..k] == orderLines[..k];
        total := total + orderLines[k].amount;
      }
      assert orderLines[..|orderLines|] == orderLines;
      LineTotalIsSum(orderLines);
      orders := orders[o := orders[o].(lines := orderLines, amount := total)];
      return Done;
    }

    /** Lands the order's lines one after another; a missing target rolls everything back. */
    method ApproveChangeOrder(o: nat, s: nat) returns (answer: Answer)
      requires Valid()
      modifies this`lines, this`orders, this`nextId
      ensures Valid() && View() == After(old(View()), ApproveCo(o, s))
      ensures answer == AnswerTo(Try(old(View()), ApproveCo(o, s)))
      ensures answer ==
        if o >= |old(orders)| then Refused(NotFoundError)
        else if old(orders)[o].status != OrderDraft then Refused(ConflictError)
        else if old(orders)[o].lines == [] then Refused(ValidationError)
        else if !OnDraft(schedules, s) then Refused(ConflictError)
        else if answer.Done? then Done else Refused(ValidationError)
      ensures answer.Done? ==>
        && orders == old(orders)[o := old(orders)[o].(status := OrderApproved)]
        && AllLand(Table(old(lines), old(nextId)), Table(lines, nextId), old(orders)[o].lines, o, s)
      ensures !answer.Done? ==> lines == old(lines) && nextId == old(nextId) && orders == old(orders)
      ensures answer == Refused(ValidationError) && old(orders)[o].lines != [] ==>
        SomeMissing(Table(old(lines), old(nextId)), old(orders)[o].lines, o, s)
    {
      if o >= |orders| {
        return Refused(NotFoundError);
      }
      if !orders[o].status.OrderDraft? {
        return Refused(ConflictError);
      }
      var orderLines := orders[o].lines;
      if orderLines == [] {
        return Refused(ValidationError);
      }
      if s >= |schedules| || !schedules[s].Draft? {
        return Refused(ConflictError);
      }
      var savedLines, savedId := lines, nextId;
      var landed := LandRows(o, s, orderLines);
      if !landed {
        lines, nextId := savedLines, savedId;
        return Refused(ValidationError);
      }
      orders := WithStatus(orders, o, OrderApproved);
      return Done;
    }

    method LandRows(o: nat, s: nat, orderLines: seq<OrderLine>) returns (landed: bool)
      requires Valid() && s < |schedules|
      modifies this`lines, this`nextId
      ensures landed ==> Valid() && Land(old(View()), o, s, orderLines) == Ok(View())
      ensures !landed ==> Land(old(View()), o, s, orderLines) == Err(ValidationError)
      ensures landed ==> AllLand(Table(old(lines), old(nextId)), Table(lines, nextId), orderLines, o, s)
      ensures !landed ==> SomeMissing(Table(old(lines), old(nextId)), orderLines, o, s)
    {
      ghost var before := Table(lines, nextId);
      NoneLand(before, o, s);
      assert orderLines[..0] == [];
      for k := 0 to |orderLines|
        invariant Valid() && Land(old(View()), o, s, orderLines[..k]) == Ok(View())
        invariant AllLand(before, Table(lines, nextId), orderLines[..k], o, s)
      {
        assert orderLines[..k + 1][..k] == orderLines[..k];
        assert orderLines[..k + 1] == orderLines[..k] + [orderLines[k]];
        ghost var middle := Table(lines, nextId);
        var one := LandRow(o, s, orderLines[k]);
        if !one {
          LandingFails(old(View()), o, s, orderLines, k + 1);
          return false;
        }
        OneMoreLands(before, middle, Table(lines, nextId), orderLines[..k], orderLines[k], o, s);
      }
      assert orderLines[..|orderLines|] == orderLines;
      return true;
    }

    method LandRow(o: nat, s: nat, line: OrderLine) returns (landed: bool)
      requires Valid() && s < |schedules|
      modifies this`lines, this`nextId
      ensures Valid() && landed == LandOne(old(View()), o, s, line).Ok?
      ensures LandOne(old(View()), o, s, line) == if landed then Ok(View()) else Err(ValidationError)
      ensures landed ==> Lands(Table(old(lines), old(nextId)), Table(lines, nextId), line, o, s)
      ensures !landed ==> line.target.Some? && NoRow(old(lines), line.target.value)
    {
      if line.target.None? {
        var created := SovLine(nextId, s, line.newItem, 0, line.amount, line.amount, true, Some(o));
        AppendKeepsRows(View(), [created], schedules);
        lines := lines + [created];
        nextId := nextId + 1;
        return true;
      }
      var p := Position(line.target.value);
      if p == |lines| {
        return false;
      }
      AdjustKeepsRows(View(), line.target.value, line.amount);
      AdjustRowOf(line.target.value, line.amount);
      return true;
    }

    /** Backs an approved order out of the schedule, line by line. */
    method VoidChangeOrder(o: nat, s: nat) returns (answer: Answer)
      requires Valid()
      modifies this`lines, this`orders
      ensures Valid() && View() == After(old(View()), VoidCo(o, s))
      ensures answer == AnswerTo(Try(old(View()), VoidCo(o, s)))
      ensures answer ==
        if o >= |old(orders)| then Refused(NotFoundError)
        else if old(orders)[o].status == OrderApproved && !OnDraft(schedules, s) then Refused(ConflictError)
        else Done
      ensures answer.Done? ==>
        && orders == old(orders)[o := old(orders)[o].(status := OrderVoid)]
        && (if old(orders)[o].status == OrderApproved then AllComeOff(old(lines), lines, old(orders)[o].lines, o, s)
            else lines == old(lines))
      ensures !answer.Done? ==> lines == old(lines) && orders == old(orders)
    {
      if o >= |orders| {
        return Refused(NotFoundError);
      }
      if !orders[o].status.OrderApproved? {
        orders := WithStatus(orders, o, OrderVoid);
        return Done;
      }
      if s >= |schedules| || !schedules[s].Draft? {
        return Refused(ConflictError);
      }
      BackOutRows(o, s, orders[o].lines);
      orders := WithStatus(orders, o, OrderVoid);
      return Done;
    }

    method BackOutRows(o: nat, s: nat, orderLines: seq<OrderLine>)
      requires Valid()
      modifies this`lines
      ensures Valid() && lines == BackOut(old(lines), o, s, orderLines)
      ensures AllComeOff(old(lines), lines, orderLines, o, s)
    {
      NoneComeOff(lines, o, s);
      assert orderLines[..0] == [];
      for k := 0 to |orderLines|
        invariant Valid() && lines == BackOut(old(lines), o, s, orderLines[..k])
        invariant AllComeOff(old(lines), lines, orderLines[..k], o, s)
      {
        assert orderLines[..k + 1][..k] == orderLines[..k];
        assert orderLines[..k + 1] == orderLines[..k] + [orderLines[k]];
        ghost var middle := lines;
        BackOutRow(o, s, orderLines[k]);
        OneMoreComesOff(old(lines), middle, lines, orderLines[..k], orderLines[k], o, s);
      }
      assert orderLines[..|orderLines|] == orderLines;
    }

    method BackOutRow(o: nat, s: nat, line: OrderLine)
      requires Valid()
      modifies this`lines
      ensures Valid() && lines == BackOutOne(old(lines), o, s, line)
      ensures IsBackedOut(old(lines), lines, line, o, s)
    {
      BackingOutOne(View(), o, s, line);
      if line.target.None? {
        var created := CreatedBy(s, o, line.newItem);
        if created.Some? {
          RemoveRowOf(created.value.id);
        }
      } else {
        AdjustRowOf(line.target.value, -line.amount);
      }
    }

    method RemoveRowOf(id: nat)
      requires Valid()
      modifies this`lines
      ensures lines == Remove(old(lines), id)
      ensures forall k: nat :: IsRow(old(lines), k, id) ==> lines == old(lines)[..k] + old(lines)[k + 1..]
    {
      var p := Position(id);
      if p < |lines| {
        RemoveOneRow(lines, id, p);
        lines := lines[..p] + lines[p + 1..];
      } else {
        FindMeans(lines, id);
        RemoveNoRow(lines, id);
      }
    }

    method AdjustRowOf(id: nat, amount: int)
      requires Valid()
      modifies this`lines
      ensures lines == Adjust(old(lines), id, amount)
      ensures NoRow(old(lines), id) ==> lines == old(lines)
      ensures !NoRow(old(lines), id) ==>
        exists k: nat :: IsRow(old(lines), k, id) && lines == old(lines)[k := Shifted(old(lines)[k], amount)]
    {
      var p := Position(id);
      if p < |lines| {
        AdjustOneRow(lines, id, amount, p);
        lines := lines[p := Adjusted(lines[p], amount)];
      } else {
        AdjustNoRow(lines, id, amount);
      }
    }

    method CreatedBy(s: nat, o: nat, item: string) returns (created: Option<SovLine>)
      ensures created == FindCreated(lines, s, o, item)
      ensures created.None? ==> forall j :: 0 <= j < |lines| ==> !IsMade(lines[j], s, o, item)
      ensures created.Some? ==> exists k: nat :: IsLastMade(lines, k, s, o, item) && lines[k] == created.value
    {
      created := None;
      for k := 0 to |lines|
        invariant created == FindCreated(lines[..k], s, o, item)
      {
        assert lines[..k + 1][..k] == lines[..k];
        if IsCreated(lines[k], s, o, item) {
          created := Some(lines[k]);
        }
      }
      assert lines[..|lines|] == lines;
      LastMadeIsFound(lines, s, o, item);
    }
  }

  // A failed landing of the first lines is a failed landing of them all.
  lemma {:induction false} LandingFails(plan: Plan, o: nat, s: nat, lines: seq<OrderLine>, n: nat)
    requires n <= |lines| && Land(plan, o, s, lines[..n]) == Err(ValidationError)
    ensures Land(plan, o, s, lines) == Err(ValidationError)
    decreases |lines| - n
  {
    if n == |lines| {
      assert lines[..n] == lines;
    } else {
      assert lines[..n + 1][..n] == lines[..n];
      LandingFails(plan, o, s, lines, n + 1);
    }
  }
}
