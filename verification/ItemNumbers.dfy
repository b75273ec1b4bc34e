/** Item numbers on a schedule: which steps keep them distinct. The carry-forward of a period is keyed by them. */
module ItemNumbers {
  import opened ChangeOrderLaws
  import opened MoneyText
  import opened Outcomes
  import opened ScheduleRuns
  import opened Schedules

  // The item numbers on one schedule, each as often as it occurs.
  function NumbersOn(lines: seq<SovLine>, s: nat): multiset<string> {
    Numbers(LinesOf(lines, s))
  }

  ghost predicate Unrepeated(numbers: multiset<string>) {
    forall item :: item in numbers ==> numbers[item] == 1
  }

  // No schedule bears an item number twice.
  ghost predicate AllDistinct(lines: seq<SovLine>) {
    forall s: nat :: Unrepeated(NumbersOn(lines, s))
  }

  lemma {:induction false} NumbersOnAppend(lines: seq<SovLine>, line: SovLine, s: nat)
    ensures NumbersOn(lines + [line], s)
      == NumbersOn(lines, s) + if line.schedule == s then multiset{line.item} else multiset{}
  {
    LinesOfAppend(lines, line, s);
    NumbersAppend(LinesOf(lines, s), line);
  }

  lemma {:induction false} NumbersOnLast(lines: seq<SovLine>, s: nat)
    requires |lines| > 0
    ensures var n := |lines| - 1;
      NumbersOn(lines, s)
      == NumbersOn(lines[..n], s) + if lines[n].schedule == s then multiset{lines[n].item} else multiset{}
  {
    var n := |lines| - 1;
    NumbersOnAppend(lines[..n], lines[n], s);
    assert lines == lines[..n] + [lines[n]];
  }

  lemma {:induction false} UsedIsAmongNumbers(lines: seq<SovLine>, s: nat, item: string)
    ensures ItemUsed(lines, s, item) <==> item in NumbersOn(lines, s)
  {
    if |lines| > 0 {
      var n := |lines| - 1;
      UsedIsAmongNumbers(lines[..n], s, item);
      NumbersOnLast(lines, s);
      assert forall k :: 0 <= k < n ==> lines[..n][k] == lines[k];
    }
  }

  lemma {:induction false} Regroup(a: multiset<string>, b: multiset<string>, c: multiset<string>)
    ensures (a + b) + c == a + (b + c) == (a + c) + b
  {
  }

  lemma {:induction false} NumbersOnConcat(xs: seq<SovLine>, ys: seq<SovLine>, s: nat)
    ensures NumbersOn(xs + ys, s) == NumbersOn(xs, s) + NumbersOn(ys, s)
  {
    LinesOfConcat(xs, ys, s);
    assert ItemsOf(LinesOf(xs, s) + LinesOf(ys, s)) == ItemsOf(LinesOf(xs, s)) + ItemsOf(LinesOf(ys, s));
  }

  // Row for row the same schedules and item numbers.
  lemma {:induction false} SameNumbers(xs: seq<SovLine>, ys: seq<SovLine>, s: nat)
    requires |xs| == |ys|
    requires forall k :: 0 <= k < |xs| ==> xs[k].schedule == ys[k].schedule && xs[k].item == ys[k].item
    ensures NumbersOn(xs, s) == NumbersOn(ys, s)
  {
    if |xs| > 0 {
      SameNumbers(xs[..|xs| - 1], ys[..|ys| - 1], s);
      NumbersOnLast(xs, s);
      NumbersOnLast(ys, s);
    }
  }

  lemma {:induction false} AllOn(rows: seq<SovLine>, s: nat)
    requires forall k :: 0 <= k < |rows| ==> rows[k].schedule == s
    ensures LinesOf(rows, s) == rows
  {
    if |rows| > 0 {
      AllOn(rows[..|rows| - 1], s);
    }
  }

  // ---------------------------------------------------------------------------------------------
  // Adding a line
  // ---------------------------------------------------------------------------------------------

  /**
   * The code looks for the number as it was typed and stores it stripped: the numbers of the schedule stay distinct
   * exactly when the stripped one is free.
   */
  lemma {:induction false} AddKeepsDistinctExactlyWhen(
    plan: Plan, s: nat, item: string, value: int, described: bool, next: Plan)
    requires AddLine(plan, s, item, value, described) == Ok(next) && Unrepeated(NumbersOn(plan.lines, s))
    ensures Unrepeated(NumbersOn(next.lines, s)) <==> !ItemUsed(plan.lines, s, Strip(item))
  {
    var before, stored := NumbersOn(plan.lines, s), Strip(item);
    NumbersOnAppend(plan.lines, SovLine(plan.nextId, s, stored, value, 0, value, false, None), s);
    UsedIsAmongNumbers(plan.lines, s, stored);
    OneMoreNumberIsNew(before, stored);
  }

  lemma {:induction false} OneMoreNumberIsNew(numbers: multiset<string>, item: string)
    requires Unrepeated(numbers)
    ensures Unrepeated(numbers + multiset{item}) <==> item !in numbers
  {
    if item in numbers {
      assert (numbers + multiset{item})[item] == 2;
    }
  }

  /** So on a draft with one line, numbered "1", " 1" can be added, and is stored as a second "1". */
  lemma {:induction false} SpacedNumberRepeats()
    ensures Sound(ONE_LINE_DRAFT) && Unrepeated(NumbersOn(ONE_LINE_DRAFT.lines, 0))
    ensures var next := AddLine(ONE_LINE_DRAFT, 0, " 1", 50, true);
      next.Ok? && NumbersOn(next.value.lines, 0) == multiset{"1", "1"}
  {
    var next := AddLine(ONE_LINE_DRAFT, 0, " 1", 50, true).value;
    assert !ItemUsed(ONE_LINE_DRAFT.lines, 0, " 1");
    assert Strip(" 1") == "1";
    NumbersOnLast(ONE_LINE_DRAFT.lines, 0);
    assert [ONE_LINE][..0] == [] && NumbersOn([], 0) == multiset{};
    NumbersOnAppend(ONE_LINE_DRAFT.lines, SovLine(1, 0, "1", 50, 0, 50, false, None), 0);
  }

  // ---------------------------------------------------------------------------------------------
  // Updating a line
  // ---------------------------------------------------------------------------------------------

  lemma {:induction false} RewriteAbsent(lines: seq<SovLine>, id: nat, item: string, value: int)
    requires forall k :: 0 <= k < |lines| ==> lines[k].id != id
    ensures Rewrite(lines, id, item, value) == lines
  {
    var next := Rewrite(lines, id, item, value);
    forall k | 0 <= k < |lines|
      ensures next[k] == lines[k]
    {
      RewriteRow(lines, id, item, value, k);
    }
  }

  lemma {:induction false} RewriteEarlier(lines: seq<SovLine>, item: string, value: int, k: nat)
    requires DistinctIds(lines) && k < |lines| - 1
    ensures Rewrite(lines, lines[k].id, item, value)
      == Rewrite(lines[..|lines| - 1], lines[k].id, item, value) + [lines[|lines| - 1]]
  {
    assert lines[k].id != lines[|lines| - 1].id;
  }

  lemma {:induction false} AddBoth(
    xs: seq<SovLine>, ys: seq<SovLine>, line: SovLine, s: nat, gone: multiset<string>, come: multiset<string>)
    requires NumbersOn(xs, s) + gone == NumbersOn(ys, s) + come
    ensures NumbersOn(xs + [line], s) + gone == NumbersOn(ys + [line], s) + come
  {
    var more := if line.schedule == s then multiset{line.item} else multiset{};
    NumbersOnAppend(xs, line, s);
    NumbersOnAppend(ys, line, s);
    Regroup(NumbersOn(xs, s), gone, more);
    Regroup(NumbersOn(ys, s), come, more);
  }

  lemma {:induction false} RewriteNumbers(lines: seq<SovLine>, item: string, value: int, s: nat, k: nat)
    requires DistinctIds(lines) && k < |lines| && lines[k].schedule == s
    ensures NumbersOn(Rewrite(lines, lines[k].id, item, value), s) + multiset{lines[k].item}
      == NumbersOn(lines, s) + multiset{Strip(item)}
  {
    var rest, last := lines[..|lines| - 1], lines[|lines| - 1];
    assert lines == rest + [last];
    if k == |rest| {
      RewriteLast(rest, last, item, value);
    } else {
      RewriteNumbers(rest, item, value, s, k);
      RewriteEarlier(lines, item, value, k);
      AddBoth(
        Rewrite(rest, lines[k].id, item, value), rest, last, s, multiset{lines[k].item}, multiset{Strip(item)});
    }
  }

  lemma {:induction false} RewriteLast(rest: seq<SovLine>, last: SovLine, item: string, value: int)
    requires DistinctIds(rest + [last])
    ensures NumbersOn(Rewrite(rest + [last], last.id, item, value), last.schedule) + multiset{last.item}
      == NumbersOn(rest + [last], last.schedule) + multiset{Strip(item)}
  {
    var s, next := last.schedule, last.(item := Strip(item), base := value, current := value + last.adjustment);
    RewriteAtEnd(rest, last, item, value);
    NumbersOnAppend(rest, next, s);
    NumbersOnAppend(rest, last, s);
    Regroup(NumbersOn(rest, s), multiset{last.item}, multiset{Strip(item)});
  }

  lemma {:induction false} RewriteAtEnd(rest: seq<SovLine>, last: SovLine, item: string, value: int)
    requires DistinctIds(rest + [last])
    ensures Rewrite(rest + [last], last.id, item, value)
      == rest + [last.(item := Strip(item), base := value, current := value + last.adjustment)]
  {
    var lines := rest + [last];
    assert lines[..|rest|] == rest;
    forall k | 0 <= k < |rest| ensures rest[k].id != last.id {
      assert lines[k].id != lines[|rest|].id;
    }
    RewriteAbsent(rest, last.id, item, value);
  }

  lemma {:induction false} RewriteElsewhere(lines: seq<SovLine>, id: nat, item: string, value: int, t: nat)
    requires DistinctIds(lines) && ScheduleOf(lines, id) != Some(t)
    ensures NumbersOn(Rewrite(lines, id, item, value), t) == NumbersOn(lines, t)
  {
    RowsWithId(lines, id, t);
    RewriteLeavesOthers(lines, id, item, value, t);
  }

  /** The code does not look for the number at all: the numbers stay distinct exactly when it is kept or was free. */
  lemma {:induction false} UpdateKeepsDistinctExactlyWhen(plan: Plan, id: nat, item: string, value: int, next: Plan)
    requires RowsOk(plan) && UpdateLine(plan, id, item, value) == Ok(next)
    requires Unrepeated(NumbersOn(plan.lines, Find(plan.lines, id).value.schedule))
    ensures var line := Find(plan.lines, id).value;
      Unrepeated(NumbersOn(next.lines, line.schedule)) <==>
        Strip(item) == line.item || !ItemUsed(plan.lines, line.schedule, Strip(item))
  {
    var line := Find(plan.lines, id).value;
    FindMeans(plan.lines, id);
    var k :| 0 <= k < |plan.lines| && plan.lines[k] == line;
    RewriteNumbers(plan.lines, item, value, line.schedule, k);
    UsedIsAmongNumbers(plan.lines, line.schedule, Strip(item));
    UsedIsAmongNumbers(plan.lines, line.schedule, line.item);
    NumberExchanged(
      NumbersOn(plan.lines, line.schedule), NumbersOn(next.lines, line.schedule), line.item, Strip(item));
  }

  lemma {:induction false} NumberExchanged(
    before: multiset<string>, after: multiset<string>, gone: string, come: string)
    requires Unrepeated(before) && gone in before && after + multiset{gone} == before + multiset{come}
    ensures Unrepeated(after) <==> come == gone || come !in before
  {
    forall item
      ensures after[item] + (if item == gone then 1 else 0) == before[item] + if item == come then 1 else 0
    {
      assert (after + multiset{gone})[item] == (before + multiset{come})[item];
    }
    assert before[gone] == 1;
    if come != gone && come in before {
      assert after[come] == 2;
    }
  }

  // ---------------------------------------------------------------------------------------------
  // Approving a change order
  // ---------------------------------------------------------------------------------------------

  // Numbers that are asked for once each, and are free.
  ghost predicate FreeNumbers(lines: seq<SovLine>, s: nat, wanted: multiset<string>) {
    forall item :: item in wanted ==> wanted[item] == 1 && !ItemUsed(lines, s, item)
  }

  lemma {:induction false} LandingNumbers(plan: Plan, o: nat, s: nat, next: Plan, t: nat)
    requires Sound(plan) && ApproveOrder(plan, o, s) == Ok(next)
    ensures NumbersOn(next.lines, t)
      == NumbersOn(plan.lines, t) + if t == s then Wanted(plan.orders[o].lines) else multiset{}
  {
    var orderLines := plan.orders[o].lines;
    var hit, created := HitRows(plan.lines, orderLines), Creations(orderLines, o, s, plan.nextId);
    LandingMeans(plan, o, s, orderLines);
    NumbersOnConcat(hit, created, t);
    SameNumbers(hit, plan.lines, t);
    CreationsAre(orderLines, o, s, plan.nextId);
    if t == s {
      AllOn(created, s);
      CreationsBearNumbers(orderLines, o, s, plan.nextId);
    } else {
      NoneOnSchedule(created, t);
    }
  }

  lemma {:induction false} MoreNumbersAreNew(numbers: multiset<string>, more: multiset<string>)
    requires Unrepeated(numbers)
    ensures Unrepeated(numbers + more) <==> forall item :: item in more ==> more[item] == 1 && item !in numbers
  {
    if Unrepeated(numbers + more) {
      forall item | item in more
        ensures more[item] == 1 && item !in numbers
      {
        assert item in numbers + more;
      }
    }
  }

  /** The code looks for none of an order's numbers: they stay distinct exactly when each is new and wanted once. */
  lemma {:induction false} ApprovalKeepsDistinctExactlyWhen(plan: Plan, o: nat, s: nat, next: Plan)
    requires Sound(plan) && ApproveOrder(plan, o, s) == Ok(next) && Unrepeated(NumbersOn(plan.lines, s))
    ensures Unrepeated(NumbersOn(next.lines, s)) <==> FreeNumbers(plan.lines, s, Wanted(plan.orders[o].lines))
  {
    var wanted := Wanted(plan.orders[o].lines);
    LandingNumbers(plan, o, s, next, s);
    MoreNumbersAreNew(NumbersOn(plan.lines, s), wanted);
    forall item | item in wanted
      ensures ItemUsed(plan.lines, s, item) <==> item in NumbersOn(plan.lines, s)
    {
      UsedIsAmongNumbers(plan.lines, s, item);
    }
  }

  // ---------------------------------------------------------------------------------------------
  // Runs
  // ---------------------------------------------------------------------------------------------

  /** What the three lemmas above ask for. */
  ghost predicate MindsNumbers(plan: Plan, step: Step) {
    match step
    case Add(s, item, _, _) => !ItemUsed(plan.lines, s, Strip(item))
    case Update(id, item, _) =>
      Find(plan.lines, id).Some? ==>
        var line := Find(plan.lines, id).value;
        (Strip(item) == line.item || !ItemUsed(plan.lines, line.schedule, Strip(item)))
    case ApproveCo(o, s) => o < |plan.orders| ==> FreeNumbers(plan.lines, s, Wanted(plan.orders[o].lines))
    case _ => true
  }

  ghost predicate NumbersMinded(plan: Plan, steps: seq<Step>) {
    |steps| > 0 ==>
      NumbersMinded(plan, steps[..|steps| - 1]) && MindsNumbers(Run(plan, steps[..|steps| - 1]), steps[|steps| - 1])
  }

  lemma {:induction false} FewerNumbers(fewer: multiset<string>, numbers: multiset<string>)
    requires fewer <= numbers && Unrepeated(numbers)
    ensures Unrepeated(fewer)
  {
    forall item | item in fewer ensures fewer[item] == 1 {
      assert numbers[item] == 1;
    }
  }

  lemma {:induction false} RemoveNumbers(lines: seq<SovLine>, id: nat, s: nat)
    ensures NumbersOn(Remove(lines, id), s) <= NumbersOn(lines, s)
  {
    if |lines| > 0 {
      var n := |lines| - 1;
      RemoveNumbers(lines[..n], id, s);
      NumbersOnLast(lines, s);
      if lines[n].id != id {
        NumbersOnAppend(Remove(lines[..n], id), lines[n], s);
      }
    }
  }

  lemma {:induction false} AdjustNumbers(lines: seq<SovLine>, id: nat, amount: int, s: nat)
    ensures NumbersOn(Adjust(lines, id, amount), s) == NumbersOn(lines, s)
  {
    var next := Adjust(lines, id, amount);
    forall k | 0 <= k < |lines|
      ensures next[k].schedule == lines[k].schedule && next[k].item == lines[k].item
    {
      AdjustRow(lines, id, amount, k);
    }
    SameNumbers(next, lines, s);
  }

  lemma {:induction false} BackOutNumbers(lines: seq<SovLine>, o: nat, s: nat, orderLines: seq<OrderLine>, t: nat)
    ensures NumbersOn(BackOut(lines, o, s, orderLines), t) <= NumbersOn(lines, t)
  {
    if |orderLines| > 0 {
      var n := |orderLines| - 1;
      var before, line := BackOut(lines, o, s, orderLines[..n]), orderLines[n];
      BackOutNumbers(lines, o, s, orderLines[..n], t);
      if line.target.Some? {
        AdjustNumbers(before, line.target.value, -line.amount, t);
      } else if FindCreated(before, s, o, line.newItem).Some? {
        RemoveNumbers(before, FindCreated(before, s, o, line.newItem).value.id, t);
      }
    }
  }

  lemma {:induction false} CopiesNumbers(source: seq<SovLine>, s: nat, firstId: nat)
    ensures Numbers(Copies(source, s, firstId)) == Numbers(source)
  {
    assert ItemsOf(Copies(source, s, firstId)) == ItemsOf(source);
  }

  /** A revision starts with the numbers of the schedule it supersedes. */
  lemma {:induction false} RevisionNumbers(plan: Plan, s: nat, next: Plan, t: nat)
    requires RowsOk(plan) && CreateRevision(plan, s) == Ok(next)
    ensures NumbersOn(next.lines, t) == NumbersOn(plan.lines, if t == s + 1 then s else t)
  {
    var source := LinesOf(plan.lines, s);
    var copies := Copies(source, s + 1, plan.nextId);
    NumbersOnConcat(plan.lines, copies, t);
    if t == s + 1 {
      NoneOnSchedule(plan.lines, t);
      AllOn(copies, t);
      CopiesNumbers(source, s + 1, plan.nextId);
    } else {
      NoneOnSchedule(copies, t);
    }
  }

  lemma {:induction false} UpdateKeepsNumbers(plan: Plan, id: nat, item: string, value: int, next: Plan, s: nat)
    requires RowsOk(plan) && Unrepeated(NumbersOn(plan.lines, s))
    requires MindsNumbers(plan, Update(id, item, value)) && UpdateLine(plan, id, item, value) == Ok(next)
    ensures Unrepeated(NumbersOn(next.lines, s))
  {
    if ScheduleOf(plan.lines, id) == Some(s) {
      UpdateKeepsDistinctExactlyWhen(plan, id, item, value, next);
    } else {
      RewriteElsewhere(plan.lines, id, item, value, s);
    }
  }

  lemma {:induction false} LineEditKeepsNumbers(plan: Plan, step: Step, s: nat)
    requires Sound(plan) && AllDistinct(plan.lines) && MindsNumbers(plan, step) && Try(plan, step).Ok?
    requires step.Add? || step.Update? || step.Delete?
    ensures Unrepeated(NumbersOn(After(plan, step).lines, s))
  {
    var next := After(plan, step);
    assert Unrepeated(NumbersOn(plan.lines, s));
    match step
    case Add(t, item, value, described) =>
      if s == t {
        AddKeepsDistinctExactlyWhen(plan, s, item, value, described, next);
      } else {
        NumbersOnAppend(plan.lines, SovLine(plan.nextId, t, Strip(item), value, 0, value, false, None), s);
      }
    case Update(id, item, value) => UpdateKeepsNumbers(plan, id, item, value, next, s);
    case Delete(id) =>
      RemoveNumbers(plan.lines, id, s);
      FewerNumbers(NumbersOn(next.lines, s), NumbersOn(plan.lines, s));
  }

  lemma {:induction false} StepKeepsNumbers(plan: Plan, step: Step, s: nat)
    requires Sound(plan) && AllDistinct(plan.lines) && MindsNumbers(plan, step)
    ensures Unrepeated(NumbersOn(After(plan, step).lines, s))
  {
    var next := After(plan, step);
    assert Unrepeated(NumbersOn(plan.lines, s));
    if Try(plan, step).Ok? {
      match step
      case Add(_, _, _, _) => LineEditKeepsNumbers(plan, step, s);
      case Update(_, _, _) => LineEditKeepsNumbers(plan, step, s);
      case Delete(_) => LineEditKeepsNumbers(plan, step, s);
      case Revise(t) =>
        RevisionNumbers(plan, t, next, s);
        assert Unrepeated(NumbersOn(plan.lines, t));
      case ApproveCo(o, t) =>
        LandingNumbers(plan, o, t, next, s);
        if s == t {
          ApprovalKeepsDistinctExactlyWhen(plan, o, s, next);
        }
      case VoidCo(o, t) =>
        if plan.orders[o].status.OrderApproved? {
          BackOutNumbers(plan.lines, o, t, plan.orders[o].lines, s);
          FewerNumbers(NumbersOn(next.lines, s), NumbersOn(plan.lines, s));
        }
      case _ =>
    }
  }

  /** So in every careful run that minds its numbers, no schedule ever bears one twice. */
  lemma {:induction false} RunsKeepNumbers(originalSum: int, steps: seq<Step>)
    requires CarefulRun(Start(originalSum), steps) && NumbersMinded(Start(originalSum), steps)
    ensures AllDistinct(Run(Start(originalSum), steps).lines)
  {
    if |steps| > 0 {
      var init, last := steps[..|steps| - 1], steps[|steps| - 1];
      var plan := Run(Start(originalSum), init);
      RunsKeepNumbers(originalSum, init);
      RunsStayTied(originalSum, init);
      forall s: nat ensures Unrepeated(NumbersOn(After(plan, last).lines, s)) {
        StepKeepsNumbers(plan, last, s);
      }
    }
  }
}
