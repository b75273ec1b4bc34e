/** The tie-out rules that block a submission: structural, line-level, snapshot and the statutory cap. */
module Tieout {
  import opened Applications
  import opened Outcomes
  import opened Requisition
  import opened Retainage
  import opened Rounding

  datatype RuleId =
    | SOV_001 | G702_002 | G702_003 | G702_004 | G702_005 | G702_006 | G702_007 | G702_008 | G702_009
    | CO_SUM | PENNY | G703_G | G703_H | G703_D | SNAPSHOT_MISSING | SNAPSHOT_DRIFT | RETAIN_CAP

  datatype Severity = Error | Warning

  datatype Finding = Finding(rule: RuleId, severity: Severity, expected: int, actual: int, item: string)

  // What the live tables say when the rules run: approved change orders and the application before this one.
  datatype World = World(netOrders: int, previous: Option<Application>)

  // One check of a header figure; an inactive one is skipped.
  datatype Equation = Equation(rule: RuleId, active: bool, expected: int, actual: int) {
    predicate Fails() { active && expected != actual }
  }

  function Failing(equations: seq<Equation>): seq<Finding> {
    if |equations| == 0 then []
    else
      var last := equations[|equations| - 1];
      Failing(equations[..|equations| - 1])
      + if last.Fails() then [Finding(last.rule, Error, last.expected, last.actual, "")] else []
  }

  // Cross-record checks stop once an application is issued: the world moves on around it.
  predicate ChecksLiveData(app: Application) {
    app.IsEditable()
  }

  function Equations(app: Application, world: World): seq<Equation> {
    var h, live := app.header, ChecksLiveData(app);
    [ Equation(SOV_001, true, h.line3, ColumnTotal(app.lines, C)),
      Equation(G702_002, live, world.netOrders, h.line2),
      Equation(G702_003, true, h.line1 + h.line2, h.line3),
      Equation(G702_004, true, ColumnTotal(app.lines, G), h.line4),
      Equation(G702_005, true, h.line5a + h.line5b, h.line5),
      Equation(G702_006, true, h.line4 - h.line5, h.line6),
      Equation(G702_007, live, PreviousCertificates(world.previous), h.line7),
      Equation(G702_008, true, h.line6 - h.line7, h.line8),
      Equation(G702_009, true, h.line3 - h.line6, h.line9),
      Equation(CO_SUM, true, h.line2, app.box.Net()),
      Equation(PENNY, true, h.line5, ColumnTotal(app.lines, I)) ]
  }

  function Structural(app: Application, world: World): seq<Finding> {
    Failing(Equations(app, world))
  }

  function CheckLine(rule: RuleId, expected: int, actual: int, item: string): seq<Finding> {
    if expected == actual then [] else [Finding(rule, Error, expected, actual, item)]
  }

  function OneLine(line: Line, prior: map<string, int>, live: bool): seq<Finding> {
    CheckLine(G703_G, line.d + line.e + line.f, line.g, line.item)
    + CheckLine(G703_H, line.c - line.g, line.h, line.item)
    + (if live then CheckLine(G703_D, CarriedTo(prior, line.item), line.d, line.item) else [])
  }

  function EachLine(lines: seq<Line>, prior: map<string, int>, live: bool): seq<Finding> {
    if |lines| == 0 then []
    else EachLine(lines[..|lines| - 1], prior, live) + OneLine(lines[|lines| - 1], prior, live)
  }

  function LineLevel(app: Application, world: World): seq<Finding> {
    EachLine(app.lines, if ChecksLiveData(app) then CarriedFrom(world.previous) else map[], ChecksLiveData(app))
  }

  method RunOneLine(line: Line, prior: map<string, int>, live: bool) returns (out: seq<Finding>)
    ensures out == OneLine(line, prior, live)
  {
    out := [];
    var expectedG := line.d + line.e + line.f;
    if expectedG != line.g {
      out := out + [Finding(G703_G, Error, expectedG, line.g, line.item)];
    }
    var expectedH := line.c - line.g;
    if expectedH != line.h {
      out := out + [Finding(G703_H, Error, expectedH, line.h, line.item)];
    }
    var expectedD := if line.item in prior then prior[line.item] else 0;
    if live && expectedD != line.d {
      out := out + [Finding(G703_D, Error, expectedD, line.d, line.item)];
    }
  }

  method RunLineLevel(app: Application, world: World) returns (out: seq<Finding>)
    ensures out == LineLevel(app, world)
  {
    var live := ChecksLiveData(app);
    var prior := if live then CarriedFrom(world.previous) else map[];
    out := [];
    for k := 0 to |app.lines|
      invariant out == EachLine(app.lines[..k], prior, live)
    {
      assert app.lines[..k + 1][..k] == app.lines[..k];
      var findings := RunOneLine(app.lines[k], prior, live);
      out := out + findings;
    }
    assert app.lines[..|app.lines|] == app.lines;
  }

  /** An issued application must still be the document that was submitted. */
  function Snapshot(app: Application): seq<Finding> {
    if app.IsEditable() || app.status.Void? then []
    else match app.snapshot
      case None => [Finding(SNAPSHOT_MISSING, Error, 0, 0, "")]
      case Some(taken) => if app.Frozen() == taken then [] else [Finding(SNAPSHOT_DRIFT, Error, 0, 0, "")]
  }

  /** The effective withholding against the statutory ceiling; a contract decides whether it blocks. */
  function Cap(app: Application, rule: Option<Spec>, blocks: bool): seq<Finding> {
    match rule
    case None => []
    case Some(r) =>
      if ExceedsStatutoryCap(r, app.header.line5, app.header.line4) then
        [Finding(RETAIN_CAP, if blocks then Error else Warning, r.cap.value,
                 PercentOf(app.header.line5, app.header.line4), "")]
      else []
  }

  // ---------------------------------------------------------------------------------------------
  // What an empty report means
  // ---------------------------------------------------------------------------------------------

  ghost predicate Fires(findings: seq<Finding>, rule: RuleId) {
    exists k :: 0 <= k < |findings| && findings[k].rule == rule
  }

  predicate Clean(app: Application, world: World) {
    Structural(app, world) == [] && LineLevel(app, world) == []
  }

  // The application may still change: only a draft or a rejected one.
  predicate IsOpen(app: Application) {
    app.status == Draft || app.status == Rejected
  }

  // The equation each structural rule stands for.
  ghost predicate Holds(rule: RuleId, app: Application, world: World) {
    var h := app.header;
    match rule
    case SOV_001 => ColumnTotal(app.lines, C) == h.line3
    case G702_002 => IsOpen(app) ==> h.line2 == world.netOrders
    case G702_003 => h.line3 == h.line1 + h.line2
    case G702_004 => h.line4 == ColumnTotal(app.lines, G)
    case G702_005 => h.line5 == h.line5a + h.line5b
    case G702_006 => h.line6 == h.line4 - h.line5
    case G702_007 => IsOpen(app) ==> h.line7 == PreviousCertificates(world.previous)
    case G702_008 => h.line8 == h.line6 - h.line7
    case G702_009 => h.line9 == h.line3 - h.line6
    case CO_SUM => app.box.Net() == h.line2
    case PENNY => ColumnTotal(app.lines, I) == h.line5
    case _ => true
  }

  lemma FiresInConcat(xs: seq<Finding>, ys: seq<Finding>, rule: RuleId)
    ensures Fires(xs + ys, rule) <==> Fires(xs, rule) || Fires(ys, rule)
  {
    if Fires(xs, rule) {
      var k :| 0 <= k < |xs| && xs[k].rule == rule;
      assert (xs + ys)[k].rule == rule;
    }
    if Fires(ys, rule) {
      var k :| 0 <= k < |ys| && ys[k].rule == rule;
      assert (xs + ys)[|xs| + k].rule == rule;
    }
  }

  lemma {:induction false} FailingRules(equations: seq<Equation>, rule: RuleId)
    ensures Fires(Failing(equations), rule)
      <==> exists k :: 0 <= k < |equations| && equations[k].Fails() && equations[k].rule == rule
  {
    if |equations| > 0 {
      var n := |equations| - 1;
      var last := equations[n];
      FailingRules(equations[..n], rule);
      FiresInConcat(Failing(equations[..n]),
                    if last.Fails() then [Finding(last.rule, Error, last.expected, last.actual, "")] else [], rule);
      if exists k :: 0 <= k < n && equations[k].Fails() && equations[k].rule == rule {
        var k :| 0 <= k < n && equations[k].Fails() && equations[k].rule == rule;
        assert equations[..n][k].Fails();
      }
      if Fires(Failing(equations[..n]), rule) {
        var k :| 0 <= k < n && equations[..n][k].Fails() && equations[..n][k].rule == rule;
        assert equations[k].Fails();
      }
      if last.Fails() && last.rule == rule {
        assert [Finding(last.rule, Error, last.expected, last.actual, "")][0].rule == rule;
      }
    }
  }

  function PositionOf(rule: RuleId): nat {
    match rule
    case SOV_001 => 0 case G702_002 => 1 case G702_003 => 2 case G702_004 => 3 case G702_005 => 4
    case G702_006 => 5 case G702_007 => 6 case G702_008 => 7 case G702_009 => 8 case CO_SUM => 9
    case PENNY => 10 case _ => 11
  }

  /** Each structural rule fires exactly when its equation fails. */
  lemma StructuralRule(app: Application, world: World, rule: RuleId)
    ensures Fires(Structural(app, world), rule) <==> !Holds(rule, app, world)
  {
    var equations := Equations(app, world);
    FailingRules(equations, rule);
    assert forall k :: 0 <= k < |equations| ==> (equations[k].rule == rule <==> k == PositionOf(rule));
    assert PositionOf(rule) < |equations| ==> (equations[PositionOf(rule)].Fails() <==> !Holds(rule, app, world));
  }

  lemma NothingFires(findings: seq<Finding>)
    ensures findings == [] <==> forall rule :: !Fires(findings, rule)
  {
    if findings != [] {
      assert Fires(findings, findings[0].rule);
    }
  }

  // The equation each line-level rule stands for, at line k.
  ghost predicate LineHolds(rule: RuleId, app: Application, world: World, k: nat)
    requires k < |app.lines|
  {
    var line := app.lines[k];
    match rule
    case G703_G => line.g == line.d + line.e + line.f
    case G703_H => line.h == line.c - line.g
    case G703_D => IsOpen(app) ==> line.d == CarriedTo(CarriedFrom(world.previous), line.item)
    case _ => true
  }

  lemma OneLineRule(line: Line, prior: map<string, int>, live: bool, rule: RuleId)
    ensures Fires(OneLine(line, prior, live), rule) <==>
      || (rule == G703_G && line.d + line.e + line.f != line.g)
      || (rule == G703_H && line.c - line.g != line.h)
      || (rule == G703_D && live && CarriedTo(prior, line.item) != line.d)
  {
    var x := CheckLine(G703_G, line.d + line.e + line.f, line.g, line.item);
    var y := CheckLine(G703_H, line.c - line.g, line.h, line.item);
    var z := if live then CheckLine(G703_D, CarriedTo(prior, line.item), line.d, line.item) else [];
    FiresInConcat(x, y, rule);
    FiresInConcat(x + y, z, rule);
    CheckedLine(G703_G, line.d + line.e + line.f, line.g, line.item, rule);
    CheckedLine(G703_H, line.c - line.g, line.h, line.item, rule);
    CheckedLine(G703_D, CarriedTo(prior, line.item), line.d, line.item, rule);
  }

  lemma CheckedLine(checked: RuleId, expected: int, actual: int, item: string, rule: RuleId)
    ensures Fires(CheckLine(checked, expected, actual, item), rule) <==> rule == checked && expected != actual
  {
    if expected != actual {
      assert CheckLine(checked, expected, actual, item)[0].rule == checked;
    }
  }

  lemma {:induction false} EachLineRule(lines: seq<Line>, prior: map<string, int>, live: bool, rule: RuleId)
    ensures Fires(EachLine(lines, prior, live), rule)
      <==> exists k :: 0 <= k < |lines| && Fires(OneLine(lines[k], prior, live), rule)
  {
    if |lines| > 0 {
      var n := |lines| - 1;
      var before, here := EachLine(lines[..n], prior, live), OneLine(lines[n], prior, live);
      EachLineRule(lines[..n], prior, live, rule);
      FiresInConcat(before, here, rule);
      LastOrEarlier(lines, prior, live, rule);
    }
  }

  lemma LastOrEarlier(lines: seq<Line>, prior: map<string, int>, live: bool, rule: RuleId)
    requires |lines| > 0
    ensures var n := |lines| - 1;
      (exists k :: 0 <= k < |lines| && Fires(OneLine(lines[k], prior, live), rule)) <==>
        (exists k :: 0 <= k < n && Fires(OneLine(lines[..n][k], prior, live), rule))
        || Fires(OneLine(lines[n], prior, live), rule)
  {
    var n := |lines| - 1;
    assert forall k :: 0 <= k < n ==> lines[..n][k] == lines[k];
  }

  /** Each line-level rule fires exactly when its equation fails on some line. */
  lemma LineRule(app: Application, world: World, rule: RuleId)
    ensures Fires(LineLevel(app, world), rule)
      <==> exists k: nat :: k < |app.lines| && !LineHolds(rule, app, world, k)
  {
    var live := ChecksLiveData(app);
    var prior := if live then CarriedFrom(world.previous) else map[];
    EachLineRule(app.lines, prior, live, rule);
    forall k: nat | k < |app.lines|
      ensures Fires(OneLine(app.lines[k], prior, live), rule) <==> !LineHolds(rule, app, world, k)
    {
      OneLineRule(app.lines[k], prior, live, rule);
    }
  }

  /** A report with no blocking finding says that every equation of the form holds, and only then. */
  lemma CleanMeans(app: Application, world: World)
    ensures Clean(app, world) <==>
      && (forall rule :: Holds(rule, app, world))
      && (forall rule, k: nat :: k < |app.lines| ==> LineHolds(rule, app, world, k))
  {
    forall rule
      ensures Fires(Structural(app, world), rule) <==> !Holds(rule, app, world)
      ensures Fires(LineLevel(app, world), rule)
        <==> exists k: nat :: k < |app.lines| && !LineHolds(rule, app, world, k)
    {
      StructuralRule(app, world, rule);
      LineRule(app, world, rule);
    }
    NothingFires(Structural(app, world));
    NothingFires(LineLevel(app, world));
    if LineLevel(app, world) == [] {
      forall rule, k: nat | k < |app.lines|
        ensures LineHolds(rule, app, world, k)
      {
        assert !Fires(LineLevel(app, world), rule);
      }
    }
  }

  // ---------------------------------------------------------------------------------------------
  // What a finding says
  // ---------------------------------------------------------------------------------------------

  /** A structural finding is an error that shows what its figure should be, and what it is. */
  ghost predicate Reports(f: Finding, app: Application, world: World) {
    var h := app.header;
    && f.severity == Error && f.item == "" && f.expected != f.actual
    && match f.rule
       case SOV_001 => f.expected == h.line3 && f.actual == ColumnTotal(app.lines, C)
       case G702_002 => IsOpen(app) && f.expected == world.netOrders && f.actual == h.line2
       case G702_003 => f.expected == h.line1 + h.line2 && f.actual == h.line3
       case G702_004 => f.expected == ColumnTotal(app.lines, G) && f.actual == h.line4
       case G702_005 => f.expected == h.line5a + h.line5b && f.actual == h.line5
       case G702_006 => f.expected == h.line4 - h.line5 && f.actual == h.line6
       case G702_007 => IsOpen(app) && f.expected == PreviousCertificates(world.previous) && f.actual == h.line7
       case G702_008 => f.expected == h.line6 - h.line7 && f.actual == h.line8
       case G702_009 => f.expected == h.line3 - h.line6 && f.actual == h.line9
       case CO_SUM => f.expected == h.line2 && f.actual == app.box.Net()
       case PENNY => f.expected == h.line5 && f.actual == ColumnTotal(app.lines, I)
       case _ => false
  }

  lemma {:induction false} FailingReport(equations: seq<Equation>, k: nat)
    requires k < |Failing(equations)|
    ensures exists j ::
      0 <= j < |equations| && equations[j].Fails()
      && Failing(equations)[k] == Finding(equations[j].rule, Error, equations[j].expected, equations[j].actual, "")
  {
    var n := |equations| - 1;
    if k < |Failing(equations[..n])| {
      FailingReport(equations[..n], k);
      var j :| 0 <= j < n && equations[..n][j].Fails()
        && Failing(equations[..n])[k]
           == Finding(equations[..n][j].rule, Error, equations[..n][j].expected, equations[..n][j].actual, "");
      assert equations[j].Fails();
    } else {
      assert equations[n].Fails();
    }
  }

  /** Every finding of the structural rules says so. */
  lemma {:induction false} StructuralReports(app: Application, world: World, k: nat)
    requires k < |Structural(app, world)|
    ensures Reports(Structural(app, world)[k], app, world)
  {
    var equations := Equations(app, world);
    FailingReport(equations, k);
    var j :| 0 <= j < |equations| && equations[j].Fails()
      && Structural(app, world)[k]
         == Finding(equations[j].rule, Error, equations[j].expected, equations[j].actual, "");
  }

  /** A line-level finding is an error that names the item of its line, and what its cell should be and is. */
  ghost predicate ReportsLine(f: Finding, line: Line, app: Application, world: World) {
    && f.severity == Error && f.item == line.item && f.expected != f.actual
    && match f.rule
       case G703_G => f.expected == line.d + line.e + line.f && f.actual == line.g
       case G703_H => f.expected == line.c - line.g && f.actual == line.h
       case G703_D =>
         IsOpen(app) && f.expected == CarriedTo(CarriedFrom(world.previous), line.item) && f.actual == line.d
       case _ => false
  }

  lemma {:induction false} OneLineReports(
    line: Line, prior: map<string, int>, app: Application, world: World, k: nat)
    requires IsOpen(app) ==> prior == CarriedFrom(world.previous)
    requires k < |OneLine(line, prior, IsOpen(app))|
    ensures ReportsLine(OneLine(line, prior, IsOpen(app))[k], line, app, world)
  {
  }

  lemma {:induction false} EachLineReports(
    lines: seq<Line>, prior: map<string, int>, app: Application, world: World, k: nat)
    requires IsOpen(app) ==> prior == CarriedFrom(world.previous)
    requires k < |EachLine(lines, prior, IsOpen(app))|
    ensures exists j :: 0 <= j < |lines| && ReportsLine(EachLine(lines, prior, IsOpen(app))[k], lines[j], app, world)
  {
    var n := |lines| - 1;
    var before := EachLine(lines[..n], prior, IsOpen(app));
    if k < |before| {
      EachLineReports(lines[..n], prior, app, world, k);
      var j :| 0 <= j < n && ReportsLine(before[k], lines[..n][j], app, world);
      assert lines[..n][j] == lines[j] && EachLine(lines, prior, IsOpen(app))[k] == before[k];
    } else {
      OneLineReports(lines[n], prior, app, world, k - |before|);
      assert EachLine(lines, prior, IsOpen(app))[k] == OneLine(lines[n], prior, IsOpen(app))[k - |before|];
    }
  }

  /** Every finding of the line-level rules says so of some line. */
  lemma {:induction false} LineLevelReports(app: Application, world: World, k: nat)
    requires k < |LineLevel(app, world)|
    ensures exists j :: 0 <= j < |app.lines| && ReportsLine(LineLevel(app, world)[k], app.lines[j], app, world)
  {
    EachLineReports(
      app.lines, if ChecksLiveData(app) then CarriedFrom(world.previous) else map[], app, world, k);
  }
}
