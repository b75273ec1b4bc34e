/** How tightly the blocking rules pin down an application. */
module TieoutStrength {
  import opened Applications
  import opened Requisition
  import opened Tieout

  // Any one number on the form: a header line, an entry of the change-order box, or a cell of the grid.
  datatype Figure =
    | Line1 | Line2 | Line3 | Line4 | Line5a | Line5b | Line5 | Line6 | Line7 | Line8 | Line9
    | PrevAdditions | PrevDeductions | ThisAdditions | ThisDeductions
    | CellAt(k: nat, column: Column)

  predicate OnForm(app: Application, figure: Figure) {
    figure.CellAt? ==> figure.k < |app.lines|
  }

  function Read(app: Application, figure: Figure): int
    requires OnForm(app, figure)
  {
    match figure
    case Line1 => app.header.line1
    case Line2 => app.header.line2
    case Line3 => app.header.line3
    case Line4 => app.header.line4
    case Line5a => app.header.line5a
    case Line5b => app.header.line5b
    case Line5 => app.header.line5
    case Line6 => app.header.line6
    case Line7 => app.header.line7
    case Line8 => app.header.line8
    case Line9 => app.header.line9
    case PrevAdditions => app.box.prevAdditions
    case PrevDeductions => app.box.prevDeductions
    case ThisAdditions => app.box.thisAdditions
    case ThisDeductions => app.box.thisDeductions
    case CellAt(k, column) => Cell(app.lines[k], column)
  }

  function WriteCell(line: Line, column: Column, v: int): Line {
    match column
    case C => line.(c := v)
    case D => line.(d := v)
    case E => line.(e := v)
    case F => line.(f := v)
    case G => line.(g := v)
    case H => line.(h := v)
    case I => line.(i := v)
  }

  // The application with that one number overwritten and nothing else touched.
  function Write(app: Application, figure: Figure, v: int): Application
    requires OnForm(app, figure)
  {
    match figure
    case Line1 => app.(header := app.header.(line1 := v))
    case Line2 => app.(header := app.header.(line2 := v))
    case Line3 => app.(header := app.header.(line3 := v))
    case Line4 => app.(header := app.header.(line4 := v))
    case Line5a => app.(header := app.header.(line5a := v))
    case Line5b => app.(header := app.header.(line5b := v))
    case Line5 => app.(header := app.header.(line5 := v))
    case Line6 => app.(header := app.header.(line6 := v))
    case Line7 => app.(header := app.header.(line7 := v))
    case Line8 => app.(header := app.header.(line8 := v))
    case Line9 => app.(header := app.header.(line9 := v))
    case PrevAdditions => app.(box := app.box.(prevAdditions := v))
    case PrevDeductions => app.(box := app.box.(prevDeductions := v))
    case ThisAdditions => app.(box := app.box.(thisAdditions := v))
    case ThisDeductions => app.(box := app.box.(thisDeductions := v))
    case CellAt(k, column) => app.(lines := app.lines[k := WriteCell(app.lines[k], column, v)])
  }

  // A rule that catches a wrong value of the figure.
  function Guardian(figure: Figure): RuleId {
    match figure
    case Line1 => G702_003
    case Line2 => G702_003
    case Line3 => SOV_001
    case Line4 => G702_004
    case Line5a => G702_005
    case Line5b => G702_005
    case Line5 => G702_005
    case Line6 => G702_006
    case Line7 => G702_008
    case Line8 => G702_008
    case Line9 => G702_009
    case PrevAdditions => CO_SUM
    case PrevDeductions => CO_SUM
    case ThisAdditions => CO_SUM
    case ThisDeductions => CO_SUM
    case CellAt(_, C) => SOV_001
    case CellAt(_, I) => PENNY
    case CellAt(_, H) => G703_H
    case CellAt(_, _) => G703_G
  }

  lemma {:induction false} TotalAfterUpdate(lines: seq<Line>, k: nat, line: Line, column: Column)
    requires k < |lines|
    ensures ColumnTotal(lines[k := line], column)
      == ColumnTotal(lines, column) - Cell(lines[k], column) + Cell(line, column)
  {
    var n := |lines| - 1;
    if k == n {
      assert lines[k := line][..n] == lines[..n];
    } else {
      TotalAfterUpdate(lines[..n], k, line, column);
      assert lines[k := line][..n] == lines[..n][k := line];
    }
  }

  /** From a clean application, a different value in any single figure makes that figure's rule fire. */
  lemma {:induction false} EditIsCaught(app: Application, world: World, figure: Figure, v: int)
    requires Clean(app, world) && OnForm(app, figure) && v != Read(app, figure)
    ensures Fires(Structural(Write(app, figure, v), world) + LineLevel(Write(app, figure, v), world), Guardian(figure))
    ensures !Clean(Write(app, figure, v), world)
  {
    var edited, rule := Write(app, figure, v), Guardian(figure);
    CleanMeans(app, world);
    assert Holds(rule, app, world);
    FiresInConcat(Structural(edited, world), LineLevel(edited, world), rule);
    if rule == G703_G || rule == G703_H {
      assert LineHolds(rule, app, world, figure.k);
      LineEditBreaks(app, world, figure, v);
      LineRule(edited, world, rule);
    } else {
      FormEditBreaks(app, world, figure, v);
      StructuralRule(edited, world, rule);
    }
  }

  lemma {:induction false} LineEditBreaks(app: Application, world: World, figure: Figure, v: int)
    requires OnForm(app, figure) && v != Read(app, figure)
    requires Guardian(figure) == G703_G || Guardian(figure) == G703_H
    requires LineHolds(Guardian(figure), app, world, figure.k)
    ensures !LineHolds(Guardian(figure), Write(app, figure, v), world, figure.k)
  {
  }

  lemma {:induction false} FormEditBreaks(app: Application, world: World, figure: Figure, v: int)
    requires OnForm(app, figure) && v != Read(app, figure) && Holds(Guardian(figure), app, world)
    requires Guardian(figure) != G703_G && Guardian(figure) != G703_H
    ensures !Holds(Guardian(figure), Write(app, figure, v), world)
  {
    if figure.CellAt? {
      TotalAfterUpdate(app.lines, figure.k, WriteCell(app.lines[figure.k], figure.column, v), figure.column);
    }
  }

  // The same grid apart from what the rules derive.
  ghost predicate SameEntries(a: Application, b: Application) {
    && |a.lines| == |b.lines|
    && (forall k :: 0 <= k < |a.lines| ==>
          && a.lines[k].item == b.lines[k].item && a.lines[k].c == b.lines[k].c && a.lines[k].e == b.lines[k].e
          && a.lines[k].f == b.lines[k].f && a.lines[k].i == b.lines[k].i)
  }

  ghost predicate SameCells(a: Application, b: Application) {
    && SameEntries(a, b)
    && (forall k :: 0 <= k < |a.lines| ==>
          a.lines[k].d == b.lines[k].d && a.lines[k].g == b.lines[k].g && a.lines[k].h == b.lines[k].h)
  }

  // Once column D agrees, the rest of the grid and every total over it does.
  lemma GridIsDetermined(a: Application, b: Application, world: World)
    requires Clean(a, world) && Clean(b, world) && SameEntries(a, b)
    requires forall k :: 0 <= k < |a.lines| ==> a.lines[k].d == b.lines[k].d
    ensures SameCells(a, b)
    ensures forall column :: ColumnTotal(a.lines, column) == ColumnTotal(b.lines, column)
  {
    CleanMeans(a, world);
    CleanMeans(b, world);
    forall k: nat | k < |a.lines|
      ensures a.lines[k].g == b.lines[k].g && a.lines[k].h == b.lines[k].h
    {
      assert LineHolds(G703_G, a, world, k) && LineHolds(G703_G, b, world, k);
      assert LineHolds(G703_H, a, world, k) && LineHolds(G703_H, b, world, k);
    }
    forall column {
      EqualTotals(a.lines, b.lines, column);
    }
  }

  /**
   * While an application is open, columns C, E, F and I and line 5a decide everything else the
   * rules accept: the whole grid, the whole header, and the net of the change-order box.
   */
  lemma OpenApplicationIsDetermined(a: Application, b: Application, world: World)
    requires a.IsEditable() && b.IsEditable() && Clean(a, world) && Clean(b, world)
    requires SameEntries(a, b) && a.header.line5a == b.header.line5a
    ensures SameCells(a, b) && a.header == b.header && a.box.Net() == b.box.Net()
  {
    CleanMeans(a, world);
    CleanMeans(b, world);
    forall k: nat | k < |a.lines|
      ensures a.lines[k].d == b.lines[k].d
    {
      assert LineHolds(G703_D, a, world, k) && LineHolds(G703_D, b, world, k);
    }
    GridIsDetermined(a, b, world);
    HeaderEquations(a, world);
    HeaderEquations(b, world);
    assert Holds(G702_002, a, world) && Holds(G702_002, b, world);
    assert Holds(G702_007, a, world) && Holds(G702_007, b, world);
  }

  /** After issue the live checks rest; columns C to F and I with lines 1, 5a and 7 still decide the rest. */
  lemma IssuedApplicationIsDetermined(a: Application, b: Application, world: World)
    requires Clean(a, world) && Clean(b, world) && SameEntries(a, b)
    requires forall k :: 0 <= k < |a.lines| ==> a.lines[k].d == b.lines[k].d
    requires a.header.line1 == b.header.line1 && a.header.line5a == b.header.line5a && a.header.line7 == b.header.line7
    ensures SameCells(a, b) && a.header == b.header && a.box.Net() == b.box.Net()
  {
    GridIsDetermined(a, b, world);
    HeaderEquations(a, world);
    HeaderEquations(b, world);
  }

  lemma HeaderEquations(app: Application, world: World)
    requires Clean(app, world)
    ensures var h := app.header;
      && h.line3 == ColumnTotal(app.lines, C) == h.line1 + h.line2 && h.line4 == ColumnTotal(app.lines, G)
      && h.line5 == h.line5a + h.line5b == ColumnTotal(app.lines, I) && h.line6 == h.line4 - h.line5
      && h.line8 == h.line6 - h.line7 && h.line9 == h.line3 - h.line6 && app.box.Net() == h.line2
  {
    CleanMeans(app, world);
    assert Holds(SOV_001, app, world) && Holds(G702_003, app, world) && Holds(G702_004, app, world);
    assert Holds(G702_005, app, world) && Holds(PENNY, app, world) && Holds(G702_006, app, world);
    assert Holds(G702_008, app, world) && Holds(G702_009, app, world) && Holds(CO_SUM, app, world);
  }

  /** One wrong figure never passes, but two can: the box is pinned only by its net. */
  lemma TwoEditsCanPass(app: Application, world: World, x: int)
    requires Clean(app, world)
    ensures var once := Write(app, PrevAdditions, app.box.prevAdditions + x);
      Clean(Write(once, PrevDeductions, app.box.prevDeductions + x), world)
  {
    var once := Write(app, PrevAdditions, app.box.prevAdditions + x);
    var edited := Write(once, PrevDeductions, app.box.prevDeductions + x);
    assert edited.box.Net() == app.box.Net();
    assert Equations(edited, world) == Equations(app, world);
  }
}
