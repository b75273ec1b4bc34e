/** The G702/G703 computation over plain values. */
module Requisition {
  import opened Outcomes
  import opened Retainage
  import opened Rounding
  import opened Sums

  // One schedule line and what was entered against it.
  datatype Entry = Entry(
    item: string, scheduled: int, previous: int, thisPeriod: int, stored: int, lineRate: Option<int>)

  // A row of the G703 continuation sheet, columns C to I, with the rate of the schedule line behind it.
  datatype Line = Line(
    item: string, c: int, d: int, e: int, f: int, g: int, h: int, i: int, percent: int, rate: Option<int>)

  // The G702 header, lines 1 to 9.
  datatype Header = Header(
    line1: int, line2: int, line3: int, line4: int, line5a: int, line5b: int, line5: int,
    line6: int, line7: int, line8: int, line9: int)

  datatype Sheet = Sheet(header: Header, lines: seq<Line>, workRate: int)

  datatype Column = C | D | E | F | G | H | I

  function Cell(line: Line, column: Column): int {
    match column
    case C => line.c
    case D => line.d
    case E => line.e
    case F => line.f
    case G => line.g
    case H => line.h
    case I => line.i
  }

  function ColumnTotal(lines: seq<Line>, column: Column): int {
    if |lines| == 0 then 0
    else ColumnTotal(lines[..|lines| - 1], column) + Cell(lines[|lines| - 1], column)
  }

  lemma {:induction false} EqualTotals(xs: seq<Line>, ys: seq<Line>, column: Column)
    requires |xs| == |ys| && forall k :: 0 <= k < |xs| ==> Cell(xs[k], column) == Cell(ys[k], column)
    ensures ColumnTotal(xs, column) == ColumnTotal(ys, column)
  {
    if |xs| > 0 {
      EqualTotals(xs[..|xs| - 1], ys[..|ys| - 1], column);
    }
  }

  function ScheduledTotal(entries: seq<Entry>): int {
    if |entries| == 0 then 0 else ScheduledTotal(entries[..|entries| - 1]) + entries[|entries| - 1].scheduled
  }

  function BasisOf(entry: Entry): Basis {
    Basis(entry.previous + entry.thisPeriod, entry.stored, entry.lineRate)
  }

  function BasesOf(entries: seq<Entry>): (r: seq<Basis>)
    ensures |r| == |entries|
  {
    seq(|entries|, i requires 0 <= i < |entries| => BasisOf(entries[i]))
  }

  function LineFor(entry: Entry, withheld: Withheld): Line {
    var completedStored := entry.previous + entry.thisPeriod + entry.stored;
    Line(entry.item, entry.scheduled, entry.previous, entry.thisPeriod, entry.stored,
         completedStored, entry.scheduled - completedStored, withheld.Total(),
         PercentOf(completedStored, entry.scheduled), entry.lineRate)
  }

  function LinesFor(entries: seq<Entry>, withheld: seq<Withheld>): (r: seq<Line>)
    requires |withheld| == |entries|
    ensures |r| == |entries|
  {
    seq(|entries|, i requires 0 <= i < |entries| => LineFor(entries[i], withheld[i]))
  }

  /** Derives every G703 column and every G702 line from what was entered. */
  function Compute(
    entries: seq<Entry>, originalSum: int, rule: Spec, netChangeOrders: int, previousCertificates: int
  ): (r: Sheet)
    ensures |r.lines| == |entries|
  {
    var withheld := Retain(rule, BasesOf(entries), ScheduledTotal(entries));
    var lines := LinesFor(entries, withheld.lines);
    var line3 := originalSum + netChangeOrders;
    var line4 := ColumnTotal(lines, G);
    var line5 := withheld.Total();
    var line6 := line4 - line5;
    Sheet(
      Header(originalSum, netChangeOrders, line3, line4, withheld.line5a, withheld.line5b, line5,
             line6, previousCertificates, line6 - previousCertificates, line3 - line6),
      lines, withheld.workRate)
  }

  // The row G703 shows for an entry: G and H by addition, the progress column the nearest basis point of G over C.
  ghost predicate RowFor(entry: Entry, withheld: int, line: Line) {
    && line.item == entry.item && line.rate == entry.lineRate
    && line.c == entry.scheduled && line.d == entry.previous && line.e == entry.thisPeriod && line.f == entry.stored
    && line.g == line.d + line.e + line.f && line.h + line.g == line.c && line.i == withheld
    && (line.c > 0 ==> NearestAwayFromZero(line.percent, line.g * BP_SCALE, line.c))
    && (line.c < 0 ==> NearestAwayFromZero(line.percent, -line.g * BP_SCALE, -line.c))
    && (line.c == 0 ==> line.percent == 0)
  }

  lemma {:induction false} LineForIsRow(entry: Entry, withheld: Withheld)
    ensures RowFor(entry, withheld.Total(), LineFor(entry, withheld))
  {
    var g := entry.previous + entry.thisPeriod + entry.stored;
    PercentOfIsNearest(g, entry.scheduled, PercentOf(g, entry.scheduled));
  }

  /** Every row of the sheet follows from its entry alone and from what the retainage rule withholds on it. */
  lemma {:induction false} EveryRow(
    entries: seq<Entry>, originalSum: int, rule: Spec, netChangeOrders: int, previousCertificates: int, k: nat)
    requires k < |entries|
    ensures RowFor(entries[k], Retain(rule, BasesOf(entries), ScheduledTotal(entries)).lines[k].Total(),
                   Compute(entries, originalSum, rule, netChangeOrders, previousCertificates).lines[k])
  {
    LineForIsRow(entries[k], Retain(rule, BasesOf(entries), ScheduledTotal(entries)).lines[k]);
  }

  /** The identities every sheet must satisfy, whoever filled it in. */
  predicate TiesOut(sheet: Sheet) {
    var h := sheet.header;
    && h.line3 == h.line1 + h.line2
    && h.line4 == ColumnTotal(sheet.lines, G)
    && h.line5 == h.line5a + h.line5b
    && h.line5 == ColumnTotal(sheet.lines, I)
    && h.line6 == h.line4 - h.line5
    && h.line8 == h.line6 - h.line7
  }

  // Column I and the two header halves of line 5 are sums over the same withholdings.
  lemma {:induction false} RetainageColumn(entries: seq<Entry>, withheld: seq<Withheld>)
    requires |withheld| == |entries|
    ensures ColumnTotal(LinesFor(entries, withheld), I) == WorkTotal(withheld) + StoredTotal(withheld)
  {
    if |entries| > 0 {
      var n := |entries| - 1;
      RetainageColumn(entries[..n], withheld[..n]);
      assert LinesFor(entries, withheld)[..n] == LinesFor(entries[..n], withheld[..n]);
    }
  }

  /** Whatever was entered, under every withholding mode, the computed sheet ties out. */
  lemma ComputeTiesOut(
    entries: seq<Entry>, originalSum: int, rule: Spec, netChangeOrders: int, previousCertificates: int)
    ensures TiesOut(Compute(entries, originalSum, rule, netChangeOrders, previousCertificates))
  {
    RetainageColumn(entries, Retain(rule, BasesOf(entries), ScheduledTotal(entries)).lines);
  }

  // G and H of every row by addition.
  ghost predicate RowsAddUp(lines: seq<Line>) {
    forall k :: 0 <= k < |lines| ==>
      lines[k].g == lines[k].d + lines[k].e + lines[k].f && lines[k].h == lines[k].c - lines[k].g
  }

  // Lines 1 to 9, given the inputs that do not stand on the grid. How line 5 divides is left to the rates.
  ghost predicate HeaderAddsUp(
    h: Header, lines: seq<Line>, originalSum: int, netChangeOrders: int, previousCertificates: int)
  {
    && h.line1 == originalSum && h.line2 == netChangeOrders && h.line3 == h.line1 + h.line2
    && h.line4 == ColumnTotal(lines, G)
    && h.line5 == h.line5a + h.line5b && h.line5 == ColumnTotal(lines, I)
    && h.line6 == h.line4 - h.line5 && h.line7 == previousCertificates && h.line8 == h.line6 - h.line7
    && h.line9 == h.line3 - h.line6
  }

  /** Every computed sheet adds up, row by row and line by line, from the inputs it was given. */
  lemma {:induction false} ComputeAddsUp(
    entries: seq<Entry>, originalSum: int, rule: Spec, netChangeOrders: int, previousCertificates: int)
    ensures var sheet := Compute(entries, originalSum, rule, netChangeOrders, previousCertificates);
      && RowsAddUp(sheet.lines)
      && HeaderAddsUp(sheet.header, sheet.lines, originalSum, netChangeOrders, previousCertificates)
  {
    ComputeTiesOut(entries, originalSum, rule, netChangeOrders, previousCertificates);
    var sheet := Compute(entries, originalSum, rule, netChangeOrders, previousCertificates);
    forall k | 0 <= k < |sheet.lines|
      ensures sheet.lines[k].g == sheet.lines[k].d + sheet.lines[k].e + sheet.lines[k].f
      ensures sheet.lines[k].h == sheet.lines[k].c - sheet.lines[k].g
    {
      EveryRow(entries, originalSum, rule, netChangeOrders, previousCertificates, k);
    }
  }

  /** Line 4 is exactly what the retainage of line 5 was measured against. */
  lemma {:induction false} BilledIsLine4(entries: seq<Entry>, withheld: seq<Withheld>)
    requires |withheld| == |entries|
    ensures ColumnTotal(LinesFor(entries, withheld), G) == Billed(BasesOf(entries))
  {
    if |entries| > 0 {
      var n := |entries| - 1;
      BilledIsLine4(entries[..n], withheld[..n]);
      assert LinesFor(entries, withheld)[..n] == LinesFor(entries[..n], withheld[..n]);
      assert BasesOf(entries)[..n] == BasesOf(entries[..n]);
    }
  }

  /** The tie-out report's cap finding, measured as line 5 over line 4, agrees with the retainage engine's. */
  lemma CapFindingAgrees(
    entries: seq<Entry>, originalSum: int, rule: Spec, netChangeOrders: int, previousCertificates: int)
    ensures var h := Compute(entries, originalSum, rule, netChangeOrders, previousCertificates).header;
      var bases := BasesOf(entries);
      ExceedsStatutoryCap(rule, h.line5, h.line4)
        == ExceedsStatutoryCap(rule, Retain(rule, bases, ScheduledTotal(entries)).Total(), Billed(bases))
  {
    BilledIsLine4(entries, Retain(rule, BasesOf(entries), ScheduledTotal(entries)).lines);
  }

  // ---------------------------------------------------------------------------------------------
  // What a sheet withholds
  // ---------------------------------------------------------------------------------------------

  // What a row contributes, read off the row itself.
  function RowBasis(line: Line): Basis {
    Basis(line.d + line.e, line.f, line.rate)
  }

  /**
   * What a sheet withholds, read off its own grid: D + E of each row at the rate for work, F at the rate for stored
   * material, I their sum, lines 5a and 5b the sums over the rows; completion is the total of G against the total of C.
   */
  ghost predicate SheetRetains(rule: Spec, lines: seq<Line>, h: Header, withheld: seq<Withheld>) {
    var reduced := IsReduced(rule, ColumnTotal(lines, G), ColumnTotal(lines, C));
    && |withheld| == |lines|
    && (forall k :: 0 <= k < |lines| ==>
          && WithheldAsRuled(rule, reduced, RowBasis(lines[k]), withheld[k])
          && lines[k].i == withheld[k].work + withheld[k].stored)
    && h.line5a == Sum(WorkHalves(withheld)) && h.line5b == Sum(StoredHalves(withheld))
  }

  lemma {:induction false} ScheduledIsColumnC(entries: seq<Entry>, withheld: seq<Withheld>)
    requires |withheld| == |entries|
    ensures ColumnTotal(LinesFor(entries, withheld), C) == ScheduledTotal(entries)
  {
    if |entries| > 0 {
      var n := |entries| - 1;
      ScheduledIsColumnC(entries[..n], withheld[..n]);
      assert LinesFor(entries, withheld)[..n] == LinesFor(entries[..n], withheld[..n]);
    }
  }

  lemma {:induction false} GridRetains(rule: Spec, entries: seq<Entry>, h: Header, r: Retained)
    requires RetainsAsRuled(rule, BasesOf(entries), ScheduledTotal(entries), r)
    requires h.line5a == r.line5a && h.line5b == r.line5b
    ensures SheetRetains(rule, LinesFor(entries, r.lines), h, r.lines)
    ensures var lines := LinesFor(entries, r.lines);
      r.workRate == if IsReduced(rule, ColumnTotal(lines, G), ColumnTotal(lines, C)) then ReducedRate(rule)
                    else rule.rateWork
  {
    var lines := LinesFor(entries, r.lines);
    BilledIsSum(BasesOf(entries));
    BilledIsLine4(entries, r.lines);
    ScheduledIsColumnC(entries, r.lines);
    forall k | 0 <= k < |lines|
      ensures RowBasis(lines[k]) == BasesOf(entries)[k] && lines[k].i == r.lines[k].work + r.lines[k].stored
    {
    }
  }

  /** Every computed sheet withholds what its rule says. */
  lemma {:induction false} ComputeRetains(
    entries: seq<Entry>, originalSum: int, rule: Spec, netChangeOrders: int, previousCertificates: int
  ) returns (withheld: seq<Withheld>)
    ensures var sheet := Compute(entries, originalSum, rule, netChangeOrders, previousCertificates);
      && SheetRetains(rule, sheet.lines, sheet.header, withheld)
      && sheet.workRate == if IsReduced(rule, ColumnTotal(sheet.lines, G), ColumnTotal(sheet.lines, C))
                           then ReducedRate(rule) else rule.rateWork
  {
    var retained := Retain(rule, BasesOf(entries), ScheduledTotal(entries));
    withheld := retained.lines;
    RetainIsAsRuled(rule, BasesOf(entries), ScheduledTotal(entries));
    GridRetains(
      rule, entries, Compute(entries, originalSum, rule, netChangeOrders, previousCertificates).header, retained);
  }
}
