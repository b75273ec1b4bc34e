/** Applications for payment: the stored rows, their life cycle and what they carry forward. */
module Applications {
  import opened Outcomes
  import opened Requisition

  datatype Status = Draft | InReview | Submitted | Certified | Rejected | Paid | Void {
    // The numbers may still change.
    predicate IsEditable() { Draft? || Rejected? }

    // Counts towards the next period's carry-forward.
    predicate IsIssued() { Submitted? || Certified? || Paid? }
  }

  // The change-order summary box of the G702.
  datatype Box = Box(prevAdditions: int, prevDeductions: int, thisAdditions: int, thisDeductions: int) {
    function Net(): int { prevAdditions - prevDeductions + thisAdditions - thisDeductions }
  }

  // The cells a snapshot freezes: the item number and columns C to I.
  datatype FrozenLine = FrozenLine(item: string, c: int, d: int, e: int, f: int, g: int, h: int, i: int)

  datatype Fingerprint = Fingerprint(
    number: nat, periodStart: int, periodEnd: int, header: Header, lines: seq<FrozenLine>)

  datatype Application = Application(
    number: nat, periodStart: int, periodEnd: int, status: Status,
    header: Header, box: Box, lines: seq<Line>,
    certified: Option<int>, snapshot: Option<Fingerprint>)
  {
    predicate IsEditable() { status.IsEditable() }

    predicate IsIssued() { status.IsIssued() }

    /** What was certified this period; with no certificate the request stands. */
    function CertifiedPayment(): int {
      match certified
      case Some(amount) => amount
      case None => header.line8
    }

    /** Line 7 of the next application: everything certified to date. */
    function CertifiedOrRequested(): int {
      header.line7 + CertifiedPayment()
    }

    /** Only what this application itself owns: the header and the lines. */
    function Frozen(): Fingerprint {
      Fingerprint(number, periodStart, periodEnd, header,
        seq(|lines|, k requires 0 <= k < |lines| => FrozenCells(lines[k])))
    }
  }

  function FrozenCells(line: Line): FrozenLine {
    FrozenLine(line.item, line.c, line.d, line.e, line.f, line.g, line.h, line.i)
  }

  /** Column D of the next period for this line. */
  function CarryForward(line: Line): int {
    line.d + line.e
  }

  /** Column D keyed by item number; a later row wins over an earlier one with the same number. */
  function CarryMap(lines: seq<Line>): map<string, int> {
    if |lines| == 0 then map[]
    else CarryMap(lines[..|lines| - 1])[lines[|lines| - 1].item := CarryForward(lines[|lines| - 1])]
  }

  function CarriedTo(carried: map<string, int>, item: string): int {
    if item in carried then carried[item] else 0
  }

  // The column D a period opened after `previous` starts from.
  function CarriedFrom(previous: Option<Application>): map<string, int> {
    match previous
    case Some(p) => CarryMap(p.lines)
    case None => map[]
  }

  function PreviousCertificates(previous: Option<Application>): int {
    match previous
    case Some(p) => p.CertifiedOrRequested()
    case None => 0
  }
}
