/** The schedule of values and the change orders that land on it. */
module Schedules {
  import opened MoneyText
  import opened Outcomes

  datatype ScheduleStatus = Draft | Approved | Superseded

  // One row of the line table. A schedule is identified by its position, revision minus one.
  datatype SovLine = SovLine(
    id: nat, schedule: nat, item: string, base: int, adjustment: int, current: int,
    isCoLine: bool, source: Option<nat>)

  datatype OrderStatus = OrderDraft | OrderApproved | OrderVoid

  // Adjusts the line it names, or creates a new one.
  datatype OrderLine = OrderLine(target: Option<nat>, newItem: string, amount: int)

  datatype ChangeOrder = ChangeOrder(status: OrderStatus, lines: seq<OrderLine>, amount: int)

  datatype Plan = Plan(
    originalSum: int, lines: seq<SovLine>, schedules: seq<ScheduleStatus>, orders: seq<ChangeOrder>, nextId: nat)

  datatype Measure = Base | Adjustment | Current

  function Amount(line: SovLine, measure: Measure): int {
    match measure
    case Base => line.base
    case Adjustment => line.adjustment
    case Current => line.current
  }

  /** A total over the lines of one schedule. */
  function Total(lines: seq<SovLine>, s: nat, measure: Measure): int {
    if |lines| == 0 then 0
    else
      var last := lines[|lines| - 1];
      Total(lines[..|lines| - 1], s, measure) + if last.schedule == s then Amount(last, measure) else 0
  }

  /** Line 2 by the first route: the approved change orders. */
  function ApprovedTotal(orders: seq<ChangeOrder>): int {
    if |orders| == 0 then 0
    else
      var last := orders[|orders| - 1];
      ApprovedTotal(orders[..|orders| - 1]) + if last.status.OrderApproved? then last.amount else 0
  }

  /** Line 2 by the second route: the adjustments on the schedule. */
  function AdjustmentTotal(plan: Plan, s: nat): int {
    Total(plan.lines, s, Adjustment)
  }

  function LineTotal(lines: seq<OrderLine>): int {
    if |lines| == 0 then 0 else LineTotal(lines[..|lines| - 1]) + lines[|lines| - 1].amount
  }

  // The lines of one schedule, in order.
  function LinesOf(lines: seq<SovLine>, s: nat): seq<SovLine> {
    if |lines| == 0 then []
    else
      var rest, last := LinesOf(lines[..|lines| - 1], s), lines[|lines| - 1];
      if last.schedule == s then rest + [last] else rest
  }

  predicate IsEditable(plan: Plan, s: nat) {
    s < |plan.schedules| && plan.schedules[s].Draft?
  }

  /** The row with this id, wherever it is: ids are looked up across all schedules. */
  function Find(lines: seq<SovLine>, id: nat): Option<SovLine> {
    if |lines| == 0 then None
    else if lines[|lines| - 1].id == id then Some(lines[|lines| - 1])
    else Find(lines[..|lines| - 1], id)
  }

  function Adjusted(line: SovLine, amount: int): SovLine {
    line.(adjustment := line.adjustment + amount, current := line.base + (line.adjustment + amount))
  }

  // Every row with the id replaced by f of itself is what a row update does; ids are unique.
  function Adjust(lines: seq<SovLine>, id: nat, amount: int): (r: seq<SovLine>)
    ensures |r| == |lines|
  {
    if |lines| == 0 then []
    else
      var last := lines[|lines| - 1];
      Adjust(lines[..|lines| - 1], id, amount) + [if last.id == id then Adjusted(last, amount) else last]
  }

  function Rewrite(lines: seq<SovLine>, id: nat, item: string, value: int): (r: seq<SovLine>)
    ensures |r| == |lines|
  {
    if |lines| == 0 then []
    else
      var last := lines[|lines| - 1];
      Rewrite(lines[..|lines| - 1], id, item, value)
      + [if last.id == id then last.(item := Strip(item), base := value, current := value + last.adjustment) else last]
  }

  function Remove(lines: seq<SovLine>, id: nat): seq<SovLine> {
    if |lines| == 0 then []
    else
      var rest, last := Remove(lines[..|lines| - 1], id), lines[|lines| - 1];
      if last.id == id then rest else rest + [last]
  }

  // ---------------------------------------------------------------------------------------------
  // Schedules
  // ---------------------------------------------------------------------------------------------

  function CreateSchedule(plan: Plan): Result<Plan> {
    if |plan.schedules| > 0 then Err(ConflictError) else Ok(plan.(schedules := [Draft]))
  }

  predicate ItemUsed(lines: seq<SovLine>, s: nat, item: string) {
    exists k :: 0 <= k < |lines| && lines[k].schedule == s && lines[k].item == item
  }

  function AddLine(plan: Plan, s: nat, item: string, value: int, described: bool): Result<Plan> {
    if !IsEditable(plan, s) then Err(ConflictError)
    else if !described then Err(ValidationError)
    else if ItemUsed(plan.lines, s, item) then Err(ConflictError)
    else
      Ok(plan.(lines := plan.lines + [SovLine(plan.nextId, s, Strip(item), value, 0, value, false, None)],
               nextId := plan.nextId + 1))
  }

  function UpdateLine(plan: Plan, id: nat, item: string, value: int): Result<Plan> {
    match Find(plan.lines, id)
    case None => Err(NotFoundError)
    case Some(line) =>
      if !IsEditable(plan, line.schedule) then Err(ConflictError)
      else Ok(plan.(lines := Rewrite(plan.lines, id, item, value)))
  }

  function RemoveLine(plan: Plan, id: nat): Result<Plan> {
    match Find(plan.lines, id)
    case None => Err(NotFoundError)
    case Some(line) =>
      if !IsEditable(plan, line.schedule) then Err(ConflictError)
      else if line.isCoLine then Err(ConflictError)
      else Ok(plan.(lines := Remove(plan.lines, id)))
  }

  /** G702 line 3: what a schedule must total before it can be approved. */
  function ContractSumToDate(plan: Plan): int {
    plan.originalSum + ApprovedTotal(plan.orders)
  }

  /** The contract form writes the sum as typed, whatever has been approved on it. */
  function SaveSum(plan: Plan, value: int): Result<Plan> {
    if value <= 0 then Err(ValidationError) else Ok(plan.(originalSum := value))
  }

  function ApproveSchedule(plan: Plan, s: nat): Result<Plan> {
    if !IsEditable(plan, s) then Err(ConflictError)
    else if LinesOf(plan.lines, s) == [] then Err(ValidationError)
    else if Total(plan.lines, s, Current) != ContractSumToDate(plan) then Err(ValidationError)
    else Ok(plan.(schedules := plan.schedules[s := Approved]))
  }

  // Fresh copies of a schedule's rows for the next revision.
  function Copies(source: seq<SovLine>, s: nat, firstId: nat): (r: seq<SovLine>)
    ensures |r| == |source|
  {
    seq(|source|, k requires 0 <= k < |source| => source[k].(id := firstId + k, schedule := s))
  }

  /** Only the newest revision number is free, so only the newest schedule can be revised. */
  function CreateRevision(plan: Plan, s: nat): Result<Plan> {
    if s >= |plan.schedules| then Err(NotFoundError)
    else if !plan.schedules[s].Approved? then Err(ConflictError)
    else if s + 1 < |plan.schedules| then Err(ConflictError)
    else
      var source := LinesOf(plan.lines, s);
      Ok(plan.(lines := plan.lines + Copies(source, s + 1, plan.nextId),
               schedules := plan.schedules[s := Superseded] + [Draft],
               nextId := plan.nextId + |source|))
  }

  // ---------------------------------------------------------------------------------------------
  // Change orders
  // ---------------------------------------------------------------------------------------------

  function CreateOrder(plan: Plan): Result<Plan> {
    Ok(plan.(orders := plan.orders + [ChangeOrder(OrderDraft, [], 0)]))
  }

  function AddOrderLine(plan: Plan, o: nat, target: Option<nat>, newItem: string, amount: int): Result<Plan> {
    if o >= |plan.orders| then Err(NotFoundError)
    else if target.Some? && Find(plan.lines, target.value).None? then Err(NotFoundError)
    else if !plan.orders[o].status.OrderDraft? then Err(ConflictError)
    else if target.None? && Strip(newItem) == "" then Err(ValidationError)
    else
      var lines := plan.orders[o].lines + [OrderLine(target, Strip(newItem), amount)];
      Ok(plan.(orders := plan.orders[o := plan.orders[o].(lines := lines, amount := LineTotal(lines))]))
  }

  // One order line after another lands on the table; a target that no longer exists refuses the order.
  function Land(plan: Plan, o: nat, s: nat, lines: seq<OrderLine>): Result<Plan> {
    if |lines| == 0 then Ok(plan)
    else
      match Land(plan, o, s, lines[..|lines| - 1])
      case Err(e) => Err(e)
      case Ok(landed) => LandOne(landed, o, s, lines[|lines| - 1])
  }

  function LandOne(plan: Plan, o: nat, s: nat, line: OrderLine): Result<Plan> {
    match line.target
    case None =>
      var created := SovLine(plan.nextId, s, line.newItem, 0, line.amount, line.amount, true, Some(o));
      Ok(plan.(lines := plan.lines + [created], nextId := plan.nextId + 1))
    case Some(id) =>
      if Find(plan.lines, id).None? then Err(ValidationError)
      else Ok(plan.(lines := Adjust(plan.lines, id, line.amount)))
  }

  function WithStatus(orders: seq<ChangeOrder>, o: nat, status: OrderStatus): (r: seq<ChangeOrder>)
    requires o < |orders|
    ensures |r| == |orders|
  {
    orders[o := orders[o].(status := status)]
  }

  function ApproveOrder(plan: Plan, o: nat, s: nat): Result<Plan> {
    if o >= |plan.orders| then Err(NotFoundError)
    else if !plan.orders[o].status.OrderDraft? then Err(ConflictError)
    else if plan.orders[o].lines == [] then Err(ValidationError)
    else if !IsEditable(plan, s) then Err(ConflictError)
    else
      match Land(plan, o, s, plan.orders[o].lines)
      case Err(e) => Err(e)
      case Ok(landed) => Ok(landed.(orders := WithStatus(plan.orders, o, OrderApproved)))
  }

  predicate IsCreated(line: SovLine, s: nat, o: nat, item: string) {
    line.schedule == s && line.source == Some(o) && line.item == item
  }

  /** The line of this schedule that the order created under this item number. */
  function FindCreated(lines: seq<SovLine>, s: nat, o: nat, item: string): Option<SovLine> {
    if |lines| == 0 then None
    else if IsCreated(lines[|lines| - 1], s, o, item) then Some(lines[|lines| - 1])
    else FindCreated(lines[..|lines| - 1], s, o, item)
  }

  function BackOutOne(lines: seq<SovLine>, o: nat, s: nat, line: OrderLine): seq<SovLine> {
    match line.target
    case None =>
      (match FindCreated(lines, s, o, line.newItem)
       case None => lines
       case Some(created) => Remove(lines, created.id))
    case Some(id) => Adjust(lines, id, -line.amount)
  }

  function BackOut(lines: seq<SovLine>, o: nat, s: nat, orderLines: seq<OrderLine>): seq<SovLine> {
    if |orderLines| == 0 then lines
    else BackOutOne(BackOut(lines, o, s, orderLines[..|orderLines| - 1]), o, s, orderLines[|orderLines| - 1])
  }

  function VoidOrder(plan: Plan, o: nat, s: nat): Result<Plan> {
    if o >= |plan.orders| then Err(NotFoundError)
    else if !plan.orders[o].status.OrderApproved? then Ok(plan.(orders := WithStatus(plan.orders, o, OrderVoid)))
    else if !IsEditable(plan, s) then Err(ConflictError)
    else
      Ok(plan.(lines := BackOut(plan.lines, o, s, plan.orders[o].lines),
               orders := WithStatus(plan.orders, o, OrderVoid)))
  }

  // ---------------------------------------------------------------------------------------------
  // Steps
  // ---------------------------------------------------------------------------------------------

  datatype Step =
    | StartSchedule
    | Add(schedule: nat, item: string, value: int, described: bool)
    | Update(id: nat, item: string, value: int)
    | Delete(id: nat)
    | Approve(schedule: nat)
    | Revise(schedule: nat)
    | StartOrder
    | AddToOrder(order: nat, target: Option<nat>, newItem: string, amount: int)
    | ApproveCo(order: nat, schedule: nat)
    | VoidCo(order: nat, schedule: nat)
    | EditSum(sum: int)

  function Try(plan: Plan, step: Step): Result<Plan> {
    match step
    case StartSchedule => CreateSchedule(plan)
    case Add(s, item, value, described) => AddLine(plan, s, item, value, described)
    case Update(id, item, value) => UpdateLine(plan, id, item, value)
    case Delete(id) => RemoveLine(plan, id)
    case Approve(s) => ApproveSchedule(plan, s)
    case Revise(s) => CreateRevision(plan, s)
    case StartOrder => CreateOrder(plan)
    case AddToOrder(o, target, newItem, amount) => AddOrderLine(plan, o, target, newItem, amount)
    case ApproveCo(o, s) => ApproveOrder(plan, o, s)
    case VoidCo(o, s) => VoidOrder(plan, o, s)
    case EditSum(value) => SaveSum(plan, value)
  }

  /** A refused step changes nothing. */
  function After(plan: Plan, step: Step): Plan {
    match Try(plan, step)
    case Ok(next) => next
    case Err(_) => plan
  }
}
