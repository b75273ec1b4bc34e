# Massing Bill: a verified model

Massing Bill turns a schedule of values and what was done this month into an AIA G702/G703 pay application, in integer
cents. This project models its arithmetic and its state machines in Dafny and proves what they are for. `dafny verify
dfyconfig.toml` checks all of it.

* **Money.** `Rounding`, `Allocation`, `AllocationLaws`, `DecimalContext` and `MoneyText`: half-away-from-zero
  rounding, largest-remainder apportionment with its optimality, the parser with its 28-digit context, the printer.
  `MoneyReading` says what is read and written character by character.
* **One application.** `Retainage` and `Requisition` compute it; `Tieout` is the independent rule book, `TieoutStrength`
  says how much the rules pin down, `PeriodLaws` what a recomputation can and cannot leave wrong.
* **Many periods.** `Applications` and `Periods` hold the rows and the steps, `PeriodEngine` the class whose methods
  perform them in place, and `PeriodEffects` what they do to the stored columns. `PeriodMoves` says what a step may do
  without the arithmetic of withholding; `PeriodRuns` and `CarryForwardRuns` prove the theorems over whole runs from
  that alone.
* **Schedules and change orders.** `Schedules`, `ScheduleEngine`, `ScheduleEffects` and `ScheduleRuns`: the tables, the
  class, what its methods do to the rows, and the two routes to G702 line 2 over whole runs.
  `ChangeOrderLaws` follows one order row by row, `ItemNumbers` the numbers that periods are keyed by.
* **Both together.** `Billing` joins a schedule to the periods billed on it, `JointRuns` runs the two side by side.
* **Audit.** `AuditChain`, with the digest an arbitrary injective function of the payload.
* **Loops with a specification.** `Deadlines`, `Webhooks` with `WebhookRuns`, `Subcontracts`.
* `Outcomes`, `Sums` and `Sorting` are shared.

A class method states its new state and its answer twice: as the function of the old state that the run theorems are
about (`After` and `Try` of the same component), and outright, in statuses, cells and sums, without that function. A
method of `PeriodEngine.Contract` also states that it is a move in the sense of `PeriodMoves`. A run is a sequence of
steps from the empty state, refused steps included. A refused call raises before anything is committed, so it changes
nothing.

## Hypotheses

Some guards of the code are weaker than its comments. A theorem that needs more says so in its `requires`, and lemmas
beside it say exactly when the unguarded operation is harmless.

* Opening a period is one snapshot read (massingbill/services/application.py:154-203) and a later insert under the
  unique constraint. Between the two, anything may happen.
* `PaymentsOnIssued`: payments go to issued applications. The code refuses only editable ones, so a voided one can be
  paid; `PaymentKeepsOrderExactlyWhen`, `PaymentKeepsRecordsExactlyWhen`, `PaymentKeepsColumnDExactlyWhen` and
  `PaymentKeepsLine7ExactlyWhen`.
* `VoidsOnLatest` and `CertifiesLatest`: neither operation looks for later issued applications;
  `VoidKeepsColumnDExactlyWhen`, `VoidKeepsLine7ExactlyWhen` and `CertifyKeepsLine7ExactlyWhen`.
* `ItemsPersist`: item numbers are unique on a schedule and stay on later revisions; `SubmitKeepsColumnDExactlyWhen` says
  what a submission needs of them; no other step looks at them. The code looks for duplicates only when a line is added,
  and then for the number as typed (massingbill/services/sov.py:123) while it stores the stripped one
  (massingbill/services/sov.py:143); the three `KeepsDistinctExactlyWhen` lemmas and `RunsKeepNumbers`. In `JointRuns` it
  follows from what each approval finds (`ItemsStay`).
* `Careful`: an adjusting line names a line of the schedule it lands on, a removed line carries no adjustment, a voided
  order still stands on the schedule as it was approved; the three `KeepsTieExactlyWhen` lemmas. `ApprovedOrderStands`
  and `StandingOrderGoesOnStanding` say how the last comes about.
* `SumSettled`: the original contract sum is not changed while the newest schedule is approved. The contract form rewrites
  it with no guard (massingbill/blueprints/projects.py:251); `SumEditKeepsBalanceExactlyWhen`.
* `OneAtATime`: a sub billing is received only once earlier ones are resolved; `ApprovalStaysWithinExactlyWhen` and
  `TwoOpenBillingsBothPay`.

## Where the code and its documentation differ

* `_default_rule` (massingbill/services/application.py:452) says that a contract with no rule withholds nothing. The
  rule it builds is never flushed, so its mode is unset and the conversion to a retainage mode raises. The model follows
  the code: a contract with no rule cannot be recomputed, and `NoRuleNoPeriod` says no period of it can be opened.
* The route that approves a change order (massingbill/blueprints/workflow.py:196) revises the schedule and approves the
  order into the revision, but the order's adjusting lines name rows of the superseded one. The last step is refused for
  every order whose adjusting lines do not net to zero (`FreshRevisionIsApprovableExactlyWhen`), a plain addition to one
  line among them (`RouteRefusesAnAddition`).

## Model

| member | source | states |
|---|---|---|
| `Rounding.ApplyBpIsNearest` | massingbill/core/money.py:142-170 | q is the nearest cent to amount times rate over 10000, ties away from zero, if and only if it is what `apply_bp` returns; any sign |
| `Rounding.PercentOfIsNearest` | massingbill/core/money.py:173-190 | the same if-and-only-if for `percent_of`, for positive and negative wholes; a zero whole reports 0 |
| `Rounding.ApplyBpIsOdd` | massingbill/core/money.py:142-170 | negating the amount or the rate negates the result: a credit reverses its charge to the cent |
| `Rounding.ApplyBpIsMonotone` | massingbill/core/money.py:142-170 | a larger product is never charged less |
| `Rounding.ApplyBpAtFullRate` | massingbill/core/money.py:142-170 | 100% of an amount is the amount |
| `Rounding.PerLineGap` | massingbill/core/money.py:142-170 | for any n amounts of any sign and any rate, charging one by one and charging the sum differ by at most n/2 cents |
| `Rounding.PerLineGapIsTight` | massingbill/core/money.py:142-170 | the bound n/2 is reached for every n |
| `Allocation.Allocate` | massingbill/core/money.py:195-259 | returns an allocation in the sense of `Allocates` (exact total, floor or one more, largest remainder first, earlier line on ties, a negative total reversed line by line), zeros for 0 over zero weights, and the money error otherwise |
| `Allocation.HandOut` | massingbill/core/money.py:195-259 | the in-place increments give one extra cent to exactly the first `leftover` lines of the order |
| `Allocation.SplitEvenly` | massingbill/core/money.py:262-266 | equal weights come to quotient plus one for the first remainder positions, negated for a negative total; no parts is refused |
| `Allocation.AllocationIsExact` | massingbill/core/money.py:195-259 | the parts of every allocation sum to the total, credits included |
| `Allocation.AllocationIsFair` | massingbill/core/money.py:195-259 | every part is within one of its exact share, exact when the share is whole, and zero for a zero weight; negative weights and negative totals included |
| `Allocation.ApportionmentIsUnique` | massingbill/core/money.py:195-259 | the specification leaves no choice of cents |
| `Allocation.AllocationIsUnique` | massingbill/core/money.py:195-259 | two allocations of the same total over the same weights are equal, either sign |
| `Allocation.LeftoverIsTheFractions` | massingbill/core/money.py:195-259 | the cents the floors leave over are non-negative and fewer than the lines, so the handing out never runs off the list |
| `Allocation.NoCentForAnExactShare` | massingbill/core/money.py:195-259 | a line whose share is a whole number of cents never takes an extra one |
| `AllocationLaws.AllocationIsOptimal` | massingbill/core/money.py:195-259 | least squares: no other integer split of the total is closer to the exact shares, either sign of total and of the weight sum |
| `AllocationLaws.AllocationRespectsOrder` | massingbill/core/money.py:195-259 | a heavier line, or an equal one listed earlier, never gets less (non-negative total, positive weight sum) |
| `AllocationLaws.AllocationIgnoresScale` | massingbill/core/money.py:195-259 | multiplying every weight by the same non-zero integer moves no cent |
| `MoneyText.ParseMoney` | massingbill/core/money.py:272-326 | the step-by-step cleaning computes `ParsedText`; whole dollars and decimals take their own routes; every arithmetic step on a decimal goes through the 28-digit context |
| `MoneyText.ReplaceAll` | massingbill/core/money.py:272-312 | removing the noise characters one kind at a time removes them all at once |
| `MoneyReading.StripMeans` | massingbill/core/money.py:272-312 | stripping takes white space off both ends and nothing else |
| `MoneyReading.NoiseIsIgnored` | massingbill/core/money.py:272-312 | a dollar sign, a comma or one of four kinds of space is dropped wherever it stands, and no other character is |
| `MoneyReading.ValueIsDecimal` | massingbill/core/money.py:272-326 | digits are read in tens, from nothing |
| `MoneyReading.NumbersAreRead` | massingbill/core/money.py:272-326 | a minus or none, digits, perhaps a point and more digits, perhaps one newline: read as the digits say, with as many places as follow the point |
| `MoneyReading.OnlyNumbersAreRead` | massingbill/core/money.py:272-326 | and nothing else is accepted |
| `MoneyReading.TextIsRead` | massingbill/core/money.py:272-312 | outside parentheses a text is read as the number it is behind at most one plus sign, once the noise is out |
| `MoneyReading.OnlyNumbersAreAccepted` | massingbill/core/money.py:272-312 | and only then is it accepted |
| `MoneyText.DecimalToCentsIsNearest` | massingbill/core/money.py:315-326 | with the 28-digit context in it: below 28 digits sub-cent input is refused exactly when rounding is not allowed, and otherwise goes to the nearest cent, ties away from zero |
| `MoneyReading.CentsAtAnyLength` | massingbill/core/money.py:315-326 | for decimals of any length and sign: the product by 100 and the sum with one half are each kept to 28 digits, and the cents are the scaled amount where that is whole, otherwise its refusal, or the floor of the sum where rounding is allowed |
| `DecimalContext.HalfSumIsKept` | massingbill/core/money.py:315-326 | adding one half before the floor loses nothing to the context below that limit, however many places the input has |
| `DecimalContext.KeptIsNearestEven` | massingbill/core/money.py:315-326 | the context keeps the nearest number with at most 28 digits before its trailing zeros, on ties the even one |
| `MoneyText.AcceptedIsExactExactlyWhen` | massingbill/core/money.py:315-326 | for every input accepted without rounding: the cents are exactly the amount if and only if 28 digits hold its product by 100 |
| `MoneyText.RoundsLikeApplyBp` | massingbill/core/money.py:315-326 | parsing with rounding and applying a rate round the same way, below 28 digits |
| `MoneyText.GroupsOfThree` | massingbill/core/money.py:341-363 | counting from the right, a character of a grouped numeral is a comma exactly at every fourth place |
| `MoneyReading.DisplayMeans` | massingbill/core/money.py:341-363 | every displayed amount is the symbol, the grouped dollars without a leading zero, a point and two digits of cents, with a minus in front or parentheses around a negative one |
| `MoneyText.DisplayRoundTrip` | massingbill/core/money.py:272-363 | parsing a displayed amount returns it kept to 28 significant digits: so it returns the amount if and only if its digits past the 28th are zeros, as they are for every amount below 10^28 cents; every symbol made of noise characters, both negative styles, rounding allowed or not |
| `MoneyText.LongAmountLosesACent` | massingbill/core/money.py:272-363 | the least amount that does not come back: 10^28 + 1 cents parse as 10^28 |
| `MoneyText.DisplayIsInjective` | massingbill/core/money.py:341-363 | two amounts never look the same |
| `MoneyText.ParenthesesNegate` | massingbill/core/money.py:272-312 | for any text: parentheses negate what stands between them, unless it already carries a minus or is itself in parentheses, which is refused |
| `Retainage.Compute` | massingbill/core/retainage.py:114-148 | each line is withheld as its rule says, mode by mode and to the nearest cent: the work rate on both halves under flat; the work and the stored rate under split and under stepped below its threshold or without one; the reduced rate on both from the threshold on; the rate of the line itself, or the work rate where it has none, under variable. Lines 5a and 5b sum the halves, and the rate in force is reported |
| `Retainage.EachHalfIsNearest` | massingbill/core/retainage.py:114-148 | under every mode a line is withheld this way if and only if each half is the nearest cent to its amount at the rate of the line, ties away from zero |
| `Retainage.SteppedReductionExactlyWhen` | massingbill/core/retainage.py:93-111 | a stepped reduction takes effect exactly from half a basis point below its threshold, in integers, for any sign of anything; a missing reduced rate counts as zero |
| `Retainage.PercentIsAboveExactlyWhen` | massingbill/core/money.py:173-190 | a share reads above any whole number of basis points exactly by an integer comparison, for every sign and a zero whole |
| `Retainage.UniformRateReadsBack` | massingbill/core/retainage.py:114-160 | above 20,000 cents a line a uniform rate reads back as itself, so the cap check fires exactly when the rate is above the cap |
| `Retainage.CompliantRatesNeverTrip` | massingbill/core/retainage.py:114-160 | non-negative amounts under rates at or below the cap never trip it at that volume: per-line rounding cannot |
| `Retainage.CapFiresExactlyWhen` | massingbill/core/retainage.py:151-160 | the check in integers, for any cap and any base: it fires exactly from half a basis point above the cap, and never on a zero base |
| `Retainage.SmallBillingTripsTheCap` | massingbill/core/retainage.py:114-160 | below that volume a compliant rate can trip it (five cents at 10%) |
| `Retainage.TheVolumeBoundIsSharp` | massingbill/core/retainage.py:114-160 | at exactly 20,000 cents on one line 50% reads back as 50.01% |
| `Requisition.ComputeTiesOut` | massingbill/core/requisition.py:102-217 | every computed sheet satisfies all the identities, under every withholding mode |
| `Requisition.EveryRow` | massingbill/core/requisition.py:134-217 | every row: entered cells untouched, G and H by addition, progress the nearest basis point of G over C of either sign, I what the retainage rule withholds on it |
| `Requisition.ComputeAddsUp` | massingbill/core/requisition.py:134-217 | every row and every header line of a computed sheet adds up from the inputs it was given |
| `Requisition.BilledIsLine4` | massingbill/core/requisition.py:144-217 | line 4 is exactly the amount retainage was measured against |
| `Requisition.CapFindingAgrees` | massingbill/services/tieout.py:453-471 | the report measuring line 5 over line 4 agrees with the retainage engine measuring withheld over billed |
| `Requisition.ComputeRetains` | massingbill/core/requisition.py:134-217 | every computed sheet withholds, on the D + E, F and rate shown in each of its own rows, what its rule says; I is the sum of the two halves of its row, line 5a the sum of the work halves, line 5b that of the stored ones; completion is the total of G against the total of C |
| `Tieout.RunOneLine` | massingbill/services/tieout.py:335-398 | the line rules appended one after another are the findings of that line |
| `Tieout.RunLineLevel` | massingbill/services/tieout.py:335-398 | the loop over the lines collects exactly the findings of every line |
| `Tieout.StructuralRule` | massingbill/services/tieout.py:174-317 | each header rule fires exactly when its equation fails, the live ones only while the application is open |
| `Tieout.LineRule` | massingbill/services/tieout.py:335-398 | each line rule fires exactly when its equation fails on some line |
| `Tieout.CleanMeans` | massingbill/services/tieout.py:174-398 | no structural or line finding if and only if every equation holds on the header and on every line |
| `Tieout.StructuralReports` | massingbill/services/tieout.py:174-317 | what each structural finding says: severity, and as expected and actual exactly the two sides of the equation that failed |
| `Tieout.LineLevelReports` | massingbill/services/tieout.py:335-398 | the same for each line finding, with the item number of its row |
| `TieoutStrength.EditIsCaught` | massingbill/services/tieout.py:174-398 | from a clean application a different value in any one of the eleven header figures, four box figures or any cell C to I fires the named rule for that figure |
| `TieoutStrength.OpenApplicationIsDetermined` | massingbill/services/tieout.py:174-398 | while open, columns C, E, F, I and line 5a with the order log and the prior certificate decide column D, G, H, the whole header and the net of the box |
| `TieoutStrength.IssuedApplicationIsDetermined` | massingbill/services/tieout.py:323-398 | after issue, columns C to F and I with lines 1, 5a and 7 decide everything else, the box by its net |
| `TieoutStrength.TwoEditsCanPass` | massingbill/services/tieout.py:174-317 | two compensating edits of the box always pass: the net is all that is pinned |
| `PeriodEngine.Contract.BeginOpening` | massingbill/services/application.py:154-203 | refused with a conflict when no schedule is approved or an application is open, and as invalid when the dates are reversed or start before the newest live period has ended; otherwise it notes the dates, one above the highest number, the schedule, and the D plus E of the last row of each item on the newest issued application below that number |
| `PeriodEngine.Contract.FinishOpening` | massingbill/services/application.py:204-269 | the insert under the unique (contract, number) constraint: a draft whose rows are those of the schedule with the carried amount in D and nothing in E and F, computed under the rule; refused when the number is taken or no rule is on file |
| `PeriodEngine.Contract.LatestApplication` | massingbill/services/application.py:76-110 | the application with the highest number among the open ones, among those not void, or among those issued below a number; nothing exactly when there is none |
| `PeriodEngine.Contract.NextNumber` | massingbill/services/application.py:798-802 | above every number ever used, voided ones included, and one above the highest |
| `PeriodEngine.Contract.CarryForwardMap` | massingbill/services/application.py:289-302 | for each item on the newest issued application below the number, the D plus E of its last row there; empty without such an application |
| `PeriodEngine.Contract.ApprovedTotal` | massingbill/services/change_order.py:255-266 | the sum of the approved orders |
| `PeriodEngine.Contract.Recomputed` | massingbill/services/application.py:336-389 | entered cells stay; G and H add up, each row is withheld as the rule says, the box shows the orders by date, lines 1 to 9 add up from the contract sum, the sum of the orders and what the previous issued application certified or requested to date; with no rule it fails |
| `PeriodEngine.Contract.TypeIn` | massingbill/services/application.py:308-333 | work this period lands in column E and stored material in column F of the row an entry names, the last entry for a row winning; other rows keep both, and no row changes its item, C, D or rate. Nothing happens exactly when an entry names a line that is not there |
| `PeriodMoves.RecomputeDerives` | massingbill/services/application.py:336-389 | recomputing is possible exactly with a rule on file; then the entries stay, and every derived figure and the box are what the live tables say |
| `PeriodMoves.EveryStepMoves` | massingbill/services/application.py:154-629 | every step of the engine, refused or not, is a move in the sense of the run theorems |
| `PeriodEngine.Contract.SummaryBox` | massingbill/services/application.py:416-449 | each of the four figures is the sum of the additions, or of the sizes of the deductions, over the orders of its column: this period for an order that names this application or names none and is dated inside the period, previous months for one that names another, or none and has no date or an earlier one |
| `PeriodEngine.Contract.EnterEntries` | massingbill/services/application.py:308-333 | refused in order for an unknown or closed application, an unknown line, or no rule, and then nothing changes; otherwise every entry stands in its cell after the recomputation, every other input is unchanged, and every derived figure is reckoned |
| `PeriodEngine.Contract.SubmitApplication` | massingbill/services/application.py:514-567 | refused in order when unnamed, not open, or with a blocking finding, the cap read as line 5 over line 4; otherwise only the status and the snapshot change, to submitted and the present form |
| `PeriodEngine.Contract.CertifyApplication` | massingbill/services/application.py:570-609 | only a submitted application; sets the status and the certified amount and nothing else |
| `PeriodEngine.Contract.VoidApplication` | massingbill/services/application.py:612-629 | everything but a paid application; sets the status and nothing else |
| `PeriodEngine.Contract.RecordPayment` | massingbill/services/payments.py:20-73 | refuses open applications and zero amounts; closes the period when it should and changes nothing else |
| `Periods.ComputeKeepsEntries` | massingbill/services/application.py:336-389 | recomputing never changes columns C to F or a line rate |
| `PeriodEffects.TypedEntriesLand` | massingbill/services/application.py:308-333 | which cell every entry lands in, for any list of entries: the statement of `TypeIn` about the rows alone |
| `PeriodEffects.LatestIsNewest` | massingbill/services/application.py:76-110 | each of the three lookups finds the highest number among the statuses it is for, and nothing only when there is none |
| `PeriodEffects.CarryForwardIs` | massingbill/services/application.py:289-302 | what a period carries forward, read off the rows of the newest issued application below it |
| `PeriodEffects.CertifiedToDateIs` | massingbill/services/application.py:397-400 | line 7 comes from that application: its own line 7 plus what was certified, or line 8 where nothing was |
| `PeriodEffects.OpeningIsRefused` | massingbill/services/application.py:154-203 | an opening is refused with each of its two errors exactly when its guards say so, in their order |
| `PeriodEffects.ThisPeriodMeans` | massingbill/services/application.py:416-449 | an order counts under this period if and only if it names this application, or names none and its approval date is inside the period |
| `PeriodEffects.EarlierMeans` | massingbill/services/application.py:416-449 | and under previous months if and only if it names another application, or names none and has no date or one before the period |
| `PeriodEffects.BoxIsShown` | massingbill/services/application.py:416-449 | the four figures of the box are sums over the orders that meet those date conditions |
| `PeriodEffects.RecomputeReckons` | massingbill/services/application.py:336-389 | the whole of a recomputation on stored figures alone: cells kept, rows, withholdings, box and header |
| `PeriodEffects.FrozenAlikeExactlyWhen` | massingbill/services/application.py:701-769 | two applications freeze to the same record if and only if number, period, header and every cell from the item number to column I agree |
| `PeriodEffects.SnapshotFiresExactlyWhen` | massingbill/services/tieout.py:118-171 | the snapshot rules fire exactly on an issued application without a snapshot, or one that is no longer the form it was taken of |
| `PeriodEffects.CapFiresOver` | massingbill/services/tieout.py:453-471 | the cap finding stands exactly when line 5 over line 4 reads above the cap, and blocks exactly when the contract says so |
| `PeriodLaws.BoxNet` | massingbill/services/application.py:416-449 | the box nets to the approved total less the orders it has no place for |
| `PeriodLaws.BoxSplitsByPeriod` | massingbill/services/application.py:416-449 | additions less deductions is the net, additions plus deductions the size, of the orders of each class; `ThisPeriodMeans`, `EarlierMeans` and `LaterMeans` say what the classes are |
| `PeriodLaws.LaterMeans` | massingbill/services/application.py:416-449 | an order has no place exactly when it names no application and is approved after the period end |
| `PeriodLaws.RecomputeTies` | massingbill/services/application.py:336-449 | after a recomputation no header identity, PENNY, G or H rule fires, for any entries, rule, order log or prior certificate; CO-SUM fires exactly when late orders do not net to zero |
| `PeriodLaws.OnlyThreeRulesCanBlock` | massingbill/services/application.py:336-389 | so only the schedule total, the box and column D can block a recomputed application |
| `PeriodLaws.RecomputeIsIdempotent` | massingbill/services/application.py:336-389 | recomputing again changes nothing |
| `PeriodLaws.RecomputedIsCleanExactlyWhen` | massingbill/services/application.py:336-389 | a recomputed open application is free of blocking findings if and only if three things readable before the call hold |
| `PeriodLaws.OpeningLeaves` | massingbill/services/application.py:154-269 | reading and inserting with nobody else at work appends the opened application, carrying what the previous issued one carries |
| `PeriodLaws.EnteredIsCleanExactlyWhen` | massingbill/services/application.py:308-567 | after any entries in it the gate passes if and only if its schedule totals the contract sum to date and late orders net to zero |
| `PeriodLaws.FreshPeriodIsSubmittableExactlyWhen` | massingbill/services/application.py:154-567 | open, enter anything, submit, with nobody else at work and no finding from outside this model: refused exactly when the schedule does not total the contract sum to date or late orders do not net to zero |
| `PeriodLaws.NoRuleNoPeriod` | massingbill/services/application.py:452-454 | with no retainage rule on file no opening is ever completed |
| `PeriodRuns.IssuedFiguresNeverChange` | massingbill/services/application.py:701-769 | no later step of any kind changes a frozen figure or the snapshot of an application that left the editable states |
| `PeriodRuns.RunsStayOrderly` | massingbill/services/application.py:154-230 | over every interleaving of openers with all other steps in which payments go to issued applications: numbers dense from 1, at most one editable application and it is the last, live periods disjoint and ordered by number |
| `PeriodRuns.PaymentKeepsOrderExactlyWhen` | massingbill/services/payments.py:20-73 | a closing payment keeps that order exactly when it does not revive a voided period whose dates are taken, by another period or by an opener in flight |
| `PeriodRuns.SnapshotsNeverDrift` | massingbill/services/application.py:701-769 | in every state reached with payments on issued applications only, every issued fingerprint equals the one frozen at submission and the snapshot rules are silent |
| `PeriodRuns.PaymentKeepsRecordsExactlyWhen` | massingbill/services/payments.py:20-73 | a closing payment on a voided application keeps the rules silent exactly when its snapshot is its present figures |
| `CarryForwardRuns.CarryIsHistory` | massingbill/services/application.py:289-302 | what `_carry_forward` reads for an item at any position, the next opening included, is the sum of column E over all earlier issued applications |
| `CarryForwardRuns.OpeningReadsHistory` | massingbill/services/application.py:154-203 | an opener reads, for every item, everything ever billed for it |
| `CarryForwardRuns.CertificatesAreHistory` | massingbill/services/application.py:397-400 | what line 7 is computed from, at an opening and at the gate, is the sum of earlier certified payments |
| `CarryForwardRuns.ColumnDOverRuns` | massingbill/services/application.py:289-302 | over every run under PaymentsOnIssued, VoidsOnLatest and ItemsPersist, column D of every issued line is its billing history |
| `CarryForwardRuns.Line7OverRuns` | massingbill/models/application.py:139-166 | over every run under PaymentsOnIssued, VoidsOnLatest and CertifiesLatest, line 7 is the sum of earlier certified payments |
| `CarryForwardRuns.Line4IsAllWorkPlusStored` | massingbill/services/application.py:289-389 | under the hypotheses of ColumnDOverRuns, line 4 of every issued application is all work ever billed plus the material stored now |
| `CarryForwardRuns.PaymentsTelescope` | massingbill/models/application.py:139-166 | under the hypotheses of Line7OverRuns, with no certificate on file the payments requested sum to the latest line 6 |
| `CarryForwardRuns.VoidKeepsColumnDExactlyWhen` | massingbill/services/application.py:612-629 | voiding keeps column D right if and only if the voided sheet billed nothing on the items of later issued ones |
| `CarryForwardRuns.VoidKeepsLine7ExactlyWhen` | massingbill/services/application.py:612-629 | voiding keeps line 7 right if and only if nothing later is issued or nothing was certified on it |
| `CarryForwardRuns.CertifyKeepsLine7ExactlyWhen` | massingbill/services/application.py:570-609 | certifying keeps line 7 right if and only if nothing later is issued or the amount is what already stood |
| `CarryForwardRuns.PaymentKeepsColumnDExactlyWhen` | massingbill/services/payments.py:20-73 | a closing payment on a voided application keeps column D right if and only if its own column D is its history and it billed nothing on the items of later issued ones |
| `CarryForwardRuns.PaymentKeepsLine7ExactlyWhen` | massingbill/services/payments.py:20-73 | and line 7 if and only if its own line 7 is what was certified before it and nothing later is issued or nothing was certified on it |
| `CarryForwardRuns.CarryIsHistoryExactlyWhen` | massingbill/services/application.py:289-302 | with no promise about item numbers, what is carried to an item is its history if and only if the previous issued sheet has all the work of the item on its last row with it, or the item is not there and was never billed |
| `CarryForwardRuns.SubmitKeepsColumnDExactlyWhen` | massingbill/services/application.py:514-567 | so a submission keeps column D right if and only if every item of its sheet carries over in that sense |
| `ScheduleEngine.Ledger.StartFirstSchedule` | massingbill/services/sov.py:51-81 | refused when any schedule exists, otherwise one draft |
| `ScheduleEngine.Ledger.AddRow` | massingbill/services/sov.py:115-172 | refused in order off a draft, without a description, or when a row of the schedule has the number as typed; otherwise one row with a fresh id, the stripped number, the value as base and current, no adjustment and no order behind it |
| `ScheduleEngine.Ledger.UpdateRow` | massingbill/services/sov.py:175-205 | the one row with this id, on a draft: stripped number and base rewritten, current their sum with its adjustment; everything else on it and every other row unchanged |
| `ScheduleEngine.Ledger.DeleteRow` | massingbill/services/sov.py:208-227 | the one row with this id goes, from a draft and only if no order created it |
| `ScheduleEngine.Ledger.SaveContractSum` | massingbill/blueprints/projects.py:215-270 | the sum is rewritten as typed, whatever has been approved on it; only a sum that is not positive is refused (massingbill/blueprints/forms.py:240) |
| `ScheduleEngine.Ledger.ApproveRevision` | massingbill/services/sov.py:230-267 | only a draft with a row on it whose current values sum to the contract sum plus the approved orders; only its status changes |
| `ScheduleEngine.Ledger.Supersede` | massingbill/services/sov.py:270-330 | only the newest, approved revision: a new draft with each of its rows in order, under fresh ids and unchanged, and the old revision superseded |
| `ScheduleEngine.Ledger.ApprovedChangeOrders` | massingbill/services/change_order.py:255-266 | the sum of the amounts of the approved orders |
| `ScheduleEngine.Ledger.ScheduledTotal` | massingbill/services/change_order.py:269-275 | the sum of the base, adjustment or current values of the rows of one schedule |
| `ScheduleEngine.Ledger.StartChangeOrder` | massingbill/services/change_order.py:37-74 | a new draft order |
| `ScheduleEngine.Ledger.AppendToOrder` | massingbill/services/change_order.py:77-120 | refused in order for an unknown order or row, an order that is no draft, or no number to create; otherwise the line joins the order and its amount is the sum of its lines |
| `ScheduleEngine.Ledger.ApproveChangeOrder` | massingbill/services/change_order.py:123-202 | refused in order for an unknown order, one that is no draft or empty, a frozen schedule, or a line whose row is missing when its turn comes, and then nothing changes; otherwise every line lands in turn: a named row has its adjustment moved and its current value with it, a new one is appended with no base |
| `ScheduleEngine.Ledger.VoidChangeOrder` | massingbill/services/change_order.py:205-252 | an approved order comes off a draft schedule line by line: a row that is still there moves back, the last row the order created under that number goes; any other order is only marked void |
| `ScheduleEffects.TotalsAreSums` | massingbill/services/change_order.py:269-275 | the three totals of a schedule are the sums of its three columns |
| `ScheduleEffects.ApprovedIsSum` | massingbill/services/change_order.py:255-266 | line 2 by the first route is the sum over the approved orders |
| `ScheduleEffects.CopiesAre` | massingbill/services/sov.py:270-330 | the rows of a revision are those of the schedule it replaces, in order and unchanged but for id and schedule |
| `ScheduleRuns.RunsStayTied` | massingbill/services/change_order.py:123-275 | over every run under the stated hypotheses: one live schedule and it is the newest, every current value is base plus adjustment, and `adjustment_total` equals `approved_total` |
| `ScheduleRuns.ApprovalKeepsTieExactlyWhen` | massingbill/services/change_order.py:123-202 | approving keeps the two totals equal if and only if what the order adjusts outside the schedule nets to zero |
| `ScheduleRuns.VoidKeepsTieExactlyWhen` | massingbill/services/change_order.py:205-252 | voiding keeps them equal if and only if the order amount is what the table shows before the call: its adjusting amounts on this schedule, plus what now stands on the rows it created here, of several under one number the last ones, as many as it has lines creating that number (no line adjusts a row of its own making: `RunsAdjustOthers`) |
| `ScheduleRuns.StandingOrderComesOffInFull` | massingbill/services/change_order.py:205-252 | that is the whole amount when every target is on this schedule and its rows here are one for each creating line, under the same numbers, and carry just those amounts |
| `ScheduleRuns.RemovalKeepsTieExactlyWhen` | massingbill/services/sov.py:208-227 | removing a line keeps them equal if and only if it carries no adjustment |
| `ScheduleRuns.RevisionKeepsTotal` | massingbill/services/sov.py:270-330 | a revision starts from the same base, adjustment and current totals |
| `ScheduleRuns.DraftIsApprovableExactlyWhen` | massingbill/services/sov.py:230-267 | a non-empty draft can be approved exactly when its base values total the original contract sum |
| `ScheduleRuns.FrozenRevisionsStay` | massingbill/services/sov.py:270-330 | no careful step changes a row of an approved or superseded revision |
| `ScheduleRuns.ApprovalIntoFreshRevision` | massingbill/blueprints/workflow.py:196-231 | approving an order straight into a new revision keeps the totals equal if and only if its adjusting lines net to zero, because they name the old rows |
| `ScheduleRuns.FreshRevisionIsApprovableExactlyWhen` | massingbill/blueprints/workflow.py:196-231 | the approval of that revision is then refused for every other order |
| `ScheduleRuns.RouteRefusesAnAddition` | massingbill/blueprints/workflow.py:196-227 | the smallest case: one approved line of 100 and an order adding 10 to it; the route revises, lands the order and is refused at the end |
| `ScheduleRuns.OneLineIsReached` | massingbill/services/sov.py:51-361 | that plan is reached from an empty contract in five steps |
| `ChangeOrderLaws.LandingMeans` | massingbill/services/change_order.py:123-202 | landing an order moves every row by what the order comes to on it and puts the rows it creates at the end, under fresh ids |
| `ChangeOrderLaws.ApprovalLeavesRevisionExactlyWhen` | massingbill/services/change_order.py:123-202 | approving an order leaves another revision unchanged if and only if the order nets to zero on each of its rows |
| `ChangeOrderLaws.RunsKeepSources` | massingbill/services/change_order.py:123-252 | over every careful run no row names as its creator an order that is still a draft |
| `ChangeOrderLaws.RunsAdjustOthers` | massingbill/services/change_order.py:77-252 | nor does an order ever adjust a row of its own making |
| `ChangeOrderLaws.ApprovedOrderStands` | massingbill/services/change_order.py:123-202 | approving an order whose targets are on the schedule establishes what a later void relies on, whatever numbers it creates lines under |
| `ChangeOrderLaws.StandingOrderGoesOnStanding` | massingbill/services/change_order.py:123-252 | and every step that minds the rows it created and adjusted keeps it |
| `ChangeOrderLaws.ApproveThenVoidRestores` | massingbill/services/change_order.py:123-252 | approving any order and then voiding it leaves the table of lines exactly as it was, row for row |
| `ChangeOrderLaws.AnyRowWillDo` | massingbill/services/change_order.py:219-240 | the lookup of a created row names no order: a void of an order with no more rows under any number than it creates lines ends in the same table whichever rows it finds |
| `ItemNumbers.AddKeepsDistinctExactlyWhen` | massingbill/services/sov.py:115-172 | the number is looked for as typed and stored stripped: the numbers of a schedule stay distinct if and only if the stripped one is free |
| `ItemNumbers.SpacedNumberRepeats` | massingbill/services/sov.py:121-143 | beside "1" the code accepts " 1" and stores a second "1" |
| `ItemNumbers.UpdateKeepsDistinctExactlyWhen` | massingbill/services/sov.py:175-205 | an update looks for nothing: the numbers stay distinct if and only if the number is kept or was free |
| `ItemNumbers.ApprovalKeepsDistinctExactlyWhen` | massingbill/services/change_order.py:123-202 | approving an order keeps the numbers of its schedule distinct if and only if it creates lines under numbers that are free, each once |
| `ItemNumbers.RevisionNumbers` | massingbill/services/sov.py:270-330 | a revision starts with the numbers of the schedule it supersedes, and changes no other |
| `ItemNumbers.RunsKeepNumbers` | massingbill/services/sov.py:115-330 | over every careful run whose steps meet those three conditions no schedule ever bears a number twice |
| `Billing.SumEditKeepsBalanceExactlyWhen` | massingbill/blueprints/projects.py:245-258 | saving the contract keeps an approved schedule in balance if and only if the sum stays as it is |
| `Billing.ApprovedSchedulesBalance` | massingbill/services/sov.py:230-267 | over every careful run in which no sum is changed under an approved schedule, its base values total the original contract sum, the last one saved |
| `Billing.CarefulRunsAreWellKept` | massingbill/services/sov.py:230-361 | every such run leaves the plan sound, tied and balanced |
| `Billing.CarefulSchedulesCanBeBilled` | massingbill/services/application.py:154-567 | on such a plan with its newest schedule approved, a period just opened on it with none of its orders late passes the submission gate after any entries |
| `JointRuns.JointRunsStayTogether` | massingbill/services/application.py:154-203 | at every point of a run in which schedules, orders, the sum and periods move together, the plan is well kept and the period engine reads the revision in force, its approved orders and its sum |
| `JointRuns.EveryOpeningCanBeBilled` | massingbill/services/application.py:154-567 | so at any point of such a run where a period may be opened with no approved order dated after it, that period passes the gate after any entries |
| `JointRuns.ItemsPersistInJointRuns` | massingbill/services/application.py:289-302 | if each approval finds the numbers distinct and those of the revision in force still there, item numbers persist over the run as `ColumnDOverRuns` needs |
| `JointRuns.ColumnDOverJointRuns` | massingbill/services/application.py:289-302 | and column D of every issued line is its billing history at every point of the run |
| `AuditChain.Verify` | massingbill/services/audit.py:149-187 | accepts exactly the intact chains and otherwise reports the first offending event and which of the three checks it fails |
| `AuditChain.AuditLog.Last` | massingbill/services/audit.py:77-122 | the event with the highest sequence |
| `AuditChain.AuditLog.PrepareEvent` | massingbill/services/audit.py:77-122 | the event `record` builds: one above the highest sequence, linked to its hash, the input as given, the time cut to the second, the digest of the payload |
| `AuditChain.AuditLog.InsertEvent` | massingbill/models/audit.py:49-49 | the insert, refused when the unique (organization, sequence) index holds the number |
| `AuditChain.AcceptedExactlyWhenRecorded` | massingbill/services/audit.py:77-187 | a chain of one organization is accepted if and only if `record` can have written it, times in whole seconds |
| `AuditChain.InterleavingsStayIntact` | massingbill/services/audit.py:77-122 | any interleaving of recorders leaves an accepted chain |
| `AuditChain.LastHashFixesHistory` | massingbill/models/audit.py:75-97 | with an injective digest, two accepted chains ending in the same hash record the same events throughout, field by field |
| `AuditChain.RewritingIsDetected` | massingbill/services/audit.py:149-187 | changing any field of an event before the last, the time by a second or more, is reported at that event, or at the next if its hash was forged |
| `AuditChain.PayloadCoversTheRecord` | massingbill/models/audit.py:75-97 | two events share a payload if and only if organization, sequence, previous hash, actor (a missing one as empty), all eight details and the second of the time are equal |
| `AuditChain.RewritingTheLastShows` | massingbill/services/audit.py:149-187 | changing any of these on the last event without changing its hash is reported there |
| `AuditChain.RemovalIsDetected` | massingbill/services/audit.py:149-187 | removing an event before the last is reported as a gap exactly there |
| `AuditChain.PrefixIntact` | massingbill/services/audit.py:149-187 | cutting events off the end is not detected |
| `Deadlines.AddDays` | massingbill/services/deadlines.py:173-190 | the loop ends on the day that many business days later and equals the closed form; calendar days add |
| `Deadlines.CalendarIsAnchored` | massingbill/services/deadlines.py:173-190 | ordinals stand for the proleptic calendar: day 1 is a Monday, weeks repeat, and Saturday and Sunday alone are not business days |
| `Deadlines.BusinessDayIsUnique` | massingbill/services/deadlines.py:173-190 | only one date is that many business days away |
| `Deadlines.BusinessDaysAdd` | massingbill/services/deadlines.py:173-190 | adding a and then b business days is adding a + b |
| `Deadlines.MoreDaysLater` | massingbill/services/deadlines.py:173-190 | more days end strictly later |
| `Deadlines.ClosedFormIsRight` | massingbill/services/deadlines.py:173-190 | whole weeks of five and the rest, over a weekend if it runs past Friday, is the business day counted one by one; weekend starts included |
| `Webhooks.Outbox.DueNow` | massingbill/services/webhooks.py:263-276 | distinct due deliveries, earliest next attempt first, cut off at the limit with nothing earlier left out |
| `Webhooks.Outbox.Attempt` | massingbill/services/webhooks.py:279-339 | the delivery ends delivered exactly on an answer from 200 to 299, abandoned exactly on a failure that uses up the attempts, otherwise failed with its next attempt a back-off after the answer; the failures in a row return to zero or rise by one, and the endpoint is disabled once at the limit; the tally counts it |
| `Webhooks.Outbox.Drain` | massingbill/services/webhooks.py:279-339 | attempts exactly the due list in order, each attempt as `AttemptOne` says |
| `Webhooks.SelectionIsDueList` | massingbill/services/webhooks.py:263-276 | sorting the due deliveries and cutting at the limit selects a due list |
| `Webhooks.AttemptMeans` | massingbill/services/webhooks.py:279-339 | what one attempt does to a row and to its subscription, by the status code alone |
| `Webhooks.BackoffMeans` | massingbill/services/webhooks.py:254-260 | 1, 2, 4, 8, 16 and 32 minutes after the first six attempts, then hourly |
| `WebhookRuns.EachEndsAsAnswered` | massingbill/services/webhooks.py:279-339 | after a drain each listed delivery stands as its own answer left it |
| `WebhookRuns.NewDeliveriesAreDueAtOnce` | massingbill/services/webhooks.py:171-212 | a new delivery joins the others untried and is due from its arrival on, and not before |
| `WebhookRuns.EachAttemptedOnce` | massingbill/services/webhooks.py:279-339 | a drain attempts each listed delivery once and leaves every other alone |
| `WebhookRuns.TallyCountsAttempts` | massingbill/services/webhooks.py:279-339 | each tally figure is the number of listed deliveries left at that status, and together they count every attempt |
| `WebhookRuns.RunsStayOnSchedule` | massingbill/services/webhooks.py:254-339 | over every run with a monotone clock attempts never exceed the maximum and consecutive posts are a back-off apart |
| `WebhookRuns.LaterAttempts` | massingbill/services/webhooks.py:254-260 | attempt j comes at least 2^(j-1) - 1 minutes after the first for j up to 7, then an hour more for each |
| `WebhookRuns.DrainUsesUpAttempts` | massingbill/services/webhooks.py:279-339 | every attempt uses up at least one of the attempts still allowed |
| `WebhookRuns.DrainsRunDry` | massingbill/services/webhooks.py:279-339 | so a drain never makes more attempts than remain |
| `WebhookRuns.ClosedStaysClosed` | massingbill/services/webhooks.py:263-339 | one step never touches a delivered or abandoned delivery |
| `WebhookRuns.ClosedForGood` | massingbill/services/webhooks.py:263-339 | nor does the rest of any run |
| `WebhookRuns.FailingEndpointsAreDisabled` | massingbill/services/webhooks.py:279-339 | over every run a subscription still enabled is short of the failure limit, and a disabled one keeps its date |
| `Subcontracts.Subcontract.constructor` | massingbill/services/subcontracts.py:32-86 | a draft subcontract with no billing and no adjustment |
| `Subcontracts.Subcontract.ExecuteContract` | massingbill/services/subcontracts.py:89-93 | marks it executed |
| `Subcontracts.Subcontract.ReceiveBilling` | massingbill/services/subcontracts.py:157-225 | the guards in order, and the billing with retainage and previous payments computed here |
| `Subcontracts.Subcontract.ApproveBilling` | massingbill/services/subcontracts.py:228-261 | only a received billing, never for more than is due |
| `Subcontracts.Subcontract.RejectBilling` | massingbill/services/subcontracts.py:264-280 | only a received billing |
| `Subcontracts.NewBillingTakesOffAllApprovals` | massingbill/services/subcontracts.py:131-154 | a new billing is numbered above all others and takes off exactly what has been approved so far |
| `Subcontracts.BillingIsReceived` | massingbill/services/subcontracts.py:131-225 | a billing as received: one above the highest number, as claimed, withheld to the nearest cent at the rate of the subcontract or at nothing when final, less the sum of what the approved and paid ones moved |
| `Subcontracts.ApprovalsStayWithinLastBilling` | massingbill/services/subcontracts.py:140-261 | over every run with one billing open at a time, approvals to date never exceed completed plus stored less retainage on the last approved billing |
| `Subcontracts.ApprovalsStayWithinValue` | massingbill/services/subcontracts.py:140-261 | nor, with non-negative amounts and rate, the subcontract value |
| `Subcontracts.FinalBillingSettlesExactlyWhen` | massingbill/services/subcontracts.py:228-261 | a final billing brings approvals to exactly completed plus stored if and only if it is approved in full |
| `Subcontracts.ApprovalStaysWithinExactlyWhen` | massingbill/services/subcontracts.py:228-261 | in any state, approving keeps approvals within the billing if and only if the amount fits what is due less what was approved since it was received |
| `Subcontracts.TwoOpenBillingsBothPay` | massingbill/services/subcontracts.py:157-261 | the same claim received twice before either is resolved is paid twice, for every claim |
| `Subcontracts.ValueCanBePaidTwice` | massingbill/services/subcontracts.py:157-261 | one subcontract where that is twice its value |

## Left out

- MoneyText.ParseMoney: NaN, infinities and non-ASCII digits are not modelled, nor are decimals beyond the exponent range of the context, which has a million digits.
- PeriodEngine.Contract.BeginOpening: plan limits are left out, and all reads of an opening see one snapshot; with a read per statement a commit in between can escape the unique constraint.
- PeriodEngine.Contract.SubmitApplication: stored-material, waiver, compliance, party and deadline findings only make submission stricter and enter as the parameter `otherErrors`, the cap finding through `capBlocks`; the digest of the frozen payload is the payload itself, so that equal digests mean equal figures.
- PeriodEngine.Contract.RecordPayment: whether a payment closes the period is the parameter `closes`, because the sum it depends on is read after the row was added and depends on when the session flushes.
- ScheduleEngine.Ledger.DeleteRow: the foreign key that clears the target of an order line when its row is deleted (massingbill/models/change.py:128), on databases that enforce it, is not modelled; the order line keeps naming a row that is gone, and approving its order is refused.
- ScheduleEngine.Ledger.VoidChangeOrder: of several rows the order created under one number the model takes the last, where the lookup of the code (massingbill/services/change_order.py:221-231) names no order. `AnyRowWillDo` says when it makes no difference; elsewhere, after created rows have been renumbered, `VoidKeepsTieExactlyWhen` speaks of the last ones.
- ScheduleEngine.Ledger.StartChangeOrder: order numbers, and so the refusal of a duplicate one, are left out.
- ScheduleEngine.Ledger.ApproveChangeOrder: the approval date and the application an order applies to are not stored with it; they appear on the orders of a contract in `Periods`.
- ScheduleEngine.Ledger.AppendToOrder: descriptions and codes are left out.
- AuditChain.AuditLog.PrepareEvent: JSON encoding and SHA-256 are one injective function; one organization per chain.
- Deadlines.AddDays: dates are unbounded ordinals, so the overflow past year 9999 is not modelled.
- Webhooks.Outbox.Drain: each attempt reads the clock once after the answer; signatures, payloads and the audit event of a disabled endpoint are left out.
- Subcontracts.Subcontract.constructor: the refusals of a non-positive amount and of a duplicate number are left out.
- Subcontracts.Subcontract.ReceiveBilling: the subcontract's own lines and the link to a prime application are left out.
- The other fields of the contract form: its retainage rates are the `NewRule` step of `Periods`, its flags bear only on rules outside this model.
- Plan limits, permissions, notifications and audit calls inside the billing services: no effect on the money state.
- Text fields, citations and messages of findings: only rule, severity, expected, actual and item are kept.
- `to_decimal`, `format_bp`, `parse_bp`, reconciliation reports and totals checks: they would only add easy members.
- Persistence, rendering, exports, web forms and the command line.
