/** Billings received from a subcontractor, and what approving them adds up to. */
module Subcontracts {
  import opened Outcomes
  import opened Rounding
  import opened Sums

  datatype SubcontractStatus = Draft | Executed | Complete | Terminated

  datatype BillingStatus = Preparing | Received | Approved | Rejected | Paid | Void

  datatype Billing = Billing(
    number: int, status: BillingStatus, completed: int, stored: int, retainage: int, previous: int, due: int,
    approved: Option<int>, isFinal: bool)
  {
    function Total(): int { completed + stored }

    /** What actually moves: the approved amount where there is one. */
    function ApprovedOrBilled(): int {
      if approved.Some? then approved.value else due
    }

    predicate Settled() { status.Approved? || status.Paid? }
  }

  // The stored subcontract.
  datatype Account = Account(
    status: SubcontractStatus, original: int, coAdjustment: int, rate: int, billings: seq<Billing>)
  {
    function Value(): int { original + coAdjustment }
  }

  datatype Claim = Claim(periodStart: int, periodEnd: int, completed: int, stored: int, isFinal: bool)

  function HighestNumber(billings: seq<Billing>): Option<int> {
    if |billings| == 0 then None
    else
      var rest, last := HighestNumber(billings[..|billings| - 1]), billings[|billings| - 1].number;
      if rest.Some? && rest.value > last then rest else Some(last)
  }

  function NextNumber(billings: seq<Billing>): int {
    var highest := HighestNumber(billings);
    (if highest.Some? then highest.value else 0) + 1
  }

  /** Everything approved on the billings numbered before this one. */
  function PreviousPaid(billings: seq<Billing>, before: int): int {
    if |billings| == 0 then 0
    else
      var last := billings[|billings| - 1];
      PreviousPaid(billings[..|billings| - 1], before)
      + if last.number < before && last.Settled() then last.ApprovedOrBilled() else 0
  }

  function ApprovedToDate(billings: seq<Billing>): int {
    if |billings| == 0 then 0
    else
      var last := billings[|billings| - 1];
      ApprovedToDate(billings[..|billings| - 1]) + if last.Settled() then last.ApprovedOrBilled() else 0
  }

  // The retainage the subcontract says is withheld; a final billing releases all of it.
  function RateOn(account: Account, isFinal: bool): int {
    if isFinal then 0 else account.rate
  }

  function BillingFor(account: Account, claim: Claim): Billing {
    var number := NextNumber(account.billings);
    var total := claim.completed + claim.stored;
    var retainage := ApplyBp(total, RateOn(account, claim.isFinal));
    var previous := PreviousPaid(account.billings, number);
    Billing(number, Received, claim.completed, claim.stored, retainage, previous, total - retainage - previous,
            None, claim.isFinal)
  }

  datatype Step =
    | Execute
    | Receive(claim: Claim)
    | Approve(k: nat, amount: Option<int>)
    | Reject(k: nat)

  function Try(account: Account, step: Step): Result<Account> {
    match step
    case Execute => Ok(account.(status := Executed))
    case Receive(claim) =>
      if !account.status.Executed? && !account.status.Draft? then Err(ConflictError)
      else if claim.periodEnd < claim.periodStart then Err(ValidationError)
      else if claim.completed + claim.stored > account.Value() then Err(ValidationError)
      else Ok(account.(billings := account.billings + [BillingFor(account, claim)]))
    case Approve(k, amount) =>
      if k >= |account.billings| then Err(NotFoundError)
      else
        var billing := account.billings[k];
        var approved := if amount.Some? then amount.value else billing.due;
        if !billing.status.Received? then Err(ConflictError)
        else if approved > billing.due then Err(ValidationError)
        else Ok(account.(billings := account.billings[k := billing.(approved := Some(approved), status := Approved)]))
    case Reject(k) =>
      if k >= |account.billings| then Err(NotFoundError)
      else if !account.billings[k].status.Received? then Err(ConflictError)
      else Ok(account.(billings := account.billings[k := account.billings[k].(status := Rejected)]))
  }

  // A refused call leaves the subcontract as it was.
  function After(account: Account, step: Step): Account {
    match Try(account, step)
    case Ok(next) => next
    case Err(_) => account
  }

  datatype Answer = Done | Refused(error: Error)

  function AnswerTo(r: Result<Account>): Answer {
    match r
    case Ok(_) => Done
    case Err(e) => Refused(e)
  }

  // What each billing has moved: the approved amount, or the amount due where none was noted, of the approved and paid.
  function Moves(billings: seq<Billing>): (r: seq<int>)
    ensures |r| == |billings|
  {
    seq(|billings|, k requires 0 <= k < |billings| =>
      if billings[k].status != Approved && billings[k].status != Paid then 0
      else if billings[k].approved.Some? then billings[k].approved.value
      else billings[k].due)
  }

  lemma {:induction false} ApprovedIsSum(billings: seq<Billing>)
    ensures ApprovedToDate(billings) == Sum(Moves(billings))
  {
    if |billings| > 0 {
      ApprovedIsSum(billings[..|billings| - 1]);
      assert Moves(billings)[..|billings| - 1] == Moves(billings[..|billings| - 1]);
    }
  }

  lemma {:induction false} HighestIs(billings: seq<Billing>)
    ensures HighestNumber(billings).None? <==> billings == []
    ensures HighestNumber(billings).Some? ==>
      && (forall k :: 0 <= k < |billings| ==> billings[k].number <= HighestNumber(billings).value)
      && exists k :: 0 <= k < |billings| && billings[k].number == HighestNumber(billings).value
  {
    if |billings| > 0 {
      var n := |billings| - 1;
      HighestIs(billings[..n]);
      assert forall k :: 0 <= k < n ==> billings[..n][k] == billings[k];
      if n > 0 {
        var k :| 0 <= k < n && billings[..n][k].number == HighestNumber(billings[..n]).value;
        assert billings[k].number == HighestNumber(billings[..n]).value;
      }
    }
  }

  /**
   * A billing as it is received: numbered after the highest, as claimed, withheld at the rate of the subcontract or at
   * nothing when it is the final one, less everything approved so far.
   */
  ghost predicate IsReceived(before: seq<Billing>, claim: Claim, rate: int, billing: Billing) {
    var total := claim.completed + claim.stored;
    && (before == [] ==> billing.number == 1)
    && (forall k :: 0 <= k < |before| ==> before[k].number < billing.number)
    && (before != [] ==> exists k :: 0 <= k < |before| && billing.number == before[k].number + 1)
    && billing.status == Received && billing.approved == None && billing.isFinal == claim.isFinal
    && billing.completed == claim.completed && billing.stored == claim.stored
    && NearestAwayFromZero(billing.retainage, total * (if claim.isFinal then 0 else rate), BP_SCALE)
    && billing.previous == Sum(Moves(before))
    && billing.due == total - billing.retainage - billing.previous
  }

  lemma {:induction false} BillingIsReceived(account: Account, claim: Claim)
    ensures IsReceived(account.billings, claim, account.rate, BillingFor(account, claim))
  {
    var billing := BillingFor(account, claim);
    HighestIs(account.billings);
    NewBillingTakesOffAllApprovals(account, claim);
    ApprovedIsSum(account.billings);
    ApplyBpRounds(claim.completed + claim.stored, if claim.isFinal then 0 else account.rate);
  }

  class Subcontract {
    var status: SubcontractStatus
    const original: int
    const coAdjustment: int
    const rate: int
    var billings: seq<Billing>

    ghost function View(): Account
      reads this
    {
      Account(status, original, coAdjustment, rate, billings)
    }

    constructor (original: int, rate: int)
      ensures View() == Account(Draft, original, 0, rate, [])
    {
      status, billings := Draft, [];
      this.original, coAdjustment, this.rate := original, 0, rate;
    }

    method ExecuteContract()
      modifies this
      ensures View() == After(old(View()), Execute)
      ensures status == Executed && billings == old(billings)
    {
      status := Executed;
    }

    method ReceiveBilling(claim: Claim) returns (answer: Answer)
      modifies this
      ensures View() == After(old(View()), Receive(claim))
      ensures answer == AnswerTo(Try(old(View()), Receive(claim)))
      ensures answer ==
        if old(status) != Executed && old(status) != Draft then Refused(ConflictError)
        else if claim.periodEnd < claim.periodStart then Refused(ValidationError)
        else if claim.completed + claim.stored > original + coAdjustment then Refused(ValidationError)
        else Done
      ensures status == old(status) && (!answer.Done? ==> billings == old(billings))
      ensures answer.Done? ==>
        && |billings| == |old(billings)| + 1 && billings == old(billings) + [billings[|billings| - 1]]
        && IsReceived(old(billings), claim, rate, billings[|billings| - 1])
    {
      BillingIsReceived(View(), claim);
      if !status.Executed? && !status.Draft? {
        return Refused(ConflictError);
      }
      if claim.periodEnd < claim.periodStart {
        return Refused(ValidationError);
      }
      var total := claim.completed + claim.stored;
      if total > original + coAdjustment {
        return Refused(ValidationError);
      }
      var number := NextNumber(billings);
      var retainage := ApplyBp(total, if claim.isFinal then 0 else rate);
      var previous := PreviousPaid(billings, number);
      billings := billings + [Billing(
        number, Received, claim.completed, claim.stored, retainage, previous, total - retainage - previous,
        None, claim.isFinal)];
      return Done;
    }

    method ApproveBilling(k: nat, amount: Option<int>) returns (answer: Answer)
      modifies this
      ensures View() == After(old(View()), Approve(k, amount))
      ensures answer == AnswerTo(Try(old(View()), Approve(k, amount)))
      ensures answer ==
        if k >= |old(billings)| then Refused(NotFoundError)
        else if old(billings)[k].status != Received then Refused(ConflictError)
        else if amount.Some? && amount.value > old(billings)[k].due then Refused(ValidationError)
        else Done
      ensures status == old(status) && (!answer.Done? ==> billings == old(billings))
      ensures answer.Done? ==>
        billings == old(billings)[k := old(billings)[k].(
          status := Approved, approved := if amount.Some? then amount else Some(old(billings)[k].due))]
    {
      if k >= |billings| {
        return Refused(NotFoundError);
      }
      if !billings[k].status.Received? {
        return Refused(ConflictError);
      }
      var approved := if amount.Some? then amount.value else billings[k].due;
      if approved > billings[k].due {
        return Refused(ValidationError);
      }
      billings := billings[k := billings[k].(approved := Some(approved))];
      billings := billings[k := billings[k].(status := Approved)];
      return Done;
    }

    method RejectBilling(k: nat) returns (answer: Answer)
      modifies this
      ensures View() == After(old(View()), Reject(k))
      ensures answer == AnswerTo(Try(old(View()), Reject(k)))
      ensures answer ==
        if k >= |old(billings)| then Refused(NotFoundError)
        else if old(billings)[k].status != Received then Refused(ConflictError)
        else Done
      ensures status == old(status)
      ensures billings ==
        if answer.Done? then old(billings)[k := old(billings)[k].(status := Rejected)] else old(billings)
    {
      if k >= |billings| {
        return Refused(NotFoundError);
      }
      if !billings[k].status.Received? {
        return Refused(ConflictError);
      }
      billings := billings[k := billings[k].(status := Rejected)];
      return Done;
    }
  }

  // ---------------------------------------------------------------------------------------------
  // Adding up approvals
  // ---------------------------------------------------------------------------------------------

  function Moved(billing: Billing): int {
    if billing.Settled() then billing.ApprovedOrBilled() else 0
  }

  lemma {:induction false} ApprovedAfterUpdate(billings: seq<Billing>, k: nat, next: Billing)
    requires k < |billings|
    ensures ApprovedToDate(billings[k := next]) == ApprovedToDate(billings) - Moved(billings[k]) + Moved(next)
  {
    var n := |billings| - 1;
    if k == n {
      assert billings[k := next][..n] == billings[..n];
    } else {
      ApprovedAfterUpdate(billings[..n], k, next);
      assert billings[k := next][..n] == billings[..n][k := next];
    }
  }

  lemma {:induction false} NumbersBelow(billings: seq<Billing>, before: int)
    requires forall k :: 0 <= k < |billings| ==> billings[k].number < before
    ensures PreviousPaid(billings, before) == ApprovedToDate(billings)
  {
    if |billings| > 0 {
      NumbersBelow(billings[..|billings| - 1], before);
    }
  }

  lemma {:induction false} NumbersAreBelowNext(billings: seq<Billing>, k: nat)
    requires k < |billings|
    ensures billings[k].number < NextNumber(billings)
  {
    if k < |billings| - 1 {
      NumbersAreBelowNext(billings[..|billings| - 1], k);
    }
  }

  /** A new billing takes off exactly what has been approved so far. */
  lemma NewBillingTakesOffAllApprovals(account: Account, claim: Claim)
    ensures BillingFor(account, claim).previous == ApprovedToDate(account.billings)
    ensures forall k :: 0 <= k < |account.billings| ==> account.billings[k].number < BillingFor(account, claim).number
  {
    forall k | 0 <= k < |account.billings|
      ensures account.billings[k].number < NextNumber(account.billings)
    {
      NumbersAreBelowNext(account.billings, k);
    }
    NumbersBelow(account.billings, NextNumber(account.billings));
  }

  // ---------------------------------------------------------------------------------------------
  // Runs in which a billing is received only after the earlier ones are resolved
  // ---------------------------------------------------------------------------------------------

  function Run(account: Account, steps: seq<Step>): Account {
    if |steps| == 0 then account else After(Run(account, steps[..|steps| - 1]), steps[|steps| - 1])
  }

  ghost predicate NothingOpen(billings: seq<Billing>) {
    forall k :: 0 <= k < |billings| ==> !billings[k].status.Received?
  }

  ghost predicate OneAtATime(account: Account, steps: seq<Step>) {
    |steps| > 0 ==>
      && OneAtATime(account, steps[..|steps| - 1])
      && (steps[|steps| - 1].Receive? ==> NothingOpen(Run(account, steps[..|steps| - 1]).billings))
  }

  ghost predicate Sound(account: Account, k: nat)
    requires k < |account.billings|
  {
    var billing := account.billings[k];
    && billing.Total() <= account.Value()
    && billing.retainage == ApplyBp(billing.Total(), RateOn(account, billing.isFinal))
    && billing.previous == ApprovedToDate(account.billings[..k])
    && billing.due == billing.Total() - billing.retainage - billing.previous
    && (billing.status.Received? || billing.status.Approved? || billing.status.Rejected?)
    && (billing.status.Received? ==> k == |account.billings| - 1)
    && (billing.status.Approved? ==> billing.approved.Some? && billing.approved.value <= billing.due)
  }

  ghost predicate Serial(account: Account) {
    forall k :: 0 <= k < |account.billings| ==> Sound(account, k)
  }

  lemma StepStaysSerial(account: Account, step: Step)
    requires Serial(account) && (step.Receive? ==> NothingOpen(account.billings))
    ensures Serial(After(account, step))
  {
    var next := After(account, step);
    if step.Receive? {
      NewBillingTakesOffAllApprovals(account, step.claim);
    }
    forall k | 0 <= k < |next.billings|
      ensures Sound(next, k)
    {
      if k < |account.billings| {
        assert Sound(account, k);
      }
      if !step.Execute? && !step.Receive? && step.k < |account.billings| {
        assert Sound(account, step.k);
      }
      assert next.billings[..k] == if k < |account.billings| then account.billings[..k] else account.billings;
    }
  }

  lemma {:induction false} RunsStaySerial(account: Account, steps: seq<Step>)
    requires account.billings == [] && OneAtATime(account, steps)
    ensures Serial(Run(account, steps))
    ensures Run(account, steps).Value() == account.Value() && Run(account, steps).rate == account.rate
  {
    if |steps| > 0 {
      RunsStaySerial(account, steps[..|steps| - 1]);
      StepStaysSerial(Run(account, steps[..|steps| - 1]), steps[|steps| - 1]);
    }
  }

  ghost predicate LastApproved(billings: seq<Billing>, k: nat) {
    && k < |billings| && billings[k].status.Approved?
    && forall j :: k < j < |billings| ==> !billings[j].Settled()
  }

  lemma {:induction false} NothingMovesLater(billings: seq<Billing>, k: nat)
    requires k <= |billings| && forall j :: k <= j < |billings| ==> !billings[j].Settled()
    ensures ApprovedToDate(billings) == ApprovedToDate(billings[..k])
  {
    if k < |billings| {
      NothingMovesLater(billings[..|billings| - 1], k);
      assert billings[..|billings| - 1][..k] == billings[..k];
    } else {
      assert billings[..k] == billings;
    }
  }

  lemma SerialTotal(account: Account, k: nat)
    requires Serial(account) && LastApproved(account.billings, k)
    ensures account.billings[k].approved.Some?
    ensures ApprovedToDate(account.billings) == account.billings[k].previous + account.billings[k].approved.value
  {
    assert Sound(account, k);
    NothingMovesLater(account.billings, k + 1);
    assert account.billings[..k + 1][..k] == account.billings[..k];
  }

  /** Approvals never pass completed plus stored less retainage on the last approved billing. */
  lemma ApprovalsStayWithinLastBilling(account: Account, steps: seq<Step>, k: nat)
    requires account.billings == [] && OneAtATime(account, steps)
    requires LastApproved(Run(account, steps).billings, k)
    ensures var now := Run(account, steps);
      ApprovedToDate(now.billings) <= now.billings[k].Total() - now.billings[k].retainage
  {
    RunsStaySerial(account, steps);
    assert Sound(Run(account, steps), k);
    SerialTotal(Run(account, steps), k);
  }

  /** So, with non-negative amounts and rate, never the subcontract value. */
  lemma ApprovalsStayWithinValue(account: Account, steps: seq<Step>)
    requires account.billings == [] && OneAtATime(account, steps)
    requires account.Value() >= 0 && account.rate >= 0
    requires forall k :: 0 <= k < |Run(account, steps).billings| ==> Run(account, steps).billings[k].Total() >= 0
    ensures ApprovedToDate(Run(account, steps).billings) <= account.Value()
  {
    var now := Run(account, steps);
    RunsStaySerial(account, steps);
    if exists k: nat :: LastApproved(now.billings, k) {
      var k: nat :| LastApproved(now.billings, k);
      assert Sound(now, k);
      ApprovalsStayWithinLastBilling(account, steps, k);
      RetainageIsNotNegative(now.billings[k].Total(), RateOn(now, now.billings[k].isFinal));
    } else {
      NoneApproved(now, |now.billings|);
    }
  }

  lemma RetainageIsNotNegative(total: nat, rate: nat)
    ensures ApplyBp(total, rate) >= 0
  {
    ProductIsNatural(total, rate);
    ApplyBpIsMonotone(0, total, rate, rate);
  }

  lemma {:induction false} NoneApproved(account: Account, n: nat)
    requires Serial(account) && n <= |account.billings|
    requires forall j :: n <= j < |account.billings| ==> !account.billings[j].Settled()
    requires !exists k: nat :: LastApproved(account.billings, k)
    ensures ApprovedToDate(account.billings) == 0
  {
    if n == 0 {
      NothingMovesLater(account.billings, 0);
    } else {
      assert Sound(account, n - 1);
      assert !LastApproved(account.billings, n - 1);
      NoneApproved(account, n - 1);
    }
  }

  /** A final billing pays exactly completed plus stored if and only if it is approved in full. */
  lemma FinalBillingSettlesExactlyWhen(account: Account, steps: seq<Step>, k: nat, amount: Option<int>)
    requires account.billings == [] && OneAtATime(account, steps)
    requires k < |Run(account, steps).billings| && Run(account, steps).billings[k].isFinal
    requires Try(Run(account, steps), Approve(k, amount)).Ok?
    ensures var before := Run(account, steps);
      var after := Run(account, steps + [Approve(k, amount)]);
      ApprovedToDate(after.billings) == before.billings[k].Total()
      <==> amount.None? || amount.value == before.billings[k].due
  {
    var before := Run(account, steps);
    assert (steps + [Approve(k, amount)])[..|steps|] == steps;
    RunsStaySerial(account, steps);
    assert Sound(before, k);
    assert ApplyBp(before.billings[k].Total(), 0) == 0;
    var billing := before.billings[k];
    ApprovedAfterUpdate(before.billings, k, After(before, Approve(k, amount)).billings[k]);
    NothingMovesLater(before.billings, k);
  }

  // ---------------------------------------------------------------------------------------------
  // What the guards alone promise
  // ---------------------------------------------------------------------------------------------

  /**
   * In any state, approving a billing keeps approvals within what it claims in total exactly when the amount fits
   * in what it has due after taking off whatever was approved since it was received.
   */
  lemma ApprovalStaysWithinExactlyWhen(account: Account, k: nat, amount: Option<int>)
    requires Try(account, Approve(k, amount)).Ok?
    requires var billing := account.billings[k]; billing.due == billing.Total() - billing.retainage - billing.previous
    ensures var billing := account.billings[k];
      var approved := if amount.Some? then amount.value else billing.due;
      var since := ApprovedToDate(account.billings) - billing.previous;
      ApprovedToDate(After(account, Approve(k, amount)).billings) <= billing.Total() - billing.retainage
      <==> approved <= billing.due - since
  {
    ApprovedAfterUpdate(account.billings, k, After(account, Approve(k, amount)).billings[k]);
  }

  lemma RunOfFour(account: Account, a: Step, b: Step, c: Step, d: Step)
    ensures Run(account, [a, b, c, d]) == After(After(After(After(account, a), b), c), d)
  {
    assert [a, b, c, d][..3] == [a, b, c] && [a, b, c][..2] == [a, b] && [a, b][..1] == [a] && [a][..0] == [];
    assert Run(account, [a]) == After(account, a);
    assert Run(account, [a, b]) == After(After(account, a), b);
    assert Run(account, [a, b, c]) == After(After(After(account, a), b), c);
  }

  // The same claim received twice: neither billing takes the other off.
  lemma ReceivedTwice(account: Account, claim: Claim)
    requires account.billings == [] && Try(account, Receive(claim)).Ok?
    ensures var first := BillingFor(account, claim);
      && first.due == first.Total() - first.retainage
      && After(After(account, Receive(claim)), Receive(claim))
         == account.(billings := [first, first.(number := first.number + 1)])
  {
    var first := BillingFor(account, claim);
    var once := After(account, Receive(claim));
    assert once.billings == [first] && [first][..0] == [];
    assert HighestNumber([first]) == Some(first.number);
    NewBillingTakesOffAllApprovals(once, claim);
    assert ApprovedToDate([first]) == 0;
  }

  /** Two billings received before either is resolved are both approved in full, so the same work is paid twice. */
  lemma TwoOpenBillingsBothPay(account: Account, claim: Claim)
    requires account.billings == [] && Try(account, Receive(claim)).Ok?
    ensures var net := claim.completed + claim.stored - BillingFor(account, claim).retainage;
      var steps := [Receive(claim), Receive(claim), Approve(0, None), Approve(1, None)];
      ApprovedToDate(Run(account, steps).billings) == 2 * net
  {
    RunOfFour(account, Receive(claim), Receive(claim), Approve(0, None), Approve(1, None));
    ReceivedTwice(account, claim);
    var first := BillingFor(account, claim);
    var second := first.(number := first.number + 1);
    var both := account.(billings := [first, second]);
    assert ApprovedToDate([first, second]) == 0 by {
      assert [first, second][..1] == [first] && [first][..0] == [];
      assert ApprovedToDate([first]) == 0;
    }
    var half := After(both, Approve(0, None));
    ApprovedAfterUpdate(both.billings, 0, half.billings[0]);
    assert half.billings[1] == second;
    ApprovedAfterUpdate(half.billings, 1, After(half, Approve(1, None)).billings[1]);
  }

  /** One subcontract where that passes its value: nothing withheld and the whole value claimed twice. */
  lemma ValueCanBePaidTwice()
    ensures var account := Account(Executed, 100, 0, 0, []);
      var claim := Claim(0, 30, 100, 0, false);
      ApprovedToDate(Run(account, [Receive(claim), Receive(claim), Approve(0, None), Approve(1, None)]).billings)
      == 2 * account.Value()
  {
    TwoOpenBillingsBothPay(Account(Executed, 100, 0, 0, []), Claim(0, 30, 100, 0, false));
  }
}
