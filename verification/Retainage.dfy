/** Retainage: withheld line by line, then summed. The header is that sum and nothing else. */
module Retainage {
  import opened Outcomes
  import opened Rounding
  import opened Sums

  datatype Mode = Flat | Split | VariableLine | Stepped

  datatype Spec = Spec(
    mode: Mode, rateWork: int, rateStored: int,
    threshold: Option<int>, reducedRate: Option<int>, cap: Option<int>)

  // What one line contributes: columns D + E, column F, and its own rate if it has one.
  datatype Basis = Basis(work: int, stored: int, lineRate: Option<int>)

  datatype Withheld = Withheld(work: int, stored: int) {
    function Total(): int { work + stored }
  }

  datatype Retained = Retained(lines: seq<Withheld>, line5a: int, line5b: int, workRate: int) {
    function Total(): int { line5a + line5b }
  }

  function GetOr(o: Option<int>, default: int): int {
    match o
    case Some(v) => v
    case None => default
  }

  /** The rates in force this period, after any stepped reduction. */
  function EffectiveRates(rule: Spec, completedStored: int, contractSum: int): (int, int) {
    if rule.mode.Stepped? && rule.threshold.Some?
       && PercentOf(completedStored, contractSum) >= rule.threshold.value then
      (GetOr(rule.reducedRate, 0), GetOr(rule.reducedRate, 0))
    else
      (rule.rateWork, if rule.mode.Flat? then rule.rateWork else rule.rateStored)
  }

  // A line without its own rate is withheld at the contract rate, not at zero.
  function LineRates(rule: Spec, basis: Basis, rates: (int, int)): (int, int) {
    if rule.mode.VariableLine? then (GetOr(basis.lineRate, rule.rateWork), GetOr(basis.lineRate, rule.rateWork))
    else rates
  }

  function WithholdLine(rule: Spec, basis: Basis, rates: (int, int)): Withheld {
    var (work, stored) := LineRates(rule, basis, rates);
    Withheld(ApplyBp(basis.work, work), ApplyBp(basis.stored, stored))
  }

  function Billed(bases: seq<Basis>): int {
    if |bases| == 0 then 0 else Billed(bases[..|bases| - 1]) + bases[|bases| - 1].work + bases[|bases| - 1].stored
  }

  function WorkTotal(lines: seq<Withheld>): int {
    if |lines| == 0 then 0 else WorkTotal(lines[..|lines| - 1]) + lines[|lines| - 1].work
  }

  function StoredTotal(lines: seq<Withheld>): int {
    if |lines| == 0 then 0 else StoredTotal(lines[..|lines| - 1]) + lines[|lines| - 1].stored
  }

  function RatesFor(rule: Spec, bases: seq<Basis>, contractSum: int): (int, int) {
    EffectiveRates(rule, Billed(bases), contractSum)
  }

  function WithholdLines(rule: Spec, bases: seq<Basis>, rates: (int, int)): (r: seq<Withheld>)
    ensures |r| == |bases|
  {
    seq(|bases|, i requires 0 <= i < |bases| => WithholdLine(rule, bases[i], rates))
  }

  function Retain(rule: Spec, bases: seq<Basis>, contractSum: int): (r: Retained)
    ensures |r.lines| == |bases|
  {
    var rates := RatesFor(rule, bases, contractSum);
    var lines := WithholdLines(rule, bases, rates);
    Retained(lines, WorkTotal(lines), StoredTotal(lines), rates.0)
  }

  // The nearest cent to each half at its rate, half a cent going away from zero, so a credit reverses a charge.
  ghost predicate ChargedNearest(line: Withheld, basis: Basis, work: int, stored: int) {
    && NearestAwayFromZero(line.work, basis.work * work, BP_SCALE)
    && NearestAwayFromZero(line.stored, basis.stored * stored, BP_SCALE)
  }

  lemma {:induction false} ApplyBpCharges(basis: Basis, work: int, stored: int)
    ensures ChargedNearest(Withheld(ApplyBp(basis.work, work), ApplyBp(basis.stored, stored)), basis, work, stored)
  {
    ApplyBpRounds(basis.work, work);
    ApplyBpRounds(basis.stored, stored);
  }

  /** Withholds one line at its own rate under a per-line rule, and at the contract's rates under any other. */
  method WithholdOne(rule: Spec, basis: Basis, rates: (int, int)) returns (line: Withheld)
    ensures rule.mode.VariableLine? && basis.lineRate.Some? ==>
      ChargedNearest(line, basis, basis.lineRate.value, basis.lineRate.value)
    ensures rule.mode.VariableLine? && basis.lineRate.None? ==>
      ChargedNearest(line, basis, rule.rateWork, rule.rateWork)
    ensures !rule.mode.VariableLine? ==> ChargedNearest(line, basis, rates.0, rates.1)
  {
    if rule.mode.VariableLine? {
      var rate := if basis.lineRate.Some? then basis.lineRate.value else rule.rateWork;
      line := Withheld(ApplyBp(basis.work, rate), ApplyBp(basis.stored, rate));
      ApplyBpCharges(basis, rate, rate);
    } else {
      line := Withheld(ApplyBp(basis.work, rates.0), ApplyBp(basis.stored, rates.1));
      ApplyBpCharges(basis, rates.0, rates.1);
    }
  }

  /** Under every mode a line is withheld as `WithholdLine` says exactly when each half is charged nearest. */
  lemma {:induction false} EachHalfIsNearest(rule: Spec, basis: Basis, rates: (int, int), line: Withheld)
    ensures var (work, stored) := LineRates(rule, basis, rates);
      line == WithholdLine(rule, basis, rates) <==> ChargedNearest(line, basis, work, stored)
  {
    var (work, stored) := LineRates(rule, basis, rates);
    ApplyBpIsNearest(basis.work, work, line.work);
    ApplyBpIsNearest(basis.stored, stored, line.stored);
  }

  // ---------------------------------------------------------------------------------------------
  // What each mode withholds, in the terms of the contract
  // ---------------------------------------------------------------------------------------------

  // The contract reduces its rates from the threshold on; `billed` is everything completed and stored.
  predicate IsReduced(rule: Spec, billed: int, contractSum: int) {
    rule.mode.Stepped? && rule.threshold.Some? && PercentOf(billed, contractSum) >= rule.threshold.value
  }

  function ReducedRate(rule: Spec): int {
    if rule.reducedRate.Some? then rule.reducedRate.value else 0
  }

  /** One line under each of the four modes. */
  ghost predicate WithheldAsRuled(rule: Spec, reduced: bool, basis: Basis, line: Withheld) {
    match rule.mode
    case Flat => ChargedNearest(line, basis, rule.rateWork, rule.rateWork)
    case Split => ChargedNearest(line, basis, rule.rateWork, rule.rateStored)
    case Stepped =>
      if reduced then ChargedNearest(line, basis, ReducedRate(rule), ReducedRate(rule))
      else ChargedNearest(line, basis, rule.rateWork, rule.rateStored)
    case VariableLine =>
      if basis.lineRate.Some? then ChargedNearest(line, basis, basis.lineRate.value, basis.lineRate.value)
      else ChargedNearest(line, basis, rule.rateWork, rule.rateWork)
  }

  lemma {:induction false} LineAsRuled(rule: Spec, basis: Basis, billed: int, contractSum: int)
    ensures WithheldAsRuled(
      rule, IsReduced(rule, billed, contractSum), basis,
      WithholdLine(rule, basis, EffectiveRates(rule, billed, contractSum)))
  {
    var rates := LineRates(rule, basis, EffectiveRates(rule, billed, contractSum));
    ApplyBpCharges(basis, rates.0, rates.1);
  }

  // Everything completed and stored, line by line, and the two halves of what is withheld.
  function BilledOn(bases: seq<Basis>): (r: seq<int>)
    ensures |r| == |bases|
  {
    seq(|bases|, k requires 0 <= k < |bases| => bases[k].work + bases[k].stored)
  }

  function WorkHalves(lines: seq<Withheld>): (r: seq<int>)
    ensures |r| == |lines|
  {
    seq(|lines|, k requires 0 <= k < |lines| => lines[k].work)
  }

  function StoredHalves(lines: seq<Withheld>): (r: seq<int>)
    ensures |r| == |lines|
  {
    seq(|lines|, k requires 0 <= k < |lines| => lines[k].stored)
  }

  lemma {:induction false} BilledIsSum(bases: seq<Basis>)
    ensures Billed(bases) == Sum(BilledOn(bases))
  {
    if |bases| > 0 {
      BilledIsSum(bases[..|bases| - 1]);
      assert BilledOn(bases)[..|bases| - 1] == BilledOn(bases[..|bases| - 1]);
    }
  }

  lemma {:induction false} HalvesAreSums(lines: seq<Withheld>)
    ensures WorkTotal(lines) == Sum(WorkHalves(lines)) && StoredTotal(lines) == Sum(StoredHalves(lines))
  {
    if |lines| > 0 {
      var n := |lines| - 1;
      HalvesAreSums(lines[..n]);
      assert WorkHalves(lines)[..n] == WorkHalves(lines[..n]);
      assert StoredHalves(lines)[..n] == StoredHalves(lines[..n]);
    }
  }

  /**
   * What is withheld under every mode: line by line at the rates of the mode, work and stored material apart, and each
   * half of line 5 the sum of its own halves.
   */
  ghost predicate RetainsAsRuled(rule: Spec, bases: seq<Basis>, contractSum: int, r: Retained) {
    var reduced := IsReduced(rule, Sum(BilledOn(bases)), contractSum);
    && |r.lines| == |bases|
    && (forall k :: 0 <= k < |bases| ==> WithheldAsRuled(rule, reduced, bases[k], r.lines[k]))
    && r.line5a == Sum(WorkHalves(r.lines)) && r.line5b == Sum(StoredHalves(r.lines))
    && r.workRate == if reduced then ReducedRate(rule) else rule.rateWork
  }

  lemma {:induction false} LinesAsRuled(rule: Spec, bases: seq<Basis>, billed: int, contractSum: int, k: nat)
    requires k < |bases|
    ensures var lines := WithholdLines(rule, bases, EffectiveRates(rule, billed, contractSum));
      WithheldAsRuled(rule, IsReduced(rule, billed, contractSum), bases[k], lines[k])
  {
    LineAsRuled(rule, bases[k], billed, contractSum);
  }

  lemma {:induction false} WorkRateAsRuled(rule: Spec, billed: int, contractSum: int)
    ensures EffectiveRates(rule, billed, contractSum).0
      == if IsReduced(rule, billed, contractSum) then ReducedRate(rule) else rule.rateWork
  {
  }

  lemma {:induction false} RetainIsAsRuled(rule: Spec, bases: seq<Basis>, contractSum: int)
    ensures RetainsAsRuled(rule, bases, contractSum, Retain(rule, bases, contractSum))
  {
    BilledIsSum(bases);
    HalvesAreSums(Retain(rule, bases, contractSum).lines);
    WorkRateAsRuled(rule, Billed(bases), contractSum);
    forall k | 0 <= k < |bases|
      ensures WithheldAsRuled(
        rule, IsReduced(rule, Billed(bases), contractSum), bases[k], Retain(rule, bases, contractSum).lines[k])
    {
      LinesAsRuled(rule, bases, Billed(bases), contractSum, k);
    }
  }

  method Compute(rule: Spec, bases: seq<Basis>, contractSum: int) returns (r: Retained)
    ensures RetainsAsRuled(rule, bases, contractSum, r)
    ensures r == Retain(rule, bases, contractSum)
  {
    var completedStored := 0;
    for i := 0 to |bases|
      invariant completedStored == Billed(bases[..i])
    {
      assert bases[..i + 1][..i] == bases[..i];
      completedStored := completedStored + bases[i].work + bases[i].stored;
    }
    assert bases[..|bases|] == bases;
    var rates := EffectiveRates(rule, completedStored, contractSum);
    var lines, line5a, line5b := [], 0, 0;
    for i := 0 to |bases|
      invariant lines == WithholdLines(rule, bases, rates)[..i]
      invariant line5a == WorkTotal(lines) && line5b == StoredTotal(lines)
    {
      var line := WithholdOne(rule, bases[i], rates);
      EachHalfIsNearest(rule, bases[i], rates, line);
      assert (lines + [line])[..i] == lines;
      lines, line5a, line5b := lines + [line], line5a + line.work, line5b + line.stored;
    }
    assert lines == WithholdLines(rule, bases, rates);
    RetainIsAsRuled(rule, bases, contractSum);
    return Retained(lines, line5a, line5b, rates.0);
  }

  /** True when what was withheld, as a share of what was billed, is above the jurisdiction's cap. */
  predicate ExceedsStatutoryCap(rule: Spec, withheld: int, base: int) {
    rule.cap.Some? && base != 0 && PercentOf(withheld, base) > rule.cap.value
  }

  // ---------------------------------------------------------------------------------------------
  // How far per-line rounding can move the effective rate
  // ---------------------------------------------------------------------------------------------

  // Every line is withheld at the one rate r, on work and on stored material alike.
  ghost predicate Uniform(rule: Spec, bases: seq<Basis>, rates: (int, int), r: int) {
    forall i :: 0 <= i < |bases| ==> LineRates(rule, bases[i], rates) == (r, r)
  }

  // Non-negative amounts, each withheld at a rate not above the cap.
  ghost predicate AtMost(rule: Spec, bases: seq<Basis>, rates: (int, int), cap: int) {
    forall i :: 0 <= i < |bases| ==>
      && bases[i].work >= 0 && bases[i].stored >= 0
      && LineRates(rule, bases[i], rates).0 <= cap && LineRates(rule, bases[i], rates).1 <= cap
  }

  function HeaderTotal(lines: seq<Withheld>): int {
    WorkTotal(lines) + StoredTotal(lines)
  }

  // Two roundings a line, half a cent each.
  lemma {:induction false} UniformDrift(rule: Spec, bases: seq<Basis>, rates: (int, int), r: int)
    requires Uniform(rule, bases, rates, r)
    ensures Abs(BP_SCALE * HeaderTotal(WithholdLines(rule, bases, rates)) - Billed(bases) * r) <= 10_000 * |bases|
  {
    if |bases| > 0 {
      var n := |bases| - 1;
      var last := bases[n];
      UniformDrift(rule, bases[..n], rates, r);
      assert WithholdLines(rule, bases, rates)[..n] == WithholdLines(rule, bases[..n], rates);
      assert LineRates(rule, last, rates) == (r, r);
      ApplyBpRounds(last.work, r);
      ApplyBpRounds(last.stored, r);
      ThreeProducts(Billed(bases[..n]), last.work, last.stored, r);
    }
  }

  lemma ThreeProducts(x: int, y: int, z: int, r: int)
    ensures (x + y + z) * r == x * r + y * r + z * r
  {
  }

  lemma {:induction false} CappedDrift(rule: Spec, bases: seq<Basis>, rates: (int, int), cap: int)
    requires AtMost(rule, bases, rates, cap)
    ensures BP_SCALE * HeaderTotal(WithholdLines(rule, bases, rates)) <= Billed(bases) * cap + 10_000 * |bases|
  {
    if |bases| > 0 {
      var n := |bases| - 1;
      var last := bases[n];
      CappedDrift(rule, bases[..n], rates, cap);
      assert WithholdLines(rule, bases, rates)[..n] == WithholdLines(rule, bases[..n], rates);
      var (work, stored) := LineRates(rule, last, rates);
      CappedRounding(last.work, work, cap);
      CappedRounding(last.stored, stored, cap);
      ThreeProducts(Billed(bases[..n]), last.work, last.stored, cap);
    }
  }

  lemma CappedRounding(amount: nat, rate: int, cap: int)
    requires rate <= cap
    ensures BP_SCALE * ApplyBp(amount, rate) <= amount * cap + 5000
  {
    ApplyBpRounds(amount, rate);
    MulLeft(rate, cap, amount);
  }

  /**
   * With more than 20,000 cents billed per line, a uniform rate reads back as exactly that rate, so
   * the cap check fires exactly when the rate is above the cap.
   */
  lemma {:induction false} UniformRateReadsBack(rule: Spec, bases: seq<Basis>, contractSum: int, r: int)
    requires Uniform(rule, bases, RatesFor(rule, bases, contractSum), r)
    requires Billed(bases) > 20_000 * |bases|
    ensures PercentOf(Retain(rule, bases, contractSum).Total(), Billed(bases)) == r
    ensures ExceedsStatutoryCap(rule, Retain(rule, bases, contractSum).Total(), Billed(bases))
      <==> rule.cap.Some? && r > rule.cap.value
  {
    var withheld, billed := Retain(rule, bases, contractSum).Total(), Billed(bases);
    UniformDrift(rule, bases, RatesFor(rule, bases, contractSum), r);
    PercentOfIsNearest(withheld, billed, r);
    assert billed * r == r * billed;
  }

  /** At the same volume, rates that all respect the cap never trip the check, whatever the rounding. */
  lemma {:induction false} CompliantRatesNeverTrip(rule: Spec, bases: seq<Basis>, contractSum: int)
    requires rule.cap.Some? && AtMost(rule, bases, RatesFor(rule, bases, contractSum), rule.cap.value)
    requires Billed(bases) > 20_000 * |bases|
    ensures !ExceedsStatutoryCap(rule, Retain(rule, bases, contractSum).Total(), Billed(bases))
  {
    var withheld, billed, cap := Retain(rule, bases, contractSum).Total(), Billed(bases), rule.cap.value;
    CappedDrift(rule, bases, RatesFor(rule, bases, contractSum), cap);
    PercentOfIsNearest(withheld, billed, PercentOf(withheld, billed));
    ReadsWithin(PercentOf(withheld, billed), cap, withheld * BP_SCALE, billed, 10_000 * |bases|);
  }

  // A share that is less than half a basis point over the cap does not round past it.
  lemma ReadsWithin(p: int, cap: int, n: int, base: int, slack: int)
    requires base > 2 * slack >= 0 && n <= base * cap + slack && NearestAwayFromZero(p, n, base)
    ensures p <= cap
  {
    assert (cap + 1) * base == base * cap + base;
    if cap + 1 <= p {
      MulLeft(cap + 1, p, base);
    }
  }

  /**
   * A share n / base, in basis points, rounds to more than c exactly from half a basis point above it; for a negative c
   * the half itself still rounds down, away from zero. A zero base counts as a share of zero.
   */
  predicate RoundsAbove(n: int, base: int, c: int) {
    if base == 0 then c < 0
    else
      var magnitude, scaled := Abs(base), Signed(base < 0, n);
      if c >= 0 then 2 * scaled >= (2 * c + 1) * magnitude else 2 * scaled > (2 * c + 1) * magnitude
  }

  lemma {:induction false} PercentIsAboveExactlyWhen(part: int, whole: int, c: int)
    ensures PercentOf(part, whole) > c <==> RoundsAbove(part * BP_SCALE, whole, c)
  {
    var p := PercentOf(part, whole);
    PercentOfIsNearest(part, whole, p);
    if whole != 0 {
      RoundsAboveExactlyWhen(p, c, Signed(whole < 0, part * BP_SCALE), Abs(whole));
    }
  }

  /**
   * The check in integers, for any cap and any non-zero base: it fires exactly from half a basis point above the
   * cap.
   */
  lemma {:induction false} CapFiresExactlyWhen(rule: Spec, withheld: int, base: int)
    ensures ExceedsStatutoryCap(rule, withheld, base)
      <==> rule.cap.Some? && base != 0 && RoundsAbove(withheld * BP_SCALE, base, rule.cap.value)
  {
    if rule.cap.Some? {
      PercentIsAboveExactlyWhen(withheld, base, rule.cap.value);
    }
  }

  /**
   * A stepped reduction takes effect exactly from half a basis point below its threshold, on work and stored material
   * alike, and a missing reduced rate counts as zero.
   */
  lemma {:induction false} SteppedReductionExactlyWhen(rule: Spec, completedStored: int, contractSum: int)
    requires rule.mode.Stepped? && rule.threshold.Some?
    ensures EffectiveRates(rule, completedStored, contractSum) ==
      if RoundsAbove(completedStored * BP_SCALE, contractSum, rule.threshold.value - 1)
      then (GetOr(rule.reducedRate, 0), GetOr(rule.reducedRate, 0)) else (rule.rateWork, rule.rateStored)
  {
    PercentIsAboveExactlyWhen(completedStored, contractSum, rule.threshold.value - 1);
  }

  lemma {:induction false} RoundsAboveExactlyWhen(p: int, c: int, n: int, base: int)
    requires base > 0 && NearestAwayFromZero(p, n, base)
    ensures p > c <==> if c >= 0 then 2 * n >= (2 * c + 1) * base else 2 * n > (2 * c + 1) * base
  {
    if p > c {
      MulLeft(c + 1, p, base);
      assert (c + 1) * base == c * base + base;
    } else {
      MulLeft(p, c, base);
    }
    if c >= 0 {
      MulLeft(0, c, base);
    } else {
      MulLeft(c, -1, base);
    }
    assert (2 * c + 1) * base == 2 * (c * base) + base;
    RoundedComparison(n, p, base, c * base, c < 0, p > c);
  }

  lemma {:induction false} RoundedComparison(n: int, p: int, base: int, limit: int, negative: bool, above: bool)
    requires base > 0 && NearestAwayFromZero(p, n, base)
    requires if negative then limit <= -base else limit >= 0
    requires if above then p * base >= limit + base else p * base <= limit
    ensures above <==> if negative then 2 * n > 2 * limit + base else 2 * n >= 2 * limit + base
  {
  }

  /** Below that volume the check can fire on compliant rates: five cents at a 10% rate under a 10% cap. */
  lemma SmallBillingTripsTheCap()
    ensures var rule := Spec(Flat, 1000, 1000, None, None, Some(1000));
      var bases := [Basis(5, 0, None)];
      && AtMost(rule, bases, RatesFor(rule, bases, 5), 1000)
      && ExceedsStatutoryCap(rule, Retain(rule, bases, 5).Total(), Billed(bases))
  {
    var rule, line := Spec(Flat, 1000, 1000, None, None, Some(1000)), Basis(5, 0, None);
    FlatLineAtMost(rule, line, 5, 1000);
    FlatLineWithheld(rule, line, 5);
    CapFiresExactlyWhen(rule, 1, 5);
  }

  lemma FlatLineAtMost(rule: Spec, basis: Basis, contractSum: int, cap: int)
    requires rule.mode.Flat? && rule.rateWork <= cap && basis.work >= 0 && basis.stored >= 0
    ensures AtMost(rule, [basis], RatesFor(rule, [basis], contractSum), cap)
  {
  }

  lemma {:induction false} FlatLineWithheld(rule: Spec, basis: Basis, contractSum: int)
    requires rule.mode.Flat?
    ensures Billed([basis]) == basis.work + basis.stored
    ensures Retain(rule, [basis], contractSum).Total()
      == ApplyBp(basis.work, rule.rateWork) + ApplyBp(basis.stored, rule.rateWork)
  {
    OneLine(rule, basis, contractSum);
    FlatRates(rule, [basis], contractSum);
    FlatLine(rule, basis);
  }

  lemma {:induction false} FlatRates(rule: Spec, bases: seq<Basis>, contractSum: int)
    requires rule.mode.Flat?
    ensures RatesFor(rule, bases, contractSum) == (rule.rateWork, rule.rateWork)
  {
  }

  lemma {:induction false} FlatLine(rule: Spec, basis: Basis)
    requires rule.mode.Flat?
    ensures WithholdLine(rule, basis, (rule.rateWork, rule.rateWork))
      == Withheld(ApplyBp(basis.work, rule.rateWork), ApplyBp(basis.stored, rule.rateWork))
  {
  }

  /** The bound is the right one: at exactly 20,000 cents on one line, 50% reads back as 50.01%. */
  lemma TheVolumeBoundIsSharp()
    ensures var rule := Spec(Flat, 5000, 5000, None, None, Some(5000));
      var bases := [Basis(10_001, 9_999, None)];
      && Uniform(rule, bases, RatesFor(rule, bases, 20_000), 5000)
      && Billed(bases) == 20_000 * |bases|
      && PercentOf(Retain(rule, bases, 20_000).Total(), Billed(bases)) == 5001
  {
    var rule, line := Spec(Flat, 5000, 5000, None, None, Some(5000)), Basis(10_001, 9_999, None);
    FlatLineWithheld(rule, line, 20_000);
  }

  lemma OneLine(rule: Spec, basis: Basis, contractSum: int)
    ensures Billed([basis]) == basis.work + basis.stored
    ensures Retain(rule, [basis], contractSum).Total()
      == WithholdLine(rule, basis, RatesFor(rule, [basis], contractSum)).Total()
  {
    OneBasis(basis);
    OneLineAt(rule, basis, RatesFor(rule, [basis], contractSum));
  }

  lemma OneBasis(basis: Basis)
    ensures Billed([basis]) == basis.work + basis.stored
  {
    assert [basis][..0] == [];
  }

  lemma OneLineAt(rule: Spec, basis: Basis, rates: (int, int))
    ensures HeaderTotal(WithholdLines(rule, [basis], rates)) == WithholdLine(rule, basis, rates).Total()
  {
    OneLineTotal(WithholdLines(rule, [basis], rates));
  }

  lemma OneLineTotal(lines: seq<Withheld>)
    requires |lines| == 1
    ensures HeaderTotal(lines) == lines[0].Total()
  {
    assert WorkTotal(lines[..0]) == 0 && StoredTotal(lines[..0]) == 0;
  }
}
