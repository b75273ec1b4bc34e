/** `allocate` and `split_evenly`: largest-remainder apportionment of a total over weights. */
module Allocation {
  import opened Outcomes
  import opened Rounding
  import opened Sorting
  import opened Sums

  // Python's divmod: the quotient is floored, so the remainder takes the sign of the divisor.
  function FloorDiv(n: int, d: int): int
    requires d != 0
  {
    if d > 0 then n / d else (-n) / (-d)
  }

  function FloorMod(n: int, d: int): int
    requires d != 0
  {
    n - d * FloorDiv(n, d)
  }

  function Sign(x: int): int {
    if x < 0 then -1 else 1
  }

  function Negated(xs: seq<int>): (r: seq<int>)
    ensures |r| == |xs|
  {
    seq(|xs|, i requires 0 <= i < |xs| => -xs[i])
  }

  // The whole cents of a line's exact share total * weight / W, and the size of what is left over.
  function Base(total: int, weight: int, W: int): int
    requires W != 0
  {
    FloorDiv(total * weight, W)
  }

  function Fraction(total: int, weight: int, W: int): nat
    requires W != 0
  {
    Abs(FloorMod(total * weight, W))
  }

  function Bases(total: int, weights: seq<int>, W: int): (r: seq<int>)
    requires W != 0
    ensures |r| == |weights|
  {
    seq(|weights|, i requires 0 <= i < |weights| => Base(total, weights[i], W))
  }

  function Fractions(total: int, weights: seq<int>, W: int): (r: seq<int>)
    requires W != 0
    ensures |r| == |weights|
  {
    seq(|weights|, i requires 0 <= i < |weights| => Fraction(total, weights[i], W))
  }

  // Sort keys: largest remainder first, position breaks ties.
  function Keys(total: int, weights: seq<int>, W: int): (r: seq<int>)
    requires W != 0
    ensures |r| == |weights|
  {
    Negated(Fractions(total, weights, W))
  }

  lemma FloorDivFacts(n: int, d: int)
    requires d != 0
    ensures Sign(d) * n == Abs(d) * FloorDiv(n, d) + Abs(FloorMod(n, d))
    ensures Abs(FloorMod(n, d)) < Abs(d)
  {
    var q := FloorDiv(n, d);
    if d > 0 {
      assert n == d * q + n % d;
    } else {
      assert -n == (-d) * q + (-n) % (-d);
      assert (-d) * q == -(d * q);
    }
  }

  /**
   * A largest-remainder apportionment of a total: the parts sum to it, every part is the floor of
   * its exact share or one cent more, and an extra cent goes to a line only ahead of every line
   * that got none (larger remainder, or an equal one further down the list).
   */
  ghost predicate IsApportionment(total: int, weights: seq<int>, parts: seq<int>)
    requires Sum(weights) != 0
  {
    var W := Sum(weights);
    HandsOut(total, Bases(total, weights, W), Keys(total, weights, W), parts)
  }

  ghost predicate HandsOut(total: int, bases: seq<int>, keys: seq<int>, parts: seq<int>)
    requires |bases| == |keys|
  {
    && |parts| == |bases|
    && Sum(parts) == total
    && (forall i :: 0 <= i < |parts| ==> parts[i] == bases[i] || parts[i] == bases[i] + 1)
    && (forall i: nat, j: nat :: i < |parts| && j < |parts| && parts[i] == bases[i] + 1 && parts[j] == bases[j]
          ==> Before(keys, i, j))
  }

  function Oriented(total: int, parts: seq<int>): (r: seq<int>)
    ensures |r| == |parts|
  {
    if total < 0 then Negated(parts) else parts
  }

  /** A negative total is the exact reverse of the positive one, line by line. */
  ghost predicate Allocates(total: int, weights: seq<int>, parts: seq<int>)
    requires Sum(weights) != 0
  {
    IsApportionment(Abs(total), weights, Oriented(total, parts))
  }

  // The cents the floors leave over, times |W|, are exactly the fractions.
  lemma {:induction false} LeftoverTimesWeight(total: int, weights: seq<int>, W: int)
    requires W == Sum(weights) && W != 0
    ensures Sum(Fractions(total, weights, W)) == Abs(W) * (total - Sum(Bases(total, weights, W)))
  {
    var bases, fractions := Bases(total, weights, W), Fractions(total, weights, W);
    var signed := Sign(W) * total;
    forall i: nat | i < |weights|
      ensures fractions[i] == signed * weights[i] + (0 - Abs(W)) * bases[i]
    {
      FractionIsLinear(total, weights[i], W);
    }
    SumLinear(weights, signed, bases, 0 - Abs(W), fractions);
    SignedTotal(W, total, Sum(bases));
  }

  lemma {:induction false} LeftoverIsTheFractions(total: int, weights: seq<int>, W: int)
    requires W == Sum(weights) && W != 0
    ensures Sum(Fractions(total, weights, W)) == Abs(W) * (total - Sum(Bases(total, weights, W)))
    ensures weights != [] ==> 0 <= total - Sum(Bases(total, weights, W)) < |weights|
  {
    var fractions := Fractions(total, weights, W);
    LeftoverTimesWeight(total, weights, W);
    forall i: nat | i < |weights|
      ensures 0 <= fractions[i] <= Abs(W) - 1
    {
      FractionIsLinear(total, weights[i], W);
    }
    if weights != [] {
      FractionsBound(fractions, Abs(W));
      CancelBounds(Abs(W), total - Sum(Bases(total, weights, W)), |weights|);
    }
  }

  lemma FractionIsLinear(total: int, weight: int, W: int)
    requires W != 0
    ensures Fraction(total, weight, W) == (Sign(W) * total) * weight + (0 - Abs(W)) * Base(total, weight, W)
    ensures 0 <= Fraction(total, weight, W) <= Abs(W) - 1
  {
    FloorDivFacts(total * weight, W);
    assert (Sign(W) * total) * weight == Sign(W) * (total * weight);
  }

  lemma SignedTotal(W: int, total: int, floors: int)
    ensures (Sign(W) * total) * W + (0 - Abs(W)) * floors == Abs(W) * (total - floors)
  {
  }

  lemma {:induction false} FractionsBound(fractions: seq<int>, w: nat)
    requires w > 0 && forall i :: 0 <= i < |fractions| ==> 0 <= fractions[i] <= w - 1
    ensures 0 <= Sum(fractions) <= |fractions| * (w - 1)
  {
    if |fractions| > 0 {
      FractionsBound(fractions[..|fractions| - 1], w);
      assert |fractions| * (w - 1) == (|fractions| - 1) * (w - 1) + (w - 1);
    }
  }

  lemma CancelBounds(w: nat, x: int, n: nat)
    requires w > 0 && n > 0 && 0 <= w * x <= n * (w - 1)
    ensures 0 <= x < n
  {
    if x < 0 {
      MulLeft(x, -1, w);
    } else if x >= n {
      MulLeft(n, x, w);
    }
  }

  // ---------------------------------------------------------------------------------------------
  // The algorithm
  // ---------------------------------------------------------------------------------------------

  method Allocate(total: int, weights: seq<int>) returns (r: Result<seq<int>>)
    ensures Sum(weights) != 0 ==> r.Ok? && Allocates(total, weights, r.value)
    ensures Sum(weights) == 0 && total == 0 ==> r == Ok(seq(|weights|, _ => 0))
    ensures Sum(weights) == 0 && total != 0 ==> r == Err(MoneyError)
    decreases total < 0
  {
    if weights == [] {
      assert seq(|weights|, _ => 0) == [];
      return if total == 0 then Ok([]) else Err(MoneyError);
    }
    var W := Total(weights);
    if W == 0 {
      return if total == 0 then Ok(seq(|weights|, _ => 0)) else Err(MoneyError);
    }
    if total < 0 {
      var positive := Allocate(-total, weights);
      assert Negated(Negated(positive.value)) == positive.value;
      return Ok(Negated(positive.value));
    }
    assert Abs(total) == total;

    var bases: seq<int>, keys: seq<int> := [], [];
    for i := 0 to |weights|
      invariant bases == Bases(total, weights, W)[..i]
      invariant keys == Keys(total, weights, W)[..i]
    {
      var numerator := total * weights[i];
      bases := bases + [FloorDiv(numerator, W)];
      keys := keys + [-Abs(FloorMod(numerator, W))];
    }
    assert bases == Bases(total, weights, W) && keys == Keys(total, weights, W);
    LeftoverIsTheFractions(total, weights, W);
    var floors := Total(bases);
    var leftover := total - floors;
    var order := StableOrder(keys);
    var parts := HandOut(bases, order, leftover);
    HandingOutApportions(total, weights, order, parts, leftover);
    assert Oriented(total, parts) == parts;
    return Ok(parts);
  }

  // One cent each to the first `leftover` positions of the order.
  method HandOut(floors: seq<int>, order: seq<nat>, leftover: nat) returns (bases: seq<int>)
    requires leftover <= |order|
    requires forall k :: 0 <= k < |order| ==> order[k] < |floors|
    requires forall j, k :: 0 <= j < k < |order| ==> order[j] != order[k]
    ensures |bases| == |floors| && Sum(bases) == Sum(floors) + leftover
    ensures forall i: nat :: i < |floors| ==> bases[i] == floors[i] + if i in order[..leftover] then 1 else 0
  {
    bases := floors;
    for k := 0 to leftover
      invariant |bases| == |floors| && Sum(bases) == Sum(floors) + k
      invariant forall i: nat :: i < |floors| ==> bases[i] == floors[i] + if i in order[..k] then 1 else 0
    {
      SumUpdate(bases, order[k], bases[order[k]] + 1);
      bases := bases[order[k] := bases[order[k]] + 1];
      assert order[..k + 1] == order[..k] + [order[k]];
    }
  }

  lemma HandingOutApportions(total: int, weights: seq<int>, order: seq<nat>, parts: seq<int>, leftover: nat)
    requires total >= 0 && Sum(weights) != 0
    requires IsStableOrder(Keys(total, weights, Sum(weights)), order) && leftover <= |order|
    requires |parts| == |weights| && Sum(parts) == total
    requires forall i: nat :: i < |parts| ==>
      parts[i] == Base(total, weights[i], Sum(weights)) + if i in order[..leftover] then 1 else 0
    ensures IsApportionment(total, weights, parts)
  {
    var keys := Keys(total, weights, Sum(weights));
    forall i: nat, j: nat | i < |parts| && j < |parts| && i in order[..leftover] && j !in order[..leftover]
      ensures Before(keys, i, j)
    {
      assert j in order && order == order[..leftover] + order[leftover..];
      var a :| 0 <= a < leftover && order[a] == i;
      var b :| leftover <= b < |order| && order[b] == j;
      assert Before(keys, order[a], order[b]);
    }
  }

  method Total(xs: seq<int>) returns (t: int)
    ensures t == Sum(xs)
  {
    t := 0;
    for i := 0 to |xs|
      invariant t == Sum(xs[..i])
    {
      assert xs[..i + 1][..i] == xs[..i];
      t := t + xs[i];
    }
    assert xs[..|xs|] == xs;
  }

  method SplitEvenly(total: int, parts: int) returns (r: Result<seq<int>>)
    ensures parts <= 0 ==> r == Err(MoneyError)
    ensures parts > 0 ==> r == Ok(EvenShares(total, parts))
  {
    if parts <= 0 {
      return Err(MoneyError);
    }
    var ones := seq(parts, _ => 1);
    SumConstant(ones, 1);
    r := Allocate(total, ones);
    EvenSharesAreAllocated(total, parts);
    AllocationIsUnique(total, ones, r.value, EvenShares(total, parts));
  }

  /** Quotient plus one for the first remainder positions, negated for a negative total. */
  function EvenShares(total: int, parts: nat): (r: seq<int>)
    requires parts > 0
    ensures |r| == parts
  {
    seq(parts, i requires 0 <= i < parts =>
      Signed(total < 0, Abs(total) / parts + if i < Abs(total) % parts then 1 else 0))
  }

  // ---------------------------------------------------------------------------------------------
  // What an apportionment is worth
  // ---------------------------------------------------------------------------------------------

  /** The specification leaves no choice: a re-run of the same period gives the same cents. */
  lemma ApportionmentIsUnique(total: int, weights: seq<int>, p: seq<int>, q: seq<int>)
    requires Sum(weights) != 0
    requires IsApportionment(total, weights, p) && IsApportionment(total, weights, q)
    ensures p == q
  {
    forall i: nat, j: nat | i < |p| && j < |p| && q[i] < p[i]
      ensures q[j] <= p[j]
    {
      OnlyOneComesFirst(Bases(total, weights, Sum(weights)), Keys(total, weights, Sum(weights)), p, q, total, i, j);
    }
    if forall i :: 0 <= i < |p| ==> p[i] <= q[i] {
      SumMonotone(p, q);
    } else {
      var i: nat :| i < |p| && q[i] < p[i];
      SumMonotone(q, p);
    }
  }

  lemma OnlyOneComesFirst(bases: seq<int>, keys: seq<int>, p: seq<int>, q: seq<int>, total: int, i: nat, j: nat)
    requires |bases| == |keys| && HandsOut(total, bases, keys, p) && HandsOut(total, bases, keys, q)
    requires i < |p| && j < |p| && q[i] < p[i]
    ensures q[j] <= p[j]
  {
    assert p[i] == bases[i] + 1 && q[i] == bases[i];
    assert p[j] == bases[j] || p[j] == bases[j] + 1;
  }

  lemma AllocationIsUnique(total: int, weights: seq<int>, p: seq<int>, q: seq<int>)
    requires Sum(weights) != 0
    requires Allocates(total, weights, p) && Allocates(total, weights, q)
    ensures p == q
  {
    ApportionmentIsUnique(Abs(total), weights, Oriented(total, p), Oriented(total, q));
    assert p == Oriented(total, Oriented(total, p)) && q == Oriented(total, Oriented(total, q));
  }

  // A line whose exact share is a whole number of cents never takes an extra one: if it did, every
  // line without one would have remainder 0 too, and the cents handed out would outweigh the fractions.
  lemma NoCentForAnExactShare(total: int, weights: seq<int>, parts: seq<int>, i: nat)
    requires Sum(weights) != 0 && IsApportionment(total, weights, parts)
    requires i < |parts| && Fraction(total, weights[i], Sum(weights)) == 0
    ensures parts[i] == Base(total, weights[i], Sum(weights))
  {
    var W := Sum(weights);
    var fractions, bases := Fractions(total, weights, W), Bases(total, weights, W);
    if parts[i] != bases[i] {
      forall k: nat | k < |parts|
        ensures fractions[k] <= Abs(W) - 1
        ensures parts[k] == bases[k] ==> fractions[k] <= 0
      {
        FloorDivFacts(total * weights[k], W);
        if parts[k] == bases[k] {
          assert Before(Keys(total, weights, W), i, k);
        }
      }
      LeftoverIsTheFractions(total, weights, W);
      CentsOutweigh(parts, bases, fractions, Abs(W));
      LessThanWhole(Abs(W), total - Sum(bases));
    }
  }

  lemma LessThanWhole(w: int, handed: int)
    requires handed > 0
    ensures (w - 1) * handed < w * handed
  {
  }

  lemma {:induction false} CentsOutweigh(parts: seq<int>, bases: seq<int>, fractions: seq<int>, w: nat)
    requires |parts| == |bases| == |fractions| && w > 0
    requires forall k :: 0 <= k < |parts| ==> parts[k] == bases[k] || parts[k] == bases[k] + 1
    requires forall k :: 0 <= k < |parts| ==> fractions[k] <= if parts[k] == bases[k] then 0 else w - 1
    ensures var handed := Sum(parts) - Sum(bases);
      && handed >= 0 && Sum(fractions) <= (w - 1) * handed
      && ((exists k :: 0 <= k < |parts| && parts[k] != bases[k]) ==> handed > 0)
  {
    if |parts| > 0 {
      var n := |parts| - 1;
      CentsOutweigh(parts[..n], bases[..n], fractions[..n], w);
      Distribute(w - 1, Sum(parts[..n]) - Sum(bases[..n]), 1);
    }
  }

  // part is the floor or the ceiling of total * weight / W, and a zero weight gets nothing.
  ghost predicate FairShare(total: int, weight: int, W: int, part: int) {
    && Abs(part * W - total * weight) < Abs(W)
    && (total == 0 || weight == 0 ==> part == 0)
    && (FloorMod(total * weight, W) == 0 ==> part * W == total * weight)
  }

  lemma FairBySign(total: int, weight: int, W: int, part: int)
    requires W != 0
    requires part == Base(total, weight, W) || (part == Base(total, weight, W) + 1 && Fraction(total, weight, W) != 0)
    ensures FairShare(total, weight, W, part)
  {
    var n := total * weight;
    var b, r := FloorDiv(n, W), FloorMod(n, W);
    FloorDivFacts(n, W);
    assert n == W * b + r;
    assert r == 0 || Sign(r) == Sign(W) by {
      SignedRemainder(n, W);
    }
    assert part * W - n == if part == b then -r else W - r by {
      assert part * W == W * part;
      Distribute(W, b, 1);
    }
    if total == 0 || weight == 0 {
      assert n == 0;
      ExactQuotient(n, W, 0);
    }
  }

  lemma SignedRemainder(n: int, d: int)
    requires d != 0
    ensures FloorMod(n, d) == 0 || Sign(FloorMod(n, d)) == Sign(d)
  {
    var q := FloorDiv(n, d);
    if d > 0 {
      assert n == d * q + n % d;
    } else {
      assert -n == (-d) * q + (-n) % (-d);
      assert (-d) * q == -(d * q);
    }
  }

  lemma NegatedShareIsFair(total: int, weight: int, W: int, part: int)
    requires W != 0 && FairShare(-total, weight, W, -part)
    ensures FairShare(total, weight, W, part)
  {
    NegatedFactor(total, weight);
    NegatedFactor(part, W);
    NegatedRemainder(total * weight, W);
  }

  lemma NegatedFactor(x: int, y: int)
    ensures -x * y == -(x * y)
  {
  }

  lemma NegatedRemainder(n: int, d: int)
    requires d != 0
    ensures FloorMod(n, d) == 0 ==> FloorMod(-n, d) == 0
  {
    if FloorMod(n, d) == 0 {
      var q := FloorDiv(n, d);
      FloorDivFacts(n, d);
      WholeQuotient(n, d, q);
      NegatedFactor(q, d);
      ExactQuotient(-n, d, -q);
    }
  }

  lemma WholeQuotient(n: int, d: int, q: int)
    requires d != 0 && Sign(d) * n == Abs(d) * q
    ensures n == d * q
  {
    if d < 0 {
      NegatedFactor(d, q);
    }
  }

  lemma ExactQuotient(n: int, d: int, q: int)
    requires d != 0 && n == d * q
    ensures FloorDiv(n, d) == q && FloorMod(n, d) == 0
  {
    FloorDivFacts(n, d);
    var f := FloorDiv(n, d);
    assert n == d * f + FloorMod(n, d);
    assert d * (q - f) == FloorMod(n, d);
    if q - f >= 1 {
      MulLeft(1, q - f, Abs(d));
    } else if q - f <= -1 {
      MulLeft(q - f, -1, Abs(d));
    }
  }

  lemma ApportionmentIsFair(total: int, weights: seq<int>, parts: seq<int>, i: nat)
    requires Sum(weights) != 0 && IsApportionment(total, weights, parts) && i < |parts|
    ensures FairShare(total, weights[i], Sum(weights), parts[i])
  {
    if Fraction(total, weights[i], Sum(weights)) == 0 {
      NoCentForAnExactShare(total, weights, parts, i);
    }
    FairBySign(total, weights[i], Sum(weights), parts[i]);
  }

  /** Every part of every allocation, of either sign, is the floor or the ceiling of its exact share. */
  lemma AllocationIsFair(total: int, weights: seq<int>, parts: seq<int>, i: nat)
    requires Sum(weights) != 0 && Allocates(total, weights, parts) && i < |weights|
    ensures |parts| == |weights| && FairShare(total, weights[i], Sum(weights), parts[i])
  {
    ApportionmentIsFair(Abs(total), weights, Oriented(total, parts), i);
    if total < 0 {
      assert Oriented(total, parts)[i] == -parts[i];
      NegatedShareIsFair(total, weights[i], Sum(weights), parts[i]);
    }
  }

  /** No cent is created or lost, for a negative total as well. */
  lemma AllocationIsExact(total: int, weights: seq<int>, parts: seq<int>)
    requires Sum(weights) != 0 && Allocates(total, weights, parts)
    ensures Sum(parts) == total
  {
    if total < 0 {
      SumLinear(parts, -1, parts, 0, Negated(parts));
    }
  }

  // ---------------------------------------------------------------------------------------------
  // Even splits
  // ---------------------------------------------------------------------------------------------

  lemma {:induction false} SumOfStep(xs: seq<int>, q: int, r: nat)
    requires r <= |xs| && forall i :: 0 <= i < |xs| ==> xs[i] == q + if i < r then 1 else 0
    ensures Sum(xs) == |xs| * q + r
  {
    if |xs| > 0 {
      var n := |xs| - 1;
      SumOfStep(xs[..n], q, if r == |xs| then n else r);
      assert |xs| * q == n * q + q;
    }
  }

  lemma EvenSharesAreAllocated(total: int, parts: nat)
    requires parts > 0
    ensures var ones := seq(parts, _ => 1); Sum(ones) == parts && Allocates(total, ones, EvenShares(total, parts))
  {
    var ones := seq(parts, _ => 1);
    SumConstant(ones, 1);
    EvenSharesApportion(Abs(total), ones);
    EvenSharesReverse(total, parts);
  }

  lemma EvenSharesApportion(total: nat, ones: seq<int>)
    requires |ones| > 0 && Sum(ones) == |ones| && forall i :: 0 <= i < |ones| ==> ones[i] == 1
    ensures IsApportionment(total, ones, EvenShares(total, |ones|))
  {
    var parts := |ones|;
    var shares := EvenShares(total, parts);
    EvenSharesStep(total, parts);
    SumOfStep(shares, total / parts, total % parts);
    QuotientFacts(total, parts);
    EqualKeys(total, ones, parts);
    StepHandsOut(total, Bases(total, ones, parts), Keys(total, ones, parts), shares, total / parts, total % parts);
  }

  lemma QuotientFacts(n: nat, d: nat)
    requires d > 0
    ensures d * (n / d) + n % d == n
  {
  }

  lemma EqualKeys(total: nat, ones: seq<int>, W: nat)
    requires W > 0 && forall i :: 0 <= i < |ones| ==> ones[i] == 1
    ensures forall i :: 0 <= i < |ones| ==>
      Bases(total, ones, W)[i] == total / W && Keys(total, ones, W)[i] == -(total % W)
  {
    forall i | 0 <= i < |ones|
      ensures Bases(total, ones, W)[i] == total / W && Keys(total, ones, W)[i] == -(total % W)
    {
      assert total * ones[i] == total;
      QuotientFacts(total, W);
    }
  }

  lemma EvenSharesStep(total: nat, parts: nat)
    requires parts > 0
    ensures 0 <= total % parts < parts
    ensures forall i :: 0 <= i < parts ==>
      EvenShares(total, parts)[i] == total / parts + if i < total % parts then 1 else 0
  {
    assert Abs(total) == total;
    forall i | 0 <= i < parts
      ensures EvenShares(total, parts)[i] == total / parts + if i < total % parts then 1 else 0
    {
      assert EvenShares(total, parts)[i] == Signed(false, total / parts + if i < total % parts then 1 else 0);
    }
  }

  // On equal shares the extra cents go to the first lines, which is the order of equal keys.
  lemma StepHandsOut(total: int, bases: seq<int>, keys: seq<int>, shares: seq<int>, q: int, r: int)
    requires |shares| == |bases| == |keys| && Sum(shares) == total && r >= 0
    requires forall i :: 0 <= i < |shares| ==> bases[i] == q && keys[i] == -r
    requires forall i :: 0 <= i < |shares| ==> shares[i] == q + if i < r then 1 else 0
    ensures HandsOut(total, bases, keys, shares)
  {
  }

  lemma EvenSharesReverse(total: int, parts: nat)
    requires parts > 0
    ensures Oriented(total, EvenShares(total, parts)) == EvenShares(Abs(total), parts)
  {
    EvenSharesStep(Abs(total), parts);
    forall i | 0 <= i < parts
      ensures Oriented(total, EvenShares(total, parts))[i] == EvenShares(Abs(total), parts)[i]
    {
      assert EvenShares(total, parts)[i] == Signed(total < 0, EvenShares(Abs(total), parts)[i]);
    }
  }
}
