/** Exact addition over sequences of cents. Nothing here rounds. */
module Sums {

  function Sum(xs: seq<int>): int {
    if |xs| == 0 then 0 else Sum(xs[..|xs| - 1]) + xs[|xs| - 1]
  }

  lemma {:induction false} SumUpdate(xs: seq<int>, k: nat, x: int)
    requires k < |xs|
    ensures Sum(xs[k := x]) == Sum(xs) - xs[k] + x
  {
    var last := |xs| - 1;
    if k == last {
      assert xs[k := x][..last] == xs[..last];
    } else {
      SumUpdate(xs[..last], k, x);
      assert xs[k := x][..last] == xs[..last][k := x];
    }
  }

  // Sums are monotone, and strictly so as soon as one entry is strictly smaller.
  lemma {:induction false} SumMonotone(xs: seq<int>, ys: seq<int>)
    requires |xs| == |ys|
    requires forall i :: 0 <= i < |xs| ==> xs[i] <= ys[i]
    ensures Sum(xs) <= Sum(ys)
    ensures (exists i :: 0 <= i < |xs| && xs[i] < ys[i]) ==> Sum(xs) < Sum(ys)
  {
    if |xs| > 0 {
      SumMonotone(xs[..|xs| - 1], ys[..|ys| - 1]);
    }
  }

  // zs = a * xs + b * ys, entry by entry.
  ghost predicate Combines(xs: seq<int>, a: int, ys: seq<int>, b: int, zs: seq<int>) {
    |xs| == |ys| == |zs| && forall i :: 0 <= i < |zs| ==> zs[i] == a * xs[i] + b * ys[i]
  }

  lemma {:induction false} SumLinear(xs: seq<int>, a: int, ys: seq<int>, b: int, zs: seq<int>)
    requires Combines(xs, a, ys, b, zs)
    ensures Sum(zs) == a * Sum(xs) + b * Sum(ys)
  {
    if |zs| > 0 {
      var n := |zs| - 1;
      SumLinear(xs[..n], a, ys[..n], b, zs[..n]);
      Distribute(a, Sum(xs[..n]), xs[n]);
      Distribute(b, Sum(ys[..n]), ys[n]);
    }
  }

  ghost predicate CostsAtLeast(mine: int, theirs: int, x: int, y: int, slope: int) {
    theirs >= mine + slope * (y - x)
  }

  // If every move away from xs costs at least slope per unit, so does the whole move.
  lemma {:induction false} ConvexCosts(mine: seq<int>, theirs: seq<int>, xs: seq<int>, ys: seq<int>, slope: int)
    requires |mine| == |theirs| == |xs| == |ys|
    requires forall i :: 0 <= i < |xs| ==> CostsAtLeast(mine[i], theirs[i], xs[i], ys[i], slope)
    ensures CostsAtLeast(Sum(mine), Sum(theirs), Sum(xs), Sum(ys), slope)
  {
    if |xs| > 0 {
      var n := |xs| - 1;
      ConvexCosts(mine[..n], theirs[..n], xs[..n], ys[..n], slope);
      Distribute(slope, Sum(ys[..n]) - Sum(xs[..n]), ys[n] - xs[n]);
    }
  }

  lemma Distribute(k: int, x: int, y: int)
    ensures k * (x + y) == k * x + k * y
  {
  }

  lemma {:induction false} SumConstant(xs: seq<int>, c: int)
    requires forall i :: 0 <= i < |xs| ==> xs[i] == c
    ensures Sum(xs) == |xs| * c
  {
    if |xs| > 0 {
      SumConstant(xs[..|xs| - 1], c);
      assert |xs| * c == (|xs| - 1) * c + c;
    }
  }
}
