/** What makes largest-remainder apportionment the right answer: it is the closest, fair and scale-free. */
module AllocationLaws {
  import opened Allocation
  import opened Rounding
  import opened Sorting
  import opened Sums

  // ---------------------------------------------------------------------------------------------
  // No other split of the same total is closer to the exact shares
  // ---------------------------------------------------------------------------------------------

  // Squared distance of each part from its exact share, scaled by W squared to stay in integers.
  function SquaredErrors(total: int, weights: seq<int>, parts: seq<int>): (r: seq<int>)
    requires |parts| == |weights|
    ensures |r| == |parts|
  {
    seq(|parts|, i requires 0 <= i < |parts| => Square(parts[i] * Sum(weights) - total * weights[i]))
  }

  function Square(x: int): int {
    x * x
  }

  // The largest remainder among the lines that got no extra cent: the cut between the two groups.
  ghost function Cut(parts: seq<int>, bases: seq<int>, fractions: seq<int>): nat
    requires |parts| == |bases| == |fractions|
    requires forall i :: 0 <= i < |fractions| ==> fractions[i] >= 0
  {
    if |parts| == 0 then 0
    else
      var n := |parts| - 1;
      var rest := Cut(parts[..n], bases[..n], fractions[..n]);
      if parts[n] == bases[n] && fractions[n] > rest then fractions[n] else rest
  }

  lemma {:induction false} CutSeparates(parts: seq<int>, bases: seq<int>, fractions: seq<int>)
    requires |parts| == |bases| == |fractions|
    requires forall i :: 0 <= i < |fractions| ==> fractions[i] >= 0
    ensures forall j :: 0 <= j < |parts| && parts[j] == bases[j] ==> fractions[j] <= Cut(parts, bases, fractions)
    ensures Cut(parts, bases, fractions) == 0
      || exists j :: 0 <= j < |parts| && parts[j] == bases[j] && fractions[j] == Cut(parts, bases, fractions)
  {
    if |parts| > 0 {
      var n := |parts| - 1;
      CutSeparates(parts[..n], bases[..n], fractions[..n]);
      var rest := Cut(parts[..n], bases[..n], fractions[..n]);
      if parts[n] == bases[n] && fractions[n] > rest {
        assert fractions[n] == Cut(parts, bases, fractions);
      } else if rest != 0 {
        var j :| 0 <= j < n && parts[..n][j] == bases[..n][j] && fractions[..n][j] == rest;
        assert parts[j] == bases[j] && fractions[j] == rest;
      }
    }
  }

  // Moving one line from p to q changes its squared error by at least slope * (q - p).
  lemma ErrorIsConvex(w: int, b: int, f: int, p: int, q: int, cut: int)
    requires 0 <= f < w && 0 <= cut <= w
    requires (p == b && f <= cut) || (p == b + 1 && f >= cut)
    ensures Square(q * w - (w * b + f)) >= Square(p * w - (w * b + f)) + (w * w - 2 * w * cut) * (q - p)
  {
    var d := q - p;
    var e := if p == b then -f else w - f;
    assert p * w - (w * b + f) == e by {
      assert p * w == w * p;
      Distribute(w, b, 1);
    }
    assert q * w == p * w + d * w;
    Expand(e, d, w, cut);
    GainIsNotNegative(e, d, w, cut);
    MulLeft(0, d * (2 * e + d * w - w + 2 * cut), w);
  }

  lemma GainIsNotNegative(e: int, d: int, w: int, cut: int)
    requires 0 <= cut <= w && (-cut <= e <= 0 || 0 < e <= w - cut)
    ensures d * (2 * e + d * w - w + 2 * cut) >= 0
  {
    var gain := 2 * e + d * w - w + 2 * cut;
    if d >= 1 {
      MulLeft(1, d, w);
      MulLeft(0, d, gain);
    } else if d <= -1 {
      MulLeft(d, -1, w);
      MulLeft(d, 0, -gain);
      assert d * gain == -(d * -gain);
    }
  }

  lemma Expand(e: int, d: int, w: int, cut: int)
    ensures Square(e + d * w) == Square(e) + (w * w - 2 * w * cut) * d + (d * (2 * e + d * w - w + 2 * cut)) * w
  {
    var x := d * w;
    var gain := 2 * e + x - w + 2 * cut;
    assert Square(e + x) == Square(e) + x * (2 * e + x) by { SquareOfSum(e, x); }
    assert (w * w - 2 * w * cut) * d == x * (w - 2 * cut) by {
      assert w * w - 2 * w * cut == w * (w - 2 * cut) by { Distribute(w, w, -2 * cut); }
      Regroup(w, w - 2 * cut, d);
    }
    assert (d * gain) * w == x * gain by { Regroup(d, gain, w); }
    Distribute(x, gain, w - 2 * cut);
  }

  lemma SquareOfSum(e: int, x: int)
    ensures Square(e + x) == Square(e) + x * (2 * e + x)
  {
    Distribute(e + x, e, x);
    Distribute(x, 2 * e, x);
  }

  lemma Regroup(a: int, b: int, c: int)
    ensures (a * b) * c == (a * c) * b
    ensures (a * b) * c == (c * a) * b
  {
  }

  /** Least squares: an apportionment beats or equals every other integer split of the same total. */
  lemma ApportionmentIsOptimal(total: int, weights: seq<int>, parts: seq<int>, other: seq<int>)
    requires Sum(weights) != 0 && IsApportionment(total, weights, parts)
    requires |other| == |weights| && Sum(other) == total
    ensures Sum(SquaredErrors(total, weights, parts)) <= Sum(SquaredErrors(total, weights, other))
  {
    var mine, theirs := SquaredErrors(total, weights, parts), SquaredErrors(total, weights, other);
    var slope := Slope(total, weights, parts);
    forall i: nat | i < |parts|
      ensures CostsAtLeast(mine[i], theirs[i], parts[i], other[i], slope)
    {
      LineCosts(total, weights, parts, other, i);
    }
    ConvexCosts(mine, theirs, parts, other, slope);
  }

  ghost function Slope(total: int, weights: seq<int>, parts: seq<int>): int
    requires Sum(weights) != 0 && |parts| == |weights|
  {
    var W := Sum(weights);
    var cut := Cut(parts, Bases(total, weights, W), Fractions(total, weights, W));
    Abs(W) * Abs(W) - 2 * Abs(W) * cut
  }

  lemma LineCosts(total: int, weights: seq<int>, parts: seq<int>, other: seq<int>, i: nat)
    requires Sum(weights) != 0 && IsApportionment(total, weights, parts) && i < |parts| == |other|
    ensures CostsAtLeast(SquaredErrors(total, weights, parts)[i], SquaredErrors(total, weights, other)[i],
                         parts[i], other[i], Slope(total, weights, parts))
  {
    var W := Sum(weights);
    var b, f := Base(total, weights[i], W), Fraction(total, weights[i], W);
    var cut := Cut(parts, Bases(total, weights, W), Fractions(total, weights, W));
    CutBounds(total, weights, parts, i);
    ShareFacts(total, weights[i], W);
    ErrorAt(total, weights, parts, i);
    ErrorAt(total, weights, other, i);
    CostsOfMoving(W, total * weights[i], b, f, parts[i], other[i], cut, Slope(total, weights, parts));
  }

  lemma {:induction false} ErrorAt(total: int, weights: seq<int>, parts: seq<int>, i: nat)
    requires i < |parts| == |weights|
    ensures SquaredErrors(total, weights, parts)[i] == Square(parts[i] * Sum(weights) - total * weights[i])
  {
  }

  lemma {:induction false} CostsOfMoving(W: int, n: int, b: int, f: nat, p: int, q: int, cut: nat, slope: int)
    requires W != 0 && Sign(W) * n == Abs(W) * b + f
    requires f < Abs(W) && cut <= Abs(W)
    requires (p == b && f <= cut) || (p == b + 1 && f >= cut)
    requires slope == Abs(W) * Abs(W) - 2 * Abs(W) * cut
    ensures CostsAtLeast(Square(p * W - n), Square(q * W - n), p, q, slope)
  {
    MovingOneLineCosts(W, n, b, f, p, q, cut);
  }

  lemma ShareFacts(total: int, weight: int, W: int)
    requires W != 0
    ensures Sign(W) * (total * weight) == Abs(W) * Base(total, weight, W) + Fraction(total, weight, W)
  {
    FloorDivFacts(total * weight, W);
  }

  lemma MovingOneLineCosts(W: int, n: int, b: int, f: nat, p: int, q: int, cut: nat)
    requires W != 0 && Sign(W) * n == Abs(W) * b + f
    requires f < Abs(W) && cut <= Abs(W)
    requires (p == b && f <= cut) || (p == b + 1 && f >= cut)
    ensures Square(q * W - n) >= Square(p * W - n) + (Abs(W) * Abs(W) - 2 * Abs(W) * cut) * (q - p)
  {
    ErrorIsConvex(Abs(W), b, f, p, q, cut);
    SquareOfMagnitude(W, n, p, Abs(W) * b + f);
    SquareOfMagnitude(W, n, q, Abs(W) * b + f);
  }

  lemma SquareOfMagnitude(W: int, n: int, x: int, m: int)
    requires Sign(W) * n == m
    ensures Square(x * W - n) == Square(x * Abs(W) - m)
  {
    if W < 0 {
      assert x * -W == -(x * W);
      assert Square(-(x * W - n)) == Square(x * W - n);
    }
  }

  lemma CutBounds(total: int, weights: seq<int>, parts: seq<int>, i: nat)
    requires Sum(weights) != 0 && IsApportionment(total, weights, parts) && i < |parts|
    ensures var W := Sum(weights);
      var bases, fractions := Bases(total, weights, W), Fractions(total, weights, W);
      var cut := Cut(parts, bases, fractions);
      && fractions[i] < Abs(W) && cut <= Abs(W)
      && (parts[i] == bases[i] ==> fractions[i] <= cut)
      && (parts[i] != bases[i] ==> parts[i] == bases[i] + 1 && fractions[i] >= cut)
  {
    var W := Sum(weights);
    var bases, fractions := Bases(total, weights, W), Fractions(total, weights, W);
    var cut := Cut(parts, bases, fractions);
    CutSeparates(parts, bases, fractions);
    FloorDivFacts(total * weights[i], W);
    if cut != 0 {
      var j: nat :| j < |parts| && parts[j] == bases[j] && fractions[j] == cut;
      FloorDivFacts(total * weights[j], W);
      if parts[i] != bases[i] {
        assert Before(Keys(total, weights, W), i, j);
      }
    }
  }

  /** The same for a total of either sign, so a credit is as close as the charge it reverses. */
  lemma AllocationIsOptimal(total: int, weights: seq<int>, parts: seq<int>, other: seq<int>)
    requires Sum(weights) != 0 && Allocates(total, weights, parts)
    requires |other| == |weights| && Sum(other) == total
    ensures |parts| == |weights|
    ensures Sum(SquaredErrors(total, weights, parts)) <= Sum(SquaredErrors(total, weights, other))
  {
    if total < 0 {
      SumLinear(other, -1, other, 0, Negated(other));
      NegatedErrors(total, weights, parts);
      NegatedErrors(total, weights, other);
    }
    ApportionmentIsOptimal(Abs(total), weights, Oriented(total, parts), Oriented(total, other));
  }

  lemma NegatedErrors(total: int, weights: seq<int>, parts: seq<int>)
    requires |parts| == |weights|
    ensures SquaredErrors(-total, weights, Negated(parts)) == SquaredErrors(total, weights, parts)
  {
    forall i | 0 <= i < |parts|
      ensures SquaredErrors(-total, weights, Negated(parts))[i] == SquaredErrors(total, weights, parts)[i]
    {
      ErrorAt(-total, weights, Negated(parts), i);
      ErrorAt(total, weights, parts, i);
      SameDistance(parts[i], Sum(weights), total, weights[i]);
    }
  }

  lemma SameDistance(part: int, W: int, total: int, weight: int)
    ensures Square(-part * W - -total * weight) == Square(part * W - total * weight)
  {
    NegatedFactor(part, W);
    NegatedFactor(total, weight);
    SquareOfOpposite(part * W - total * weight);
  }

  lemma SquareOfOpposite(x: int)
    ensures Square(-x) == Square(x)
  {
  }

  // ---------------------------------------------------------------------------------------------
  // Order and scale
  // ---------------------------------------------------------------------------------------------

  /** A heavier line, or an equally heavy one listed earlier, never gets less. */
  lemma AllocationRespectsOrder(total: int, weights: seq<int>, parts: seq<int>, i: nat, j: nat)
    requires total >= 0 && Sum(weights) > 0 && IsApportionment(total, weights, parts)
    requires i < |parts| && j < |parts|
    requires weights[i] > weights[j] || (weights[i] == weights[j] && i <= j)
    ensures parts[i] >= parts[j]
  {
    var W := Sum(weights);
    var ni, nj := total * weights[i], total * weights[j];
    MulLeft(weights[j], weights[i], total);
    DivisionIsMonotone(nj, ni, W);
    var bi, bj := FloorDiv(ni, W), FloorDiv(nj, W);
    if bi == bj && parts[i] == bi && parts[j] == bj + 1 {
      assert Before(Keys(total, weights, W), j, i);
      assert ni == nj && weights[i] > weights[j];
      SameProduct(total, weights[i], weights[j]);
      AllocationIsFair(total, weights, parts, j);
      AllocationIsFair(total, weights, parts, i);
    }
  }

  lemma DivisionIsMonotone(m: int, n: int, d: int)
    requires d > 0 && m <= n
    ensures FloorDiv(m, d) <= FloorDiv(n, d)
    ensures FloorDiv(m, d) == FloorDiv(n, d) ==> n - m == Abs(FloorMod(n, d)) - Abs(FloorMod(m, d))
  {
    FloorDivFacts(m, d);
    FloorDivFacts(n, d);
    QuotientsInOrder(FloorDiv(m, d), FloorDiv(n, d), m, n, d);
  }

  lemma QuotientsInOrder(p: int, q: int, m: int, n: int, d: int)
    requires d > 0 && d * p <= m <= n < d * q + d
    ensures p <= q
  {
    Distribute(d, q, 1);
    if q + 1 <= p {
      MulLeft(q + 1, p, d);
    }
  }

  lemma SameProduct(k: int, x: int, y: int)
    requires k * x == k * y && x != y
    ensures k == 0 && k * x == 0 && k * y == 0
  {
    Distribute(k, x, -y);
    if k != 0 {
      if x - y >= 1 { MulLeft(1, x - y, Abs(k)); } else { MulLeft(x - y, -1, Abs(k)); }
    }
  }

  function Scaled(weights: seq<int>, k: int): (r: seq<int>)
    ensures |r| == |weights|
  {
    seq(|weights|, i requires 0 <= i < |weights| => k * weights[i])
  }

  lemma ScaledDivision(n: int, d: int, k: int)
    requires d != 0 && k != 0
    ensures k * d != 0
    ensures FloorDiv(k * n, k * d) == FloorDiv(n, d)
    ensures Abs(FloorMod(k * n, k * d)) == Abs(k) * Abs(FloorMod(n, d))
  {
    NonZeroProduct(k, d);
    FloorDivFacts(n, d);
    FloorDivFacts(k * n, k * d);
    ScaledSplit(n, d, k, FloorDiv(n, d), Abs(FloorMod(n, d)));
    DivisionIsUnique(Abs(k * d), FloorDiv(k * n, k * d), Abs(FloorMod(k * n, k * d)),
                     FloorDiv(n, d), Abs(k) * Abs(FloorMod(n, d)));
  }

  lemma ScaledSplit(n: int, d: int, k: int, q: int, r: nat)
    requires d != 0 && k != 0 && Sign(d) * n == Abs(d) * q + r && r < Abs(d)
    ensures Sign(k * d) * (k * n) == Abs(k * d) * q + Abs(k) * r
    ensures 0 <= Abs(k) * r < Abs(k * d)
  {
    var a, w := Abs(k), Abs(d);
    MagnitudeOfProduct(k, d, n);
    NonZeroProduct(k, d);
    Distribute(a, w * q, r);
    assert a * (w * q) == (a * w) * q;
    MulLeft(r + 1, w, a);
    assert (r + 1) * a == a * r + a && w * a == a * w;
    MulLeft(0, r, a);
  }

  lemma MagnitudeOfProduct(k: int, d: int, n: int)
    requires k != 0 && d != 0
    ensures Abs(k * d) == Abs(k) * Abs(d)
    ensures Sign(k * d) * (k * n) == Abs(k) * (Sign(d) * n)
  {
    SignOfProduct(k, d);
    NonZeroProduct(k, d);
    ProductIsNatural(Abs(k), Abs(d));
    assert -k * n == -(k * n) && k * -n == -(k * n) && -k * -n == k * n;
  }

  lemma NonZeroProduct(k: int, d: int)
    requires k != 0 && d != 0
    ensures k * d != 0
  {
  }

  lemma DivisionIsUnique(d: nat, q: int, r: nat, q': int, r': nat)
    requires r < d && r' < d && d * q + r == d * q' + r'
    ensures q == q' && r == r'
  {
    Distribute(d, q, -q');
    if q - q' >= 1 { MulLeft(1, q - q', d); } else if q - q' <= -1 { MulLeft(q - q', -1, d); }
  }

  /** Weights are proportions: multiplying all of them by the same non-zero integer moves no cent. */
  lemma AllocationIgnoresScale(total: int, weights: seq<int>, k: int, parts: seq<int>)
    requires Sum(weights) != 0 && k != 0
    ensures Sum(Scaled(weights, k)) == k * Sum(weights) != 0
    ensures Allocates(total, weights, parts) <==> Allocates(total, Scaled(weights, k), parts)
  {
    var W := Sum(weights);
    SumLinear(weights, k, weights, 0, Scaled(weights, k));
    NonZeroProduct(k, W);
    ApportionmentIgnoresScale(Abs(total), weights, k, Oriented(total, parts));
  }

  lemma ApportionmentIgnoresScale(total: int, weights: seq<int>, k: int, parts: seq<int>)
    requires Sum(weights) != 0 && k != 0 && Sum(Scaled(weights, k)) == k * Sum(weights) != 0
    ensures IsApportionment(total, weights, parts) <==> IsApportionment(total, Scaled(weights, k), parts)
  {
    var W := Sum(weights);
    var scaled := Scaled(weights, k);
    forall i: nat | i < |weights|
      ensures Bases(total, scaled, k * W)[i] == Bases(total, weights, W)[i]
      ensures Keys(total, scaled, k * W)[i] == Abs(k) * Keys(total, weights, W)[i]
    {
      ScaledShare(total, weights[i], W, k);
      NegatedProduct(Abs(k), Fraction(total, weights[i], W));
    }
    assert Bases(total, scaled, k * W) == Bases(total, weights, W);
    SameOrder(Keys(total, weights, W), Keys(total, scaled, k * W), Abs(k));
  }

  lemma NegatedProduct(k: int, x: int)
    ensures k * -x == -(k * x)
  {
  }

  lemma ScaledShare(total: int, weight: int, W: int, k: int)
    requires W != 0 && k != 0 && k * W != 0
    ensures Base(total, k * weight, k * W) == Base(total, weight, W)
    ensures Fraction(total, k * weight, k * W) == Abs(k) * Fraction(total, weight, W)
  {
    ScaledProduct(total, weight, k);
    ShareOf(total, weight, W, total * weight);
    ShareOf(total, k * weight, k * W, k * (total * weight));
    ScaledDivision(total * weight, W, k);
  }

  lemma ScaledProduct(total: int, weight: int, k: int)
    ensures total * (k * weight) == k * (total * weight)
  {
  }

  lemma ShareOf(total: int, weight: int, W: int, n: int)
    requires W != 0 && total * weight == n
    ensures Base(total, weight, W) == FloorDiv(n, W) && Fraction(total, weight, W) == Abs(FloorMod(n, W))
  {
  }

  lemma SameOrder(keys: seq<int>, keys': seq<int>, k: nat)
    requires k > 0 && |keys| == |keys'| && forall i :: 0 <= i < |keys| ==> keys'[i] == k * keys[i]
    ensures forall i: nat, j: nat :: i < |keys| && j < |keys| ==> (Before(keys, i, j) <==> Before(keys', i, j))
  {
    forall i: nat, j: nat | i < |keys| && j < |keys|
      ensures Before(keys, i, j) <==> Before(keys', i, j)
    {
      SameComparison(k, keys[i], keys[j]);
    }
  }

  lemma SameComparison(k: nat, x: int, y: int)
    requires k > 0
    ensures x > y <==> k * x > k * y
    ensures x == y <==> k * x == k * y
  {
  }
}
