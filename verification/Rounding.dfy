/** The rounding half of the money kernel: `apply_bp` and `percent_of`. */
module Rounding {
  import opened Sums

  // Basis points in 100%.
  const BP_SCALE: int := 10_000

  function Abs(x: int): int {
    if x < 0 then -x else x
  }

  function Signed(negative: bool, magnitude: int): int {
    if negative then -magnitude else magnitude
  }

  /** Applies a basis-point rate to an amount of cents. */
  function ApplyBp(amount: int, rate: int): int {
    if amount == 0 || rate == 0 then 0
    else
      var product := Abs(amount) * Abs(rate);
      var quotient, remainder := product / BP_SCALE, product % BP_SCALE;
      Signed((amount < 0) != (rate < 0), if remainder * 2 >= BP_SCALE then quotient + 1 else quotient)
  }

  /** `part` as a proportion of `whole`, in basis points. */
  function PercentOf(part: int, whole: int): int {
    if whole == 0 then 0
    else
      var scaled := Abs(part) * BP_SCALE;
      var quotient, remainder := scaled / Abs(whole), scaled % Abs(whole);
      Signed((part < 0) != (whole < 0), if remainder * 2 >= Abs(whole) then quotient + 1 else quotient)
  }

  /** q is the integer nearest to n/d, and the one further from zero when two are equally near. */
  ghost predicate NearestAwayFromZero(q: int, n: int, d: int)
    requires d > 0
  {
    && 2 * Abs(q * d - n) <= d
    && (2 * Abs(q * d - n) == d ==> Abs(n) < Abs(q * d))
  }

  lemma NearestIsUnique(q: int, q': int, n: int, d: int)
    requires d > 0
    requires NearestAwayFromZero(q, n, d) && NearestAwayFromZero(q', n, d)
    ensures q == q'
  {
    if q < q' {
      OnlyOneNearest(q, q', n, d);
    } else if q' < q {
      OnlyOneNearest(q', q, n, d);
    }
  }

  lemma OnlyOneNearest(q: int, q': int, n: int, d: int)
    requires d > 0 && q < q'
    requires NearestAwayFromZero(q, n, d)
    ensures !NearestAwayFromZero(q', n, d)
  {
    MulLeft(q + 1, q', d);
    assert (q + 1) * d == q * d + d;
    if q >= 0 {
      MulLeft(0, q, d);
    } else {
      MulLeft(q + 1, 0, d);
    }
  }

  lemma MulLeft(x: int, y: int, d: int)
    requires x <= y && d >= 0
    ensures x * d <= y * d
  {
  }

  // The common body of both functions: rounding a non-negative n over d, then putting a sign on it.
  lemma SignedRoundingIsNearest(n: nat, d: nat, negative: bool)
    requires d > 0
    ensures NearestAwayFromZero(Signed(negative, if n % d * 2 >= d then n / d + 1 else n / d), Signed(negative, n), d)
  {
    var q, r := n / d, n % d;
    assert n == q * d + r;
    var m := if r * 2 >= d then q + 1 else q;
    assert m * d == q * d + if r * 2 >= d then d else 0;
    assert (-m) * d == -(m * d);
  }

  lemma SignOfProduct(a: int, b: int)
    ensures (a < 0) != (b < 0) ==> a * b == -(Abs(a) * Abs(b))
    ensures (a < 0) == (b < 0) ==> a * b == Abs(a) * Abs(b)
  {
  }

  /** `apply_bp` is the nearest cent to amount * rate / 10000, ties away from zero, and nothing else is. */
  lemma ApplyBpIsNearest(amount: int, rate: int, q: int)
    ensures NearestAwayFromZero(q, amount * rate, BP_SCALE) <==> q == ApplyBp(amount, rate)
  {
    ApplyBpRounds(amount, rate);
    if NearestAwayFromZero(q, amount * rate, BP_SCALE) {
      NearestIsUnique(q, ApplyBp(amount, rate), amount * rate, BP_SCALE);
    }
  }

  lemma ApplyBpRounds(amount: int, rate: int)
    ensures NearestAwayFromZero(ApplyBp(amount, rate), amount * rate, BP_SCALE)
  {
    var product := Abs(amount) * Abs(rate);
    SignOfProduct(amount, rate);
    if amount != 0 && rate != 0 {
      ProductIsNatural(Abs(amount), Abs(rate));
      SignedRoundingIsNearest(product, BP_SCALE, (amount < 0) != (rate < 0));
    }
  }

  lemma ProductIsNatural(x: nat, y: nat)
    ensures x * y >= 0
  {
  }

  /** `percent_of` is the nearest basis point to part / whole; a zero whole reports 0%. */
  lemma PercentOfIsNearest(part: int, whole: int, q: int)
    ensures whole > 0 ==> (NearestAwayFromZero(q, part * BP_SCALE, whole) <==> q == PercentOf(part, whole))
    ensures whole < 0 ==> (NearestAwayFromZero(q, -part * BP_SCALE, -whole) <==> q == PercentOf(part, whole))
    ensures whole == 0 ==> PercentOf(part, whole) == 0
  {
    if whole != 0 {
      SignedRoundingIsNearest(Abs(part) * BP_SCALE, Abs(whole), (part < 0) != (whole < 0));
      var n := if whole > 0 then part * BP_SCALE else -part * BP_SCALE;
      assert NearestAwayFromZero(PercentOf(part, whole), n, Abs(whole));
      if NearestAwayFromZero(q, n, Abs(whole)) {
        NearestIsUnique(q, PercentOf(part, whole), n, Abs(whole));
      }
    }
  }

  /** A credit rounds by the same magnitude as the charge it reverses. */
  lemma ApplyBpIsOdd(amount: int, rate: int)
    ensures ApplyBp(-amount, rate) == -ApplyBp(amount, rate)
    ensures ApplyBp(amount, -rate) == -ApplyBp(amount, rate)
  {
    assert Abs(-amount) == Abs(amount) && Abs(-rate) == Abs(rate);
  }

  lemma ApplyBpAtFullRate(amount: int)
    ensures ApplyBp(amount, BP_SCALE) == amount
  {
    ApplyBpIsNearest(amount, BP_SCALE, amount);
  }

  // The nearest integer is monotone in the exact value it approximates.
  lemma NearestIsMonotone(q: int, n: int, q': int, n': int, d: int)
    requires d > 0 && n <= n'
    requires NearestAwayFromZero(q, n, d) && NearestAwayFromZero(q', n', d)
    ensures q <= q'
  {
    if q > q' {
      MulLeft(q' + 1, q, d);
      assert (q' + 1) * d == q' * d + d;
      assert n == n';
      NearestIsUnique(q, q', n, d);
    }
  }

  /** A higher rate never withholds less, and a larger amount is never charged less. */
  lemma ApplyBpIsMonotone(amount: int, amount': int, rate: int, rate': int)
    requires amount * rate <= amount' * rate'
    ensures ApplyBp(amount, rate) <= ApplyBp(amount', rate')
  {
    ApplyBpRounds(amount, rate);
    ApplyBpRounds(amount', rate');
    NearestIsMonotone(ApplyBp(amount, rate), amount * rate, ApplyBp(amount', rate'), amount' * rate', BP_SCALE);
  }

  // ---------------------------------------------------------------------------------------------
  // Rounding line by line against rounding the total
  // ---------------------------------------------------------------------------------------------

  function EachBp(amounts: seq<int>, rate: int): (r: seq<int>)
    ensures |r| == |amounts|
  {
    seq(|amounts|, i requires 0 <= i < |amounts| => ApplyBp(amounts[i], rate))
  }

  // The accumulated rounding error, in ten-thousandths of a cent.
  ghost function Drift(amounts: seq<int>, rate: int): int {
    BP_SCALE * Sum(EachBp(amounts, rate)) - Sum(amounts) * rate
  }

  lemma EachBpLast(amounts: seq<int>, rate: int)
    requires |amounts| > 0
    ensures var n := |amounts| - 1;
      Drift(amounts, rate) == Drift(amounts[..n], rate) + BP_SCALE * ApplyBp(amounts[n], rate) - amounts[n] * rate
  {
    var n := |amounts| - 1;
    assert EachBp(amounts, rate)[..n] == EachBp(amounts[..n], rate);
    SumTimesRate(amounts, rate);
  }

  // Each amount drifts by at most half a cent, and the bound is reached only when every exact
  // product is a positive (or, on the other side, negative) tie: see DriftWithin.
  lemma {:induction false} DriftBound(amounts: seq<int>, rate: int)
    ensures DriftWithin(Drift(amounts, rate), Sum(amounts) * rate, |amounts|)
  {
    if |amounts| > 0 {
      var n := |amounts| - 1;
      DriftBound(amounts[..n], rate);
      EachBpLast(amounts, rate);
      ApplyBpRounds(amounts[n], rate);
      DriftStep(Drift(amounts[..n], rate), Sum(amounts[..n]) * rate, ApplyBp(amounts[n], rate), amounts[n] * rate, n);
      SumTimesRate(amounts, rate);
    } else {
      assert EachBp(amounts, rate) == [];
    }
  }

  ghost predicate DriftWithin(drift: int, exact: int, n: nat) {
    && Abs(drift) <= 5000 * n
    && (n > 0 && drift == 5000 * n ==> exact > 0)
    && (n > 0 && drift == -5000 * n ==> exact < 0)
    && (n == 0 ==> exact == 0)
  }

  lemma DriftStep(drift: int, exact: int, q: int, product: int, n: nat)
    requires DriftWithin(drift, exact, n)
    requires NearestAwayFromZero(q, product, BP_SCALE)
    ensures DriftWithin(drift + BP_SCALE * q - product, exact + product, n + 1)
  {
  }

  lemma SumTimesRate(amounts: seq<int>, rate: int)
    requires |amounts| > 0
    ensures Sum(amounts) * rate == Sum(amounts[..|amounts| - 1]) * rate + amounts[|amounts| - 1] * rate
  {
  }

  /** Charging n amounts one by one differs from charging their sum by at most n/2 cents. */
  lemma {:induction false} PerLineGap(amounts: seq<int>, rate: int)
    ensures 2 * Abs(Sum(EachBp(amounts, rate)) - ApplyBp(Sum(amounts), rate)) <= |amounts|
  {
    var s, exact := Sum(EachBp(amounts, rate)), Sum(amounts) * rate;
    DriftBound(amounts, rate);
    ApplyBpRounds(Sum(amounts), rate);
    GapFromDrifts(s, ApplyBp(Sum(amounts), rate), exact, Drift(amounts, rate), |amounts|);
  }

  // s is n roundings away from exact/10000, t is one; the two extremes pull in opposite directions.
  lemma GapFromDrifts(s: int, t: int, exact: int, drift: int, n: nat)
    requires drift == BP_SCALE * s - exact && DriftWithin(drift, exact, n)
    requires NearestAwayFromZero(t, exact, BP_SCALE)
    ensures 2 * Abs(s - t) <= n
  {
  }

  /** The bound is reached for every n: n fives at 50% come to exactly n/2 cents too many. */
  lemma PerLineGapIsTight(n: nat)
    ensures var fives := seq(n, _ => 5);
      Sum(EachBp(fives, 5000)) - ApplyBp(Sum(fives), 5000) == n / 2
  {
    var fives := seq(n, _ => 5);
    SumConstant(fives, 5);
    SumConstant(EachBp(fives, 5000), 3);
    ApplyBpIsNearest(5 * n, 5000, 3 * n - n / 2);
  }
}
