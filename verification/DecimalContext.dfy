/** The decimal context that amounts go through when they are parsed: 28 significant digits, half to even. */
module DecimalContext {
  function Pow10(n: nat): (p: nat)
    ensures p > 0
  {
    if n == 0 then 1 else 10 * Pow10(n - 1)
  }

  const LIMIT: nat := Pow10(28)

  // The power of ten that stands for the digits to drop.
  function Excess(n: nat): (unit: nat)
    ensures unit > 0
  {
    if n < LIMIT then 1 else 10 * Excess(n / 10)
  }

  function HalfEven(n: nat, unit: nat): nat
    requires unit > 0
  {
    var q, r := n / unit, n % unit;
    if 2 * r > unit || (2 * r == unit && q % 2 == 1) then q + 1 else q
  }

  /** A number as the context keeps it: its first 28 digits, rounded. */
  function InContext(n: nat): nat {
    HalfEven(n, Excess(n)) * Excess(n)
  }

  /** 28 digits hold it: the digits to drop are zeros. */
  predicate Fits(n: nat) {
    n % Excess(n) == 0
  }

  lemma QuotientIs(n: nat, d: nat, q: int, r: nat)
    requires r < d && n == d * q + r
    ensures n / d == q && n % d == r
  {
    var q', r' := n / d, n % d;
    assert n == d * q' + r';
    assert d * (q - q') == r' - r;
    if q - q' >= 1 { Grows(1, q - q', d); } else if q - q' <= -1 { Grows(q - q', -1, d); }
  }

  lemma Grows(x: int, y: int, d: int)
    requires x <= y && d >= 0
    ensures x * d <= y * d
  {
  }

  lemma DivisionFacts(n: nat, unit: nat)
    requires unit > 0
    ensures n == unit * (n / unit) + n % unit && n % unit < unit
    ensures (n / unit) * unit == n - n % unit
    ensures (n / unit + 1) * unit == n - n % unit + unit
  {
  }

  lemma {:induction false} RoundsToItself(n: nat, unit: nat)
    requires unit > 0
    ensures HalfEven(n, unit) * unit == n <==> n % unit == 0
  {
    DivisionFacts(n, unit);
  }

  lemma {:induction false} RoundsClose(n: nat, unit: nat)
    requires 0 < unit <= n
    ensures 2 * (HalfEven(n, unit) * unit) <= 3 * n
  {
    DivisionFacts(n, unit);
  }

  /** A number is kept exactly when it fits. */
  lemma {:induction false} KeptExactlyWhen(n: nat)
    ensures InContext(n) == n <==> Fits(n)
  {
    RoundsToItself(n, Excess(n));
  }

  // q units are as near to n as any number of them, and even on ties.
  predicate NearestEven(q: nat, n: nat, unit: nat) {
    && 2 * (q * unit) <= 2 * n + unit && 2 * n <= 2 * (q * unit) + unit
    && (2 * (q * unit) == 2 * n + unit || 2 * n == 2 * (q * unit) + unit ==> q % 2 == 0)
  }

  lemma {:induction false} RoundsNearestEven(n: nat, unit: nat)
    requires unit > 0
    ensures NearestEven(HalfEven(n, unit), n, unit)
  {
    DivisionFacts(n, unit);
  }

  lemma {:induction false} ExcessLeaves28Digits(n: nat) returns (places: nat)
    ensures Excess(n) == Pow10(places) && LeavesDigits(n, places)
  {
    if n < LIMIT {
      places := 0;
    } else {
      var rest := ExcessLeaves28Digits(n / 10);
      places := rest + 1;
      if rest > 0 {
        DividedTwice(n, Pow10(rest - 1));
      } else {
        assert Pow10(0) == 1 && n / 1 == n;
      }
    }
  }

  lemma {:induction false} DividedTwice(n: nat, d: nat)
    requires d > 0
    ensures n / (10 * d) == n / 10 / d
  {
    var q, r := n / 10 / d, n / 10 % d;
    DivisionFacts(n / 10, d);
    DivisionFacts(n, 10);
    Tenfold(d, q);
    QuotientIs(n, 10 * d, q, 10 * r + n % 10);
  }

  lemma Tenfold(d: nat, q: nat)
    ensures (10 * d) * q == 10 * (d * q)
  {
  }

  // The digits to drop are the least number of them that leaves 28.
  predicate LeavesDigits(n: nat, places: nat) {
    && (places == 0 ==> n < LIMIT)
    && (places > 0 ==> LIMIT <= n / Pow10(places - 1) < 10 * LIMIT)
  }

  /** Kept is what 28 digits make of n: the nearest number with that many before its zeros, on ties the even one. */
  ghost predicate IsKept(n: nat, kept: nat) {
    exists places, q :: LeavesDigits(n, places) && kept == q * Pow10(places) && NearestEven(q, n, Pow10(places))
  }

  /** The context keeps the nearest number with at most 28 digits before the zeros, on ties the even one. */
  lemma {:induction false} KeptIsNearestEven(n: nat) returns (places: nat, q: nat)
    ensures LeavesDigits(n, places) && InContext(n) == q * Pow10(places) && NearestEven(q, n, Pow10(places))
    ensures IsKept(n, InContext(n))
  {
    places := ExcessLeaves28Digits(n);
    q := HalfEven(n, Excess(n));
    RoundsNearestEven(n, Excess(n));
  }

  lemma {:induction false} SmallFits(n: nat)
    requires n < LIMIT
    ensures Fits(n) && InContext(n) == n
  {
    KeptExactlyWhen(n);
  }

  lemma {:induction false} ExcessOfSmall(n: nat)
    requires n < 100 * LIMIT
    ensures Excess(n) == 1 || Excess(n) == 10 || Excess(n) == 100
  {
    var tenth := n / 10;
    assert tenth < 10 * LIMIT && tenth / 10 < LIMIT;
    assert Excess(tenth / 10) == 1;
    assert Excess(tenth) == 1 || Excess(tenth) == 10;
  }

  lemma {:induction false} HundredsFit(n: nat)
    requires 100 * n < 100 * LIMIT
    ensures InContext(100 * n) == 100 * n
  {
    ExcessOfSmall(100 * n);
    QuotientIs(100 * n, 1, 100 * n, 0);
    QuotientIs(100 * n, 10, 10 * n, 0);
    QuotientIs(100 * n, 100, n, 0);
    KeptExactlyWhen(100 * n);
  }

  lemma {:induction false} ExcessIsAtMost(n: nat)
    requires n > 0
    ensures Excess(n) <= n
  {
    if n >= LIMIT {
      assert LIMIT == 10 * Pow10(27);
      ExcessIsAtMost(n / 10);
    }
  }

  // Rounding to 28 digits adds no more than half again.
  lemma {:induction false} KeptIsClose(n: nat)
    requires n > 0
    ensures 2 * InContext(n) <= 3 * n
  {
    ExcessIsAtMost(n);
    RoundsClose(n, Excess(n));
  }

  lemma {:induction false} Pow10IsMonotone(a: nat, b: nat)
    requires a <= b
    ensures Pow10(a) <= Pow10(b)
  {
    if a < b {
      Pow10IsMonotone(a, b - 1);
    }
  }

  // ---------------------------------------------------------------------------------------------
  // A hundredfold is kept to the same digits
  // ---------------------------------------------------------------------------------------------

  lemma {:induction false} HundredfoldRounds(n: nat, unit: nat)
    requires unit > 0
    ensures HalfEven(100 * n, 100 * unit) * (100 * unit) == 100 * (HalfEven(n, unit) * unit)
  {
    var q, r := n / unit, n % unit;
    DivisionFacts(n, unit);
    Hundredfold(unit, q);
    QuotientIs(100 * n, 100 * unit, q, 100 * r);
    assert HalfEven(100 * n, 100 * unit) == HalfEven(n, unit);
    Hundredfold(unit, HalfEven(n, unit));
  }

  lemma Hundredfold(unit: nat, q: nat)
    ensures (100 * unit) * q == 100 * (unit * q) && q * (100 * unit) == 100 * (q * unit)
  {
  }

  lemma {:induction false} ExcessOfHundredfold(n: nat)
    requires n >= LIMIT
    ensures Excess(100 * n) == 100 * Excess(n)
  {
    assert 100 * n / 10 == 10 * n && 10 * n / 10 == n;
    assert Excess(10 * n) == 10 * Excess(n);
  }

  lemma {:induction false} HundredfoldIsKept(n: nat)
    ensures InContext(100 * n) == 100 * InContext(n)
  {
    if n < LIMIT {
      SmallFits(n);
      HundredsFit(n);
    } else {
      ExcessOfHundredfold(n);
      HundredfoldRounds(n, Excess(n));
    }
  }

  lemma {:induction false} Pow10Adds(a: nat, b: nat)
    ensures Pow10(a + b) == Pow10(a) * Pow10(b)
  {
    if a > 0 {
      Pow10Adds(a - 1, b);
      assert Pow10(a + b) == 10 * Pow10(a - 1 + b);
    }
  }

  lemma {:induction false} LimitIs()
    ensures LIMIT == 10_000_000_000_000_000_000_000_000_000
  {
    assert Pow10(1) == 10;
    assert Pow10(3) == 1000;
    Pow10Adds(3, 4);
    Pow10Adds(1, 3);
    Pow10Adds(7, 7);
    Pow10Adds(14, 14);
  }

  /** The least number that does not fit. */
  lemma {:induction false} OneTooLong()
    ensures LIMIT == 10_000_000_000_000_000_000_000_000_000
    ensures !Fits(LIMIT + 1) && InContext(LIMIT + 1) == LIMIT
  {
    LimitIs();
    var tenth := Pow10(27);
    assert LIMIT == 10 * tenth;
    assert (LIMIT + 1) / 10 == tenth && (LIMIT + 1) % 10 == 1 && tenth < LIMIT;
    assert Excess(LIMIT + 1) == 10;
  }

  // ---------------------------------------------------------------------------------------------
  // Adding one half
  // ---------------------------------------------------------------------------------------------

  lemma {:induction false} ShortHalfSumIsKept(k: nat, tail: nat, unit: nat)
    requires 100 * k < LIMIT && unit == 1000 * tail <= LIMIT
    ensures InContext(1000 * k + 5 * unit) == 1000 * k + 5 * unit
  {
    HundredsFit(10 * k + 50 * tail);
  }

  lemma {:induction false} LongHalfSumIsNoCent(k: nat, unit: nat)
    requires 100 * k < LIMIT && unit >= 10 * LIMIT
    ensures InContext(1000 * k + 5 * unit) / (10 * unit) == 0 == (1000 * k + 5 * unit) / (10 * unit)
  {
    KeptIsClose(1000 * k + 5 * unit);
    BelowIsNone(InContext(1000 * k + 5 * unit), 10 * unit);
    BelowIsNone(1000 * k + 5 * unit, 10 * unit);
  }

  lemma BelowIsNone(n: nat, d: nat)
    requires n < d
    ensures n / d == 0
  {
  }

  lemma {:induction false} FewPlaces(k: nat, places: nat)
    requires places < 3
    ensures 100 * k % Pow10(places) == 0
  {
    assert Pow10(0) == 1 && Pow10(1) == 10 && Pow10(2) == 100;
    var unit := Pow10(places);
    QuotientIs(100 * k, unit, if places == 0 then 100 * k else if places == 1 then 10 * k else k, 0);
  }

  // Two places or fewer leave nothing past the cents.
  lemma {:induction false} ManyPlaces(k: nat, places: nat)
    requires 100 * k % Pow10(places) != 0
    ensures places >= 3 && Pow10(places) == 1000 * Pow10(places - 3)
  {
    if places < 3 {
      FewPlaces(k, places);
    } else {
      assert Pow10(places) == 10 * Pow10(places - 1);
      assert Pow10(places - 1) == 10 * Pow10(places - 2);
      assert Pow10(places - 2) == 10 * Pow10(places - 3);
    }
  }

  /** The sum of a number of cents below the limit with one half keeps its whole cents. */
  lemma {:induction false} HalfSumIsKept(k: nat, places: nat)
    requires 100 * k < LIMIT && 100 * k % Pow10(places) != 0
    ensures InContext(1000 * k + 5 * Pow10(places)) / (10 * Pow10(places))
      == (1000 * k + 5 * Pow10(places)) / (10 * Pow10(places))
  {
    ManyPlaces(k, places);
    HalfSumAtPlaces(k, places, Pow10(places));
  }

  lemma {:induction false} HalfSumAtPlaces(k: nat, places: nat, unit: nat)
    requires 100 * k < LIMIT && places >= 3 && unit == Pow10(places) == 1000 * Pow10(places - 3)
    ensures InContext(1000 * k + 5 * unit) / (10 * unit) == (1000 * k + 5 * unit) / (10 * unit)
  {
    if places <= 28 {
      Pow10IsMonotone(places, 28);
      ShortHalfSumIsKept(k, Pow10(places - 3), unit);
    } else {
      Pow10IsMonotone(29, places);
      assert Pow10(29) == 10 * LIMIT;
      LongHalfSumIsNoCent(k, unit);
    }
  }
}
