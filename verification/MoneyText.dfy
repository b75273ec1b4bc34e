/** `to_display`, `parse_money` and `_decimal_to_cents`: amounts as text, and back. */
module MoneyText {
  import opened DecimalContext
  import opened Outcomes
  import opened Rounding

  // ---------------------------------------------------------------------------------------------
  // Digits
  // ---------------------------------------------------------------------------------------------

  predicate IsDigit(c: char) {
    '0' <= c <= '9'
  }

  function DigitChar(d: nat): char
    requires d < 10
  {
    ('0' as int + d) as char
  }

  function DigitValue(c: char): nat
    requires IsDigit(c)
  {
    c as int - '0' as int
  }

  predicate AllDigits(s: string) {
    forall i :: 0 <= i < |s| ==> IsDigit(s[i])
  }

  function Numeral(n: nat): string {
    if n < 10 then [DigitChar(n)] else Numeral(n / 10) + [DigitChar(n % 10)]
  }

  function Value(digits: string): nat
    requires AllDigits(digits)
  {
    if |digits| == 0 then 0
    else 10 * Value(digits[..|digits| - 1]) + DigitValue(digits[|digits| - 1])
  }

  lemma ValueAppend(digits: string, c: char)
    requires AllDigits(digits) && IsDigit(c)
    ensures AllDigits(digits + [c]) && Value(digits + [c]) == 10 * Value(digits) + DigitValue(c)
  {
    assert (digits + [c])[..|digits|] == digits;
  }

  lemma {:induction false} NumeralRoundTrip(n: nat)
    ensures |Numeral(n)| > 0 && AllDigits(Numeral(n)) && Value(Numeral(n)) == n
  {
    if n < 10 {
      assert Numeral(n)[..0] == "";
    } else {
      NumeralRoundTrip(n / 10);
      ValueAppend(Numeral(n / 10), DigitChar(n % 10));
    }
  }

  // ---------------------------------------------------------------------------------------------
  // Display
  // ---------------------------------------------------------------------------------------------

  // A comma before every group of three digits, counted from the right.
  function Grouped(digits: string): string {
    if |digits| <= 3 then digits
    else Grouped(digits[..|digits| - 3]) + "," + digits[|digits| - 3..]
  }

  function TwoDigits(n: nat): string
    requires n < 100
  {
    [DigitChar(n / 10), DigitChar(n % 10)]
  }

  function Body(amount: int, symbol: string): string {
    symbol + Grouped(Numeral(Abs(amount) / 100)) + "." + TwoDigits(Abs(amount) % 100)
  }

  /** Formats an amount for a document or a screen, negatives as -$1.00 or as ($1.00). */
  function ToDisplay(amount: int, symbol: string, parensForNegative: bool): string {
    if amount >= 0 then Body(amount, symbol)
    else if parensForNegative then "(" + Body(amount, symbol) + ")"
    else "-" + Body(amount, symbol)
  }

  /** Counting from the right, exactly every fourth character of a grouped numeral is a comma. */
  lemma {:induction false} GroupsOfThree(digits: string, k: nat)
    requires AllDigits(digits) && k < |Grouped(digits)|
    ensures Grouped(digits)[|Grouped(digits)| - 1 - k] == ',' <==> k % 4 == 3
  {
    if |digits| > 3 {
      var head, tail := Grouped(digits[..|digits| - 3]), digits[|digits| - 3..];
      if k >= 4 {
        GroupsOfThree(digits[..|digits| - 3], k - 4);
      }
      FromTheRight(head, tail, k);
    }
  }

  lemma FromTheRight(head: string, tail: string, k: nat)
    requires |tail| == 3 && AllDigits(tail) && k < |head| + 4
    requires k >= 4 ==> (head[|head| + 3 - k] == ',' <==> (k - 4) % 4 == 3)
    ensures (head + "," + tail)[|head| + 3 - k] == ',' <==> k % 4 == 3
  {
  }

  // ---------------------------------------------------------------------------------------------
  // Parsing
  // ---------------------------------------------------------------------------------------------

  // The characters str.strip discards.
  predicate IsSpace(c: char) {
    || '\t' <= c <= '\r' || '\U{1c}' <= c <= ' ' || c == '\U{85}' || c == '\U{a0}' || c == '\U{1680}'
    || '\U{2000}' <= c <= '\U{200a}' || c == '\U{2028}' || c == '\U{2029}' || c == '\U{202f}'
    || c == '\U{205f}' || c == '\U{3000}'
  }

  // Dollar, comma, space, no-break space, narrow no-break space, thin space.
  const NOISE: string := "$, \U{a0}\U{202f}\U{2009}"

  function Strip(s: string): string {
    if s == "" then s
    else if IsSpace(s[0]) then Strip(s[1..])
    else if IsSpace(s[|s| - 1]) then Strip(s[..|s| - 1])
    else s
  }

  // s with every character of the list removed.
  function Without(s: string, removed: string): string {
    if s == "" then ""
    else
      var rest, last := Without(s[..|s| - 1], removed), s[|s| - 1];
      if last in removed then rest else rest + [last]
  }

  // Where the decimal point stands, or the end of the text.
  function Point(s: string): (p: nat)
    ensures p <= |s| && (forall i :: 0 <= i < p ==> s[i] != '.') && (p < |s| ==> s[p] == '.')
  {
    if s == "" || s[0] == '.' then 0 else 1 + Point(s[1..])
  }

  predicate IsUnsigned(s: string) {
    var p := Point(s);
    && p > 0 && AllDigits(s[..p])
    && (p < |s| ==> p + 1 < |s| && AllDigits(s[p + 1..]))
  }

  // Digits, then optionally a point and more digits; the pattern's end anchor lets one newline pass.
  predicate IsMonetary(text: string) {
    IsUnsigned(Magnitude(text))
  }

  function Magnitude(text: string): string {
    var line := if text != "" && text[|text| - 1] == '\n' then text[..|text| - 1] else text;
    if line != "" && line[0] == '-' then line[1..] else line
  }

  // The cents of magnitude / 10^places dollars: the product by 100, and the sum with one half, go through the context.
  function CentsOf(magnitude: nat, places: nat, allowRounding: bool): Result<int> {
    var scaled, unit := InContext(100 * magnitude), Pow10(places);
    if scaled % unit == 0 then Ok(scaled / unit)
    else if !allowRounding then Err(MoneyError)
    else Ok(InContext(10 * scaled + 5 * unit) / (10 * unit))
  }

  /** mantissa / 10^places dollars, in whole cents. */
  function DecimalToCents(mantissa: int, places: nat, allowRounding: bool): Result<int> {
    match CentsOf(Abs(mantissa), places, allowRounding)
    case Ok(cents) => Ok(Signed(mantissa < 0, cents))
    case Err(e) => Err(e)
  }

  // The decimal a text stands for: mantissa / 10^places.
  datatype Decimal = Decimal(mantissa: int, places: nat)

  // What a piece of monetary text says, once it has been cleaned.
  function Read(text: string): Result<Decimal> {
    if !IsMonetary(text) then Err(MoneyError)
    else
      var s := Magnitude(text);
      var p := Point(s);
      var places := if p < |s| then |s| - p - 1 else 0;
      var fraction := if p < |s| then s[p + 1..] else "";
      var mantissa := Value(s[..p]) * Pow10(places) + Value(fraction);
      Ok(Decimal(if text[0] == '-' then -mantissa else mantissa, places))
  }

  function ToCents(read: Result<Decimal>, allowRounding: bool): Result<int> {
    match read
    case Ok(value) => DecimalToCents(value.mantissa, value.places, allowRounding)
    case Err(e) => Err(e)
  }

  predicate InParentheses(text: string) {
    |text| >= 2 && text[0] == '(' && text[|text| - 1] == ')'
  }

  function Cleaned(text: string): string {
    var clean := Without(text, NOISE);
    if clean != "" && clean[0] == '+' then clean[1..] else clean
  }

  function Opposite(r: Result<int>): Result<int> {
    match r
    case Ok(v) => Ok(-v)
    case Err(e) => Err(e)
  }

  function Negated(r: Result<Decimal>): Result<Decimal> {
    match r
    case Ok(value) => Ok(value.(mantissa := -value.mantissa))
    case Err(e) => Err(e)
  }

  /** What a text says: the noise goes all at once, and parentheses mean a negative. */
  function ReadText(raw: string): Result<Decimal> {
    var text := Strip(raw);
    if InParentheses(text) then
      var clean := Cleaned(Strip(text[1..|text| - 1]));
      if clean != "" && clean[0] == '-' then Err(MoneyError) else Negated(Read(clean))
    else
      Read(Cleaned(text))
  }

  function ParsedText(raw: string, allowRounding: bool): Result<int> {
    ToCents(ReadText(raw), allowRounding)
  }

  lemma {:induction false} NoCents(places: nat, allowRounding: bool)
    ensures CentsOf(0, places, allowRounding) == Ok(0)
  {
    SmallFits(0);
    QuotientIs(0, Pow10(places), 0, 0);
  }

  // Changing the sign of an amount changes the sign of its cents.
  lemma {:induction false} CentsAreOdd(read: Result<Decimal>, allowRounding: bool)
    ensures ToCents(Negated(read), allowRounding) == Opposite(ToCents(read, allowRounding))
  {
    if read.Ok? {
      NoCents(read.value.places, allowRounding);
    }
  }

  // An amount as it arrives: text, whole dollars, or an exact decimal.
  datatype RawAmount = Text(text: string) | WholeDollars(dollars: int) | Exact(mantissa: int, places: nat)

  method ParseMoney(raw: RawAmount, allowRounding: bool) returns (r: Result<int>)
    ensures raw.Text? ==> r == ParsedText(raw.text, allowRounding)
    ensures raw.WholeDollars? ==> r == Ok(100 * raw.dollars)
    ensures raw.Exact? ==> r == DecimalToCents(raw.mantissa, raw.places, allowRounding)
  {
    if raw.WholeDollars? {
      return Ok(raw.dollars * 100);
    }
    if raw.Exact? {
      return DecimalToCents(raw.mantissa, raw.places, allowRounding);
    }
    var text := Strip(raw.text);
    if text == "" {
      return Err(MoneyError);
    }
    var negative := false;
    if InParentheses(text) {
      negative := true;
      text := Strip(text[1..|text| - 1]);
    }
    text := ReplaceAll(text, NOISE);
    if text != "" && text[0] == '+' {
      text := text[1..];
    }
    if !IsMonetary(text) {
      return Err(MoneyError);
    }
    if negative && text[0] == '-' {
      return Err(MoneyError);
    }
    CentsAreOdd(Read(text), allowRounding);
    var value := ToCents(Read(text), allowRounding);
    return if negative then Opposite(value) else value;
  }

  // One kind of noise at a time.
  method ReplaceAll(text: string, noise: string) returns (clean: string)
    ensures clean == Without(text, noise)
  {
    clean := text;
    WithoutNothing(text);
    for i := 0 to |noise|
      invariant clean == Without(text, noise[..i])
    {
      WithoutOneMore(text, noise[..i], noise[i]);
      assert noise[..i + 1] == noise[..i] + [noise[i]];
      clean := Without(clean, [noise[i]]);
    }
    assert noise[..|noise|] == noise;
  }

  lemma {:induction false} WithoutNothing(s: string)
    ensures Without(s, "") == s
  {
    if s != "" {
      WithoutNothing(s[..|s| - 1]);
    }
  }

  // Removing one kind of noise after another is removing them all together.
  lemma {:induction false} WithoutOneMore(s: string, removed: string, c: char)
    ensures Without(Without(s, removed), [c]) == Without(s, removed + [c])
  {
    if s != "" {
      var init, last := s[..|s| - 1], s[|s| - 1];
      WithoutOneMore(init, removed, c);
      if last in removed {
        assert Without(s, removed) == Without(init, removed);
        assert Without(s, removed + [c]) == Without(init, removed + [c]);
      } else {
        WithoutConcat(Without(init, removed), [last], [c]);
        WithoutSingle(last, [c]);
        assert last in removed + [c] <==> last == c;
      }
    }
  }

  lemma WithoutSingle(c: char, removed: string)
    ensures Without([c], removed) == if c in removed then "" else [c]
  {
    assert [c][..0] == "";
  }

  lemma {:induction false} WithoutConcat(s: string, t: string, removed: string)
    ensures Without(s + t, removed) == Without(s, removed) + Without(t, removed)
  {
    if t == "" {
      assert s + t == s;
    } else {
      var init, last := t[..|t| - 1], t[|t| - 1];
      WithoutConcat(s, init, removed);
      assert (s + t)[..|s + t| - 1] == s + init && (s + t)[|s + t| - 1] == last;
      var left, right := Without(s, removed), Without(init, removed);
      assert (left + right) + [last] == left + (right + [last]);
    }
  }

  // ---------------------------------------------------------------------------------------------
  // Rounding when it is allowed
  // ---------------------------------------------------------------------------------------------

  // Whole cents, or the nearest when rounding is allowed.
  lemma {:induction false} CentsOfIsNearest(magnitude: nat, places: nat, allowRounding: bool)
    requires 100 * magnitude < LIMIT
    ensures var n, unit := 100 * magnitude, Pow10(places);
      CentsOf(magnitude, places, allowRounding) ==
        if n % unit == 0 then Ok(n / unit) else if !allowRounding then Err(MoneyError)
        else Ok(if n % unit * 2 >= unit then n / unit + 1 else n / unit)
  {
    var n, unit := 100 * magnitude, Pow10(places);
    SmallFits(n);
    if n % unit != 0 {
      HalfSumIsKept(magnitude, places);
      HalfInTenths(n, unit);
      HalfUpByShifting(n, unit);
    }
  }

  /**
   * Below 28 digits sub-cent input is refused unless rounding is allowed; then it goes to the nearest cent, ties away
   * from zero.
   */
  lemma {:induction false} DecimalToCentsIsNearest(mantissa: int, places: nat, allowRounding: bool)
    requires 100 * Abs(mantissa) < LIMIT
    ensures var r := DecimalToCents(mantissa, places, allowRounding);
      && (r.Err? <==> !allowRounding && (100 * mantissa) % Pow10(places) != 0)
      && (r.Ok? ==> NearestAwayFromZero(r.value, 100 * mantissa, Pow10(places)))
      && (r.Ok? && !allowRounding ==> r.value * Pow10(places) == 100 * mantissa)
  {
    CentsOfIsNearest(Abs(mantissa), places, allowRounding);
    SignedCentsAreNearest(
      mantissa < 0, 100 * Abs(mantissa), Pow10(places), DecimalToCents(mantissa, places, allowRounding), allowRounding);
  }

  lemma {:induction false} SignedCentsAreNearest(
    negative: bool, n: nat, unit: nat, r: Result<int>, allowRounding: bool)
    requires unit > 0
    requires r == if n % unit == 0 then Ok(Signed(negative, n / unit)) else if !allowRounding then Err(MoneyError)
             else Ok(Signed(negative, if n % unit * 2 >= unit then n / unit + 1 else n / unit))
    ensures r.Err? <==> !allowRounding && Signed(negative, n) % unit != 0
    ensures r.Ok? ==> NearestAwayFromZero(r.value, Signed(negative, n), unit)
    ensures r.Ok? && !allowRounding ==> r.value * unit == Signed(negative, n)
  {
    SameRemainder(negative, n, unit);
    SignedRoundingIsNearest(n, unit, negative);
    if n % unit == 0 {
      WholeQuotient(negative, n, unit);
    }
  }

  /** Without rounding, what is accepted is exact if and only if 28 digits hold the product by 100. */
  lemma {:induction false} AcceptedIsExactExactlyWhen(mantissa: int, places: nat)
    requires DecimalToCents(mantissa, places, false).Ok?
    ensures DecimalToCents(mantissa, places, false).value * Pow10(places) == 100 * mantissa
      <==> Fits(100 * Abs(mantissa))
  {
    var n := 100 * Abs(mantissa);
    WholeQuotient(mantissa < 0, InContext(n), Pow10(places));
    KeptExactlyWhen(n);
  }

  lemma {:induction false} WholeQuotient(negative: bool, n: nat, unit: nat)
    requires unit > 0 && n % unit == 0
    ensures Signed(negative, n / unit) * unit == Signed(negative, n)
  {
    DivisionFacts(n, unit);
    assert -(n / unit) * unit == -(n / unit * unit);
  }

  lemma {:induction false} SameRemainder(negative: bool, n: nat, unit: nat)
    requires unit > 0
    ensures Signed(negative, n) % unit == 0 <==> n % unit == 0
  {
    var opposite: int := 0 - n;
    if n % unit == 0 {
      MultipleOf(unit, 0 - n / unit, opposite);
    } else if opposite % unit == 0 {
      MultipleOf(unit, 0 - opposite / unit, n);
    }
  }

  lemma {:induction false} MultipleOf(unit: nat, q: int, n: int)
    requires unit > 0 && n == unit * q
    ensures n % unit == 0
  {
    var q', r := n / unit, n % unit;
    assert unit * (q - q') == r;
    if q - q' >= 1 { MulLeft(1, q - q', unit); } else if q - q' <= -1 { MulLeft(q - q', -1, unit); }
  }

  lemma {:induction false} HalfInTenths(n: nat, d: nat)
    requires d > 0
    ensures (10 * n + 5 * d) / (10 * d) == (2 * n + d) / (2 * d)
  {
    var m, e := 2 * n + d, 2 * d;
    var q, r := m / e, m % e;
    DivisionFacts(m, e);
    Fivefold(e, q);
    QuotientIs(5 * m, 5 * e, q, 5 * r);
  }

  lemma Fivefold(e: int, q: int)
    ensures (5 * e) * q == 5 * (e * q)
  {
  }

  // floor(x + 1/2) is rounding half up.
  lemma HalfUpByShifting(n: nat, d: nat)
    requires d > 0
    ensures (2 * n + d) / (2 * d) == if n % d * 2 >= d then n / d + 1 else n / d
  {
    var q, r := n / d, n % d;
    assert n == d * q + r;
    var up := if r * 2 >= d then 1 else 0;
    var rest := 2 * r + d - 2 * d * up;
    assert 2 * n + d == (2 * d) * (q + up) + rest;
    QuotientIs(2 * n + d, 2 * d, q + up, rest);
  }

  /** Parsing with rounding and applying a rate round the same way: a * r / 10000 cents is a * r / 10^6 dollars. */
  lemma {:induction false} RoundsLikeApplyBp(amount: int, rate: int)
    requires 100 * Abs(amount * rate) < LIMIT
    ensures DecimalToCents(amount * rate, 6, true) == Ok(ApplyBp(amount, rate))
  {
    var product := amount * rate;
    var r := DecimalToCents(product, 6, true);
    DecimalToCentsIsNearest(product, 6, true);
    assert Pow10(6) == 1_000_000 by {
      assert Pow10(3) == 1000;
    }
    CommonFactor(r.value, product);
    ApplyBpIsNearest(amount, rate, r.value);
  }

  lemma CommonFactor(q: int, n: int)
    requires NearestAwayFromZero(q, 100 * n, 1_000_000)
    ensures NearestAwayFromZero(q, n, BP_SCALE)
  {
  }

  // ---------------------------------------------------------------------------------------------
  // Round trips
  // ---------------------------------------------------------------------------------------------

  lemma StripOfTight(s: string)
    requires s != "" && !IsSpace(s[0]) && !IsSpace(s[|s| - 1])
    ensures Strip(s) == s
  {
  }

  lemma {:induction false} WithoutKeeps(s: string, removed: string)
    requires forall i :: 0 <= i < |s| ==> s[i] !in removed
    ensures Without(s, removed) == s
  {
    if s != "" {
      WithoutKeeps(s[..|s| - 1], removed);
    }
  }

  lemma {:induction false} WithoutDropsAll(s: string, removed: string)
    requires forall i :: 0 <= i < |s| ==> s[i] in removed
    ensures Without(s, removed) == ""
  {
    if s != "" {
      WithoutDropsAll(s[..|s| - 1], removed);
    }
  }

  lemma DigitsAreNotNoise(digits: string)
    requires AllDigits(digits)
    ensures Without(digits, NOISE) == digits
  {
    WithoutKeeps(digits, NOISE);
  }

  lemma {:induction false} UngroupGrouped(digits: string)
    requires AllDigits(digits)
    ensures Without(Grouped(digits), NOISE) == digits
  {
    DigitsAreNotNoise(digits);
    if |digits| > 3 {
      var head, tail := digits[..|digits| - 3], digits[|digits| - 3..];
      UngroupGrouped(head);
      DigitsAreNotNoise(tail);
      CommaDisappears(Grouped(head), tail);
      assert digits == head + tail;
    }
  }

  lemma CommaDisappears(s: string, t: string)
    ensures Without(s + "," + t, NOISE) == Without(s, NOISE) + Without(t, NOISE)
  {
    WithoutSingle(',', NOISE);
    WithoutConcat(s, ",", NOISE);
    WithoutConcat(s + ",", t, NOISE);
    assert Without(s, NOISE) + "" == Without(s, NOISE);
  }

  // A symbol that parsing throws away and stripping leaves alone: "$", or nothing.
  predicate IsSymbol(symbol: string) {
    forall c :: c in symbol ==> c in NOISE && !IsSpace(c)
  }

  function Plain(amount: int): string {
    Numeral(Abs(amount) / 100) + "." + TwoDigits(Abs(amount) % 100)
  }

  lemma {:induction false} CleanBody(amount: int, symbol: string)
    requires IsSymbol(symbol)
    ensures Without(Body(amount, symbol), NOISE) == Plain(amount)
  {
    var whole, fraction := Numeral(Abs(amount) / 100), TwoDigits(Abs(amount) % 100);
    NumeralRoundTrip(Abs(amount) / 100);
    WithoutDropsAll(symbol, NOISE);
    UngroupGrouped(whole);
    DigitsAreNotNoise(fraction);
    WithoutSingle('.', NOISE);
    CleanPieces(symbol, Grouped(whole), whole, ".", fraction, NOISE);
  }

  lemma {:induction false} CleanPieces(
    symbol: string, grouped: string, whole: string, point: string, fraction: string, removed: string)
    requires Without(symbol, removed) == "" && Without(grouped, removed) == whole
    requires Without(point, removed) == point && Without(fraction, removed) == fraction
    ensures Without(symbol + grouped + point + fraction, removed) == whole + point + fraction
  {
    WithoutConcat(symbol, grouped, removed);
    assert Without(symbol + grouped, removed) == whole;
    WithoutConcat(symbol + grouped, point, removed);
    WithoutConcat(symbol + grouped + point, fraction, removed);
  }

  lemma {:induction false} PointAfter(digits: string, rest: string)
    requires AllDigits(digits)
    ensures Point(digits + "." + rest) == |digits|
  {
    if digits != "" {
      PointAfter(digits[1..], rest);
      assert (digits + "." + rest)[1..] == digits[1..] + "." + rest;
    }
  }

  lemma PlainIsMonetary(amount: int)
    ensures var s := Plain(amount);
      && IsUnsigned(s) && s[0] != '-' && s[0] != '+' && s[|s| - 1] != '\n'
      && Point(s) == |s| - 3
      && Value(s[..|s| - 3]) * 100 + Value(s[|s| - 2..]) == Abs(amount)
  {
    var whole, fraction := Numeral(Abs(amount) / 100), TwoDigits(Abs(amount) % 100);
    var s := Plain(amount);
    NumeralRoundTrip(Abs(amount) / 100);
    PointAfter(whole, fraction);
    assert s[..|s| - 3] == whole && s[|s| - 2..] == fraction;
    ValueAppend("", fraction[0]);
    ValueAppend([fraction[0]], fraction[1]);
    assert fraction == [fraction[0]] + [fraction[1]] && "" + [fraction[0]] == [fraction[0]];
  }

  lemma {:induction false} ReadPlain(amount: int)
    ensures Read(Plain(amount)) == Ok(Decimal(Abs(amount), 2))
    ensures Read("-" + Plain(amount)) == Ok(Decimal(-Abs(amount), 2))
  {
    var s := Plain(amount);
    PlainIsMonetary(amount);
    assert Magnitude(s) == s && Magnitude("-" + s) == s;
    assert Pow10(2) == 100;
  }

  lemma BodyIsTight(amount: int, symbol: string)
    requires IsSymbol(symbol)
    ensures var b := Body(amount, symbol);
      |b| >= 3 && !IsSpace(b[0]) && !IsSpace(b[|b| - 1]) && b[0] != '(' && b[|b| - 1] != ')'
  {
    var whole := Numeral(Abs(amount) / 100);
    NumeralRoundTrip(Abs(amount) / 100);
    GroupedStartsAlike(whole);
    var b := Body(amount, symbol);
    if symbol != "" {
      assert b[0] == symbol[0] && symbol[0] in symbol;
    } else {
      assert b[0] == whole[0];
    }
  }

  lemma {:induction false} GroupedStartsAlike(digits: string)
    requires |digits| > 0
    ensures |Grouped(digits)| > 0 && Grouped(digits)[0] == digits[0]
  {
    if |digits| > 3 {
      GroupedStartsAlike(digits[..|digits| - 3]);
    }
  }

  /** What is displayed says exactly what was stored, in every style. */
  lemma {:induction false} DisplayReads(amount: int, symbol: string, parensForNegative: bool)
    requires IsSymbol(symbol)
    ensures ReadText(ToDisplay(amount, symbol, parensForNegative)) == Ok(Decimal(amount, 2))
  {
    var body := Body(amount, symbol);
    BodyReads(amount, symbol);
    if amount < 0 && parensForNegative {
      ParenthesesNegateReading(body);
    } else if amount < 0 {
      MinusBodyReads(amount, symbol);
    }
  }

  /**
   * What a user reads back parses to what was stored, kept to 28 digits. So it is exactly what was stored if and only
   * if the digits past the 28th are zeros; every amount below 10^28 cents is.
   */
  lemma {:induction false} DisplayRoundTrip(amount: int, symbol: string, parensForNegative: bool, allowRounding: bool)
    requires IsSymbol(symbol)
    ensures var parsed := ParsedText(ToDisplay(amount, symbol, parensForNegative), allowRounding);
      && parsed == Ok(Signed(amount < 0, InContext(Abs(amount))))
      && (parsed == Ok(amount) <==> Fits(Abs(amount)))
      && (Abs(amount) < LIMIT ==> parsed == Ok(amount))
  {
    DisplayReads(amount, symbol, parensForNegative);
    CentsOfHundredths(Abs(amount), allowRounding);
    KeptExactlyWhen(Abs(amount));
  }

  lemma {:induction false} CentsOfHundredths(cents: nat, allowRounding: bool)
    ensures CentsOf(cents, 2, allowRounding) == Ok(InContext(cents))
  {
    HundredfoldIsKept(cents);
    assert Pow10(2) == 100;
    QuotientIs(100 * InContext(cents), 100, InContext(cents), 0);
  }

  /** The least amount that loses a cent on the way. */
  lemma {:induction false} LongAmountLosesACent()
    ensures ParsedText(ToDisplay(10_000_000_000_000_000_000_000_000_001, "$", false), false)
      == Ok(10_000_000_000_000_000_000_000_000_000)
  {
    DisplayRoundTrip(LIMIT + 1, "$", false, false);
    OneTooLong();
  }

  lemma {:induction false} BodyReads(amount: int, symbol: string)
    requires IsSymbol(symbol)
    ensures var body := Body(amount, symbol);
      && ReadText(body) == Ok(Decimal(Abs(amount), 2))
      && !InParentheses(Strip(body))
      && Cleaned(Strip(body)) != "" && Cleaned(Strip(body))[0] != '-'
  {
    var body := Body(amount, symbol);
    BodyIsTight(amount, symbol);
    StripOfTight(body);
    CleanBody(amount, symbol);
    PlainIsMonetary(amount);
    assert Cleaned(body) == Plain(amount);
    ReadPlain(amount);
  }

  lemma {:induction false} MinusStays(text: string)
    ensures Cleaned("-" + text) == "-" + Without(text, NOISE)
  {
    WithoutSingle('-', NOISE);
    WithoutConcat("-", text, NOISE);
  }

  lemma {:induction false} MinusBodyReads(amount: int, symbol: string)
    requires IsSymbol(symbol)
    ensures ReadText("-" + Body(amount, symbol)) == Ok(Decimal(-Abs(amount), 2))
  {
    var body := Body(amount, symbol);
    var text := "-" + body;
    BodyIsTight(amount, symbol);
    StripOfTight(text);
    CleanBody(amount, symbol);
    MinusStays(body);
    ReadPlain(amount);
  }

  /** Two different amounts never look the same on a document. */
  lemma {:induction false} DisplayIsInjective(x: int, y: int, symbol: string, parensForNegative: bool)
    requires IsSymbol(symbol) && x != y
    ensures ToDisplay(x, symbol, parensForNegative) != ToDisplay(y, symbol, parensForNegative)
  {
    DisplayReads(x, symbol, parensForNegative);
    DisplayReads(y, symbol, parensForNegative);
  }

  // The first character that is not noise is the first one left.
  lemma {:induction false} FirstStays(s: string, removed: string)
    requires s != "" && s[0] !in removed
    ensures Without(s, removed) != "" && Without(s, removed)[0] == s[0]
  {
    if |s| > 1 {
      FirstStays(s[..|s| - 1], removed);
    } else {
      assert s[..0] == "";
    }
  }

  lemma {:induction false} StillInParentheses(text: string)
    requires InParentheses(text)
    ensures Cleaned(text) != "" && Cleaned(text)[0] == '(' && Read(Cleaned(text)) == Err(MoneyError)
  {
    FirstStays(text, NOISE);
    assert !IsUnsigned(Magnitude(Cleaned(text)));
  }

  lemma {:induction false} ParenthesesNegateReading(inner: string)
    ensures var clean := Cleaned(Strip(inner));
      ReadText("(" + inner + ")") ==
        if InParentheses(Strip(inner)) || (clean != "" && clean[0] == '-') then Err(MoneyError)
        else Negated(ReadText(inner))
  {
    var text := "(" + inner + ")";
    StripOfTight(text);
    assert text[1..|text| - 1] == inner;
    if InParentheses(Strip(inner)) {
      StillInParentheses(Strip(inner));
    }
  }

  /**
   * Parentheses negate whatever stands between them, unless it already carries a sign or is itself in parentheses:
   * both are refused.
   */
  lemma {:induction false} ParenthesesNegate(inner: string, allowRounding: bool)
    ensures var clean := Cleaned(Strip(inner));
      ParsedText("(" + inner + ")", allowRounding) ==
        if InParentheses(Strip(inner)) || (clean != "" && clean[0] == '-') then Err(MoneyError)
        else Opposite(ParsedText(inner, allowRounding))
  {
    ParenthesesNegateReading(inner);
    CentsAreOdd(ReadText(inner), allowRounding);
  }
}
