/** What `to_display` writes and `parse_money` reads, in terms of the characters alone. */
module MoneyReading {
  import opened DecimalContext
  import opened MoneyText
  import opened Outcomes
  import opened Rounding

  // The code points of the white space characters of Unicode, with the four information separators.
  const SPACES: set<int> := {
    9, 10, 11, 12, 13, 28, 29, 30, 31, 32, 133, 160, 5760, 8192, 8193, 8194, 8195, 8196, 8197, 8198, 8199, 8200, 8201,
    8202, 8232, 8233, 8239, 8287, 12288
  }

  predicate AllSpaces(s: string) {
    forall i :: 0 <= i < |s| ==> s[i] as int in SPACES
  }

  predicate IsTight(s: string) {
    s != "" ==> s[0] as int !in SPACES && s[|s| - 1] as int !in SPACES
  }

  lemma SpacesAre(c: char)
    ensures IsSpace(c) <==> c as int in SPACES
  {
  }

  /** Stripping takes the spaces off both ends and nothing else. */
  lemma {:induction false} StripMeans(s: string) returns (lead: string, trail: string)
    ensures s == lead + Strip(s) + trail && AllSpaces(lead) && AllSpaces(trail) && IsTight(Strip(s))
  {
    if s != "" {
      SpacesAre(s[0]);
      SpacesAre(s[|s| - 1]);
    }
    if s != "" && IsSpace(s[0]) {
      lead, trail := StripMeans(s[1..]);
      FirstBack(s, lead, Strip(s[1..]), trail);
      lead := [s[0]] + lead;
    } else if s != "" && IsSpace(s[|s| - 1]) {
      lead, trail := StripMeans(s[..|s| - 1]);
      LastBack(s, lead + Strip(s[..|s| - 1]), trail);
      trail := trail + [s[|s| - 1]];
    } else {
      lead, trail := "", "";
    }
  }

  lemma FirstBack(s: string, lead: string, text: string, trail: string)
    requires s != "" && s[1..] == lead + text + trail
    ensures s == [s[0]] + lead + text + trail
  {
    assert s == [s[0]] + s[1..];
  }

  lemma LastBack(s: string, text: string, trail: string)
    requires s != "" && s[..|s| - 1] == text + trail
    ensures s == text + (trail + [s[|s| - 1]])
  {
    assert s == s[..|s| - 1] + [s[|s| - 1]];
  }

  lemma {:induction false} StripOfPadded(lead: string, text: string, trail: string)
    requires AllSpaces(lead) && AllSpaces(trail) && text != "" && IsTight(text)
    ensures Strip(lead + text + trail) == text
    decreases |lead| + |trail|
  {
    SpacesAre(text[0]);
    SpacesAre(text[|text| - 1]);
    if lead != "" {
      SpacesAre(lead[0]);
      StripOfPadded(lead[1..], text, trail);
      FirstOff(lead, text, trail);
    } else if trail != "" {
      SpacesAre(trail[|trail| - 1]);
      StripOfPadded(lead, text, trail[..|trail| - 1]);
      LastOff(text, trail);
    } else {
      assert lead + text + trail == text;
    }
  }

  lemma FirstOff(lead: string, text: string, trail: string)
    requires lead != ""
    ensures var s := lead + text + trail; s[0] == lead[0] && s[1..] == lead[1..] + text + trail
  {
  }

  lemma LastOff(text: string, trail: string)
    requires text != "" && trail != ""
    ensures var s := "" + text + trail;
      s[0] == text[0] && s[|s| - 1] == trail[|trail| - 1] && s[..|s| - 1] == "" + text + trail[..|trail| - 1]
  {
  }

  /** A dollar sign, a comma or one of four spaces goes wherever it stands, and no other character does. */
  lemma {:induction false} NoiseIsIgnored(s: string, c: char, t: string)
    ensures Without(s + [c] + t, NOISE) ==
      if c == '$' || c == ',' || c == ' ' || c == '\U{a0}' || c == '\U{202f}' || c == '\U{2009}'
      then Without(s + t, NOISE) else Without(s, NOISE) + [c] + Without(t, NOISE)
  {
    WithoutConcat(s + [c], t, NOISE);
    WithoutConcat(s, [c], NOISE);
    WithoutConcat(s, t, NOISE);
    WithoutSingle(c, NOISE);
    assert Without(s, NOISE) + "" == Without(s, NOISE);
  }

  // ---------------------------------------------------------------------------------------------
  // Numerals
  // ---------------------------------------------------------------------------------------------

  /** Digits count in tens. */
  lemma {:induction false} ValueIsDecimal(digits: string, c: char)
    requires AllDigits(digits) && '0' <= c <= '9'
    ensures AllDigits(digits + [c]) && Value("") == 0
    ensures Value(digits + [c]) == 10 * Value(digits) + (c as int - '0' as int)
  {
    ValueAppend(digits, c);
  }

  lemma {:induction false} ValueOfConcat(left: string, right: string)
    requires AllDigits(left) && AllDigits(right)
    ensures AllDigits(left + right) && Value(left + right) == Value(left) * Pow10(|right|) + Value(right)
  {
    if right == "" {
      assert left + right == left && Pow10(0) == 1;
    } else {
      var init, last := right[..|right| - 1], right[|right| - 1];
      ValueOfConcat(left, init);
      ValueAppend(left + init, last);
      assert left + right == left + init + [last];
      TenTimes(Value(left), Pow10(|init|));
    }
  }

  lemma TenTimes(v: int, p: int)
    ensures 10 * (v * p) == v * (10 * p)
  {
  }

  /** No amount is written with a leading zero. */
  lemma {:induction false} NoLeadingZero(n: nat)
    ensures AllDigits(Numeral(n)) && Value(Numeral(n)) == n && (|Numeral(n)| > 1 ==> Numeral(n)[0] != '0')
    ensures n > 0 ==> Numeral(n)[0] != '0'
  {
    NumeralRoundTrip(n);
    if n >= 10 {
      NoLeadingZero(n / 10);
    }
  }

  // ---------------------------------------------------------------------------------------------
  // Reading
  // ---------------------------------------------------------------------------------------------

  // A decimal number in characters: perhaps a minus, digits, perhaps a point and more digits, perhaps a newline.
  datatype Pieces = Pieces(minus: bool, whole: string, fraction: string, newline: bool) {
    predicate Valid() {
      whole != "" && AllDigits(whole) && AllDigits(fraction)
    }

    function Unsigned(): string {
      if fraction == "" then whole else whole + "." + fraction
    }

    function Text(): string {
      (if minus then "-" else "") + Unsigned() + (if newline then "\n" else "")
    }
  }

  lemma {:induction false} PointOfDigits(digits: string)
    requires AllDigits(digits)
    ensures Point(digits) == |digits|
  {
    if digits != "" {
      PointOfDigits(digits[1..]);
    }
  }

  lemma {:induction false} UnsignedReads(pieces: Pieces)
    requires pieces.Valid()
    ensures var s, p := pieces.Unsigned(), Point(pieces.Unsigned());
      && IsUnsigned(s) && s[0] != '-' && s[|s| - 1] != '\n' && p == |pieces.whole| && s[..p] == pieces.whole
      && (if pieces.fraction == "" then p == |s| else p < |s| && s[p + 1..] == pieces.fraction)
  {
    if pieces.fraction == "" {
      PointOfDigits(pieces.whole);
    } else {
      PointAfter(pieces.whole, pieces.fraction);
    }
  }

  lemma {:induction false} MagnitudeOf(pieces: Pieces)
    requires pieces.Valid()
    ensures Magnitude(pieces.Text()) == pieces.Unsigned()
    ensures pieces.Text()[0] == '-' <==> pieces.minus
  {
    UnsignedReads(pieces);
    SignAndNewlineOff(pieces.minus, pieces.Unsigned(), pieces.newline);
  }

  lemma {:induction false} SignAndNewlineOff(minus: bool, s: string, newline: bool)
    requires s != "" && s[0] != '-' && s[|s| - 1] != '\n'
    ensures var text := (if minus then "-" else "") + s + (if newline then "\n" else "");
      Magnitude(text) == s && (text[0] == '-' <==> minus)
  {
    var line := (if minus then "-" else "") + s;
    assert line[|line| - 1] == s[|s| - 1];
    assert (line + "\n")[..|line|] == line && line + "" == line;
    assert minus ==> line[0] == '-' && line[1..] == s;
    assert !minus ==> line == s;
  }

  /** A number is read as its digits say, with as many places as there are digits after the point. */
  lemma {:induction false} NumbersAreRead(pieces: Pieces)
    requires pieces.Valid()
    ensures AllDigits(pieces.whole + pieces.fraction)
    ensures var n: int := Value(pieces.whole + pieces.fraction);
      Read(pieces.Text()) == Ok(Decimal(if pieces.minus then -n else n, |pieces.fraction|))
  {
    MagnitudeOf(pieces);
    UnsignedReads(pieces);
    ReadPieces(pieces.Text(), pieces.Unsigned(), pieces.minus, pieces.whole, pieces.fraction);
  }

  lemma {:induction false} ReadPieces(text: string, s: string, minus: bool, whole: string, fraction: string)
    requires text != "" && Magnitude(text) == s && (text[0] == '-' <==> minus)
    requires IsUnsigned(s) && Point(s) == |whole| && s[..|whole|] == whole
    requires if fraction == "" then |whole| == |s| else |whole| < |s| && s[|whole| + 1..] == fraction
    ensures AllDigits(whole + fraction)
    ensures var n: int := Value(whole + fraction);
      Read(text) == Ok(Decimal(if minus then -n else n, |fraction|))
  {
    ValueOfConcat(whole, fraction);
  }

  /** Nothing but a number is accepted. */
  lemma {:induction false} OnlyNumbersAreRead(text: string) returns (pieces: Pieces)
    requires Read(text).Ok?
    ensures pieces.Valid() && text == pieces.Text()
  {
    var s, p := Magnitude(text), Point(Magnitude(text));
    var minus, newline := SignAndNewlineOn(text);
    pieces := Pieces(minus, s[..p], if p < |s| then s[p + 1..] else "", newline);
    PointBack(s, p);
  }

  lemma {:induction false} SignAndNewlineOn(text: string) returns (minus: bool, newline: bool)
    ensures text == (if minus then "-" else "") + Magnitude(text) + (if newline then "\n" else "")
  {
    newline := text != "" && text[|text| - 1] == '\n';
    var line := if newline then text[..|text| - 1] else text;
    minus := line != "" && line[0] == '-';
    assert line == (if minus then "-" else "") + Magnitude(text);
    assert text == line + (if newline then "\n" else "");
  }

  lemma PointBack(s: string, p: nat)
    requires p <= |s| && (p < |s| ==> s[p] == '.')
    ensures s == if p < |s| then s[..p] + "." + s[p + 1..] else s[..p]
  {
  }

  /** A text outside parentheses is a number behind at most one plus sign, once the noise is out. */
  lemma {:induction false} TextIsRead(text: string, pieces: Pieces, plus: bool)
    requires pieces.Valid() && IsTight(text) && !InParentheses(text)
    requires Without(text, NOISE) == (if plus then "+" else "") + pieces.Text()
    ensures AllDigits(pieces.whole + pieces.fraction)
    ensures var n: int := Value(pieces.whole + pieces.fraction);
      ReadText(text) == Ok(Decimal(if pieces.minus then -n else n, |pieces.fraction|))
  {
    NumbersAreRead(pieces);
    if text != "" {
      SpacesAre(text[0]);
      SpacesAre(text[|text| - 1]);
      StripOfTight(text);
    }
    UnsignedReads(pieces);
    PlusOff(text, plus, pieces.Text());
  }

  lemma {:induction false} PlusOff(text: string, plus: bool, number: string)
    requires number != "" && number[0] != '+' && Without(text, NOISE) == (if plus then "+" else "") + number
    ensures Cleaned(text) == number
  {
    assert ("+" + number)[1..] == number && "" + number == number;
  }

  lemma {:induction false} OnlyNumbersAreAccepted(text: string) returns (pieces: Pieces, plus: bool)
    requires ReadText(text).Ok? && !InParentheses(Strip(text))
    ensures pieces.Valid() && Without(Strip(text), NOISE) == (if plus then "+" else "") + pieces.Text()
  {
    var clean := Without(Strip(text), NOISE);
    plus := clean != "" && clean[0] == '+';
    pieces := OnlyNumbersAreRead(Cleaned(Strip(text)));
    if plus {
      assert clean == "+" + clean[1..];
    }
  }

  // ---------------------------------------------------------------------------------------------
  // Cents
  // ---------------------------------------------------------------------------------------------

  // Whole cents where the scaled amount is a whole number of units, otherwise the floor of the sum with one half.
  predicate ComesTo(scaled: nat, sum: nat, unit: nat, allowRounding: bool, r: Result<int>)
    requires unit > 0
  {
    if scaled % unit == 0 then r.Ok? && r.value * unit == scaled
    else if !allowRounding then r == Err(MoneyError)
    else r.Ok? && r.value * (10 * unit) <= sum < r.value * (10 * unit) + 10 * unit
  }

  // The product by 100 and the sum with one half, each kept to 28 digits.
  ghost predicate AreCents(magnitude: nat, places: nat, allowRounding: bool, r: Result<int>) {
    exists scaled: nat, sum: nat ::
      && IsKept(100 * magnitude, scaled) && IsKept(10 * scaled + 5 * Pow10(places), sum)
      && ComesTo(scaled, sum, Pow10(places), allowRounding, r)
  }

  /** At any length: what a magnitude of dollars comes to with every step kept to 28 digits, and the sign put back. */
  lemma {:induction false} CentsAtAnyLength(mantissa: int, places: nat, allowRounding: bool)
    ensures var r := DecimalToCents(mantissa, places, allowRounding);
      if mantissa < 0 then AreCents(-mantissa, places, allowRounding, Opposite(r))
      else AreCents(mantissa, places, allowRounding, r)
  {
    CentsAre(Abs(mantissa), places, allowRounding);
  }

  lemma {:induction false} CentsAre(magnitude: nat, places: nat, allowRounding: bool)
    ensures AreCents(magnitude, places, allowRounding, CentsOf(magnitude, places, allowRounding))
  {
    var scaled, unit := InContext(100 * magnitude), Pow10(places);
    var sum := InContext(10 * scaled + 5 * unit);
    var _, _ := KeptIsNearestEven(100 * magnitude);
    var _, _ := KeptIsNearestEven(10 * scaled + 5 * unit);
    FloorsTo(scaled, sum, unit);
    assert ComesTo(scaled, sum, unit, allowRounding, CentsOf(magnitude, places, allowRounding));
  }

  lemma {:induction false} FloorsTo(scaled: nat, sum: nat, unit: nat)
    requires unit > 0
    ensures scaled % unit == 0 ==> scaled / unit * unit == scaled
    ensures sum / (10 * unit) * (10 * unit) <= sum < sum / (10 * unit) * (10 * unit) + 10 * unit
  {
    DivisionFacts(scaled, unit);
    DivisionFacts(sum, 10 * unit);
  }

  // ---------------------------------------------------------------------------------------------
  // Display
  // ---------------------------------------------------------------------------------------------

  /**
   * A displayed amount is the symbol, the dollars without a leading zero, a point and two digits of cents; a negative
   * one has a minus in front or parentheses around it.
   */
  lemma {:induction false} DisplayMeans(amount: int, symbol: string, parensForNegative: bool)
      returns (whole: string, fraction: string)
    ensures AllDigits(whole) && AllDigits(fraction) && |fraction| == 2 && (|whole| > 1 ==> whole[0] != '0')
    ensures 100 * Value(whole) + Value(fraction) == if amount < 0 then -amount else amount
    ensures Without(Grouped(whole), ",") == whole != ""
    ensures ToDisplay(amount, symbol, parensForNegative) ==
      (if amount >= 0 then "" else if parensForNegative then "(" else "-")
      + (symbol + Grouped(whole) + "." + fraction)
      + (if amount < 0 && parensForNegative then ")" else "")
  {
    whole, fraction := Numeral(Abs(amount) / 100), TwoDigits(Abs(amount) % 100);
    NumeralRoundTrip(Abs(amount) / 100);
    NoLeadingZero(Abs(amount) / 100);
    PlainIsMonetary(amount);
    var plain := Plain(amount);
    assert plain[|plain| - 2..] == fraction && plain[..|plain| - 3] == whole;
    CommasGroup(whole);
    var body := Body(amount, symbol);
    assert body == symbol + Grouped(whole) + "." + fraction;
    assert "" + body + "" == body && "-" + body + "" == "-" + body;
  }

  lemma {:induction false} CommasGroup(digits: string)
    requires AllDigits(digits)
    ensures Without(Grouped(digits), ",") == digits
  {
    WithoutKeeps(digits, ",");
    if |digits| > 3 {
      var head, tail := digits[..|digits| - 3], digits[|digits| - 3..];
      CommasGroup(head);
      WithoutKeeps(tail, ",");
      WithoutSingle(',', ",");
      WithoutConcat(Grouped(head), ",", ",");
      WithoutConcat(Grouped(head) + ",", tail, ",");
      assert digits == head + tail && head + "" == head;
    }
  }
}
