/**
  Fixed-point credits (`src/model/credits.rs`): printing, parsing and pricing.

  The source computes in `i64` (prices in `i128`); the bounds appear here as explicit tests.  Printing and
  parsing are measured against the number a text denotes (`Denoted`, `IsNumeral`), prices against the exact
  quotient.
*/
module Credits {
  import opened Characters
  import opened Wrappers

  const SCALE: int := 10_000
  const I64_MAX: int := 9_223_372_036_854_775_807
  const I64_MIN: int := -9_223_372_036_854_775_808

  predicate InI64(n: int) {
    I64_MIN <= n <= I64_MAX
  }

  // ---------- decimal digits ----------

  predicate AllDigits(text: string) {
    forall i :: 0 <= i < |text| ==> IsDigit(text[i])
  }

  function DigitChar(d: nat): char
    requires d < 10
  {
    '0' + d as char
  }

  function DigitValue(ch: char): nat
    requires IsDigit(ch)
  {
    (ch - '0') as nat
  }

  /** The decimal form of a number, without leading zeros. */
  function Decimal(n: nat): (text: string)
    ensures text != "" && AllDigits(text)
  {
    if n < 10 then [DigitChar(n)] else Decimal(n / 10) + [DigitChar(n % 10)]
  }

  /** The number a digit string denotes. */
  function Denoted(text: string): nat
    requires AllDigits(text)
  {
    if text == "" then 0 else 10 * Denoted(text[..|text| - 1]) + DigitValue(text[|text| - 1])
  }

  lemma {:induction false} DecimalDenotes(n: nat)
    ensures Denoted(Decimal(n)) == n
  {
    if n >= 10 {
      DecimalDenotes(n / 10);
      assert Decimal(n)[..|Decimal(n)| - 1] == Decimal(n / 10);
    }
  }

  /** A number below 10000 as exactly four digits. */
  function FourDigits(n: nat): (text: string)
    requires n < 10_000
    ensures |text| == 4 && AllDigits(text)
  {
    [DigitChar(n / 1000), DigitChar(n / 100 % 10), DigitChar(n / 10 % 10), DigitChar(n % 10)]
  }

  /** A number of at most three digits, padded to two. */
  function TwoDigits(n: nat): (text: string)
    requires n <= 100
    ensures 2 <= |text| <= 3 && AllDigits(text)
    ensures |text| == 3 <==> n == 100
  {
    if n == 100 then "100" else [DigitChar(n / 10), DigitChar(n % 10)]
  }

  lemma {:induction false} DenotedOfFour(text: string)
    requires |text| == 4 && AllDigits(text)
    ensures Denoted(text) ==
      1000 * DigitValue(text[0]) + 100 * DigitValue(text[1]) + 10 * DigitValue(text[2]) + DigitValue(text[3])
  {
    assert text[..3][..2] == text[..2] && text[..2][..1] == text[..1] && text[..1][..0] == "";
    assert Denoted(text[..1]) == DigitValue(text[0]);
    assert Denoted(text[..2]) == 10 * Denoted(text[..1]) + DigitValue(text[1]);
    assert Denoted(text[..3]) == 10 * Denoted(text[..2]) + DigitValue(text[2]);
  }

  // ---------- printing ----------

  function Magnitude(n: int): nat {
    if n < 0 then -n else n
  }

  function Signed(negative: bool, body: string): string {
    if negative then "-" + body else body
  }

  function FormatCredits(scaled: int): string {
    Signed(scaled < 0, Decimal(Magnitude(scaled) / SCALE) + "." + FourDigits(Magnitude(scaled) % SCALE))
  }

  /** `format_multiplier`: truncating division, and the fraction rounded half up to hundredths. */
  function FormatMultiplier(bp: int): string {
    var whole := Magnitude(bp) / SCALE;
    var fraction := (Magnitude(bp) % SCALE + 50) / 100;
    Signed(bp < 0 && whole > 0, Decimal(whole) + "." + TwoDigits(fraction))
  }

  // ---------- parsing ----------

  function TrimStart(text: string): (trimmed: string)
    ensures |trimmed| <= |text|
  {
    if text != "" && IsSpace(text[0]) then TrimStart(text[1..]) else text
  }

  function TrimEnd(text: string): (trimmed: string)
    ensures |trimmed| <= |text|
  {
    if text != "" && IsSpace(text[|text| - 1]) then TrimEnd(text[..|text| - 1]) else text
  }

  function Trim(text: string): string {
    TrimEnd(TrimStart(text))
  }

  predicate HasDigit(text: string) {
    text != "" && (IsDigit(text[0]) || HasDigit(text[1..]))
  }

  /** The position of the first `.`, or the length. */
  function FindDot(text: string): (pos: nat)
    ensures pos <= |text|
  {
    if text == "" then 0 else if text[0] == '.' then 0 else 1 + FindDot(text[1..])
  }

  /** `i64` parsing of a non-empty digit string: overflow is an error. */
  function ParseI64(digits: string): Option<int>
    requires AllDigits(digits)
  {
    if Denoted(digits) <= I64_MAX then Some(Denoted(digits)) else None
  }

  function PadFour(digits: string): (padded: string)
    requires |digits| <= 4 && AllDigits(digits)
    ensures |padded| == 4 && AllDigits(padded)
    decreases 4 - |digits|
  {
    if |digits| < 4 then PadFour(digits + "0") else digits
  }

  function Split(body: string): (string, string) {
    var dot := FindDot(body);
    (body[..dot], if dot < |body| then body[dot + 1..] else "")
  }

  /** The value of a whole part and a fraction; both steps refuse to leave `i64`. */
  function Combine(whole: string, fraction: string): Option<int>
    requires AllDigits(whole) && AllDigits(fraction) && |fraction| <= 4
  {
    var w := if whole == "" then Some(0) else ParseI64(whole);
    if w.None? || w.value * SCALE > I64_MAX then None
    else
      var value := w.value * SCALE + Denoted(PadFour(fraction));
      if value > I64_MAX then None else Some(value)
  }

  function ParseBody(body: string): Option<int> {
    var (whole, fraction) := Split(body);
    if !HasDigit(body) || !AllDigits(fraction) || |fraction| > 4 || !AllDigits(whole) then None
    else Combine(whole, fraction)
  }

  predicate IsNegative(text: string) {
    text != "" && text[0] == '-'
  }

  /** What `parse_credits` accepts and yields. */
  function Parsed(text: string): Option<int> {
    var trimmed := Trim(text);
    Apply(IsNegative(trimmed), ParseBody(if IsNegative(trimmed) then trimmed[1..] else trimmed))
  }

  function Apply(negative: bool, magnitude: Option<int>): Option<int> {
    match magnitude
    case None => None
    case Some(value) => Some(if negative then -value else value)
  }

  method ParseCredits(text: string) returns (scaled: Option<int>)
    ensures scaled == Parsed(text)
  {
    var trimmed := Trim(text);
    var negative := IsNegative(trimmed);
    var body := if negative then trimmed[1..] else trimmed;
    if !HasDigit(body) {
      return None;
    }
    var (whole, fraction) := Split(body);
    if !AllDigits(fraction) || |fraction| > 4 {
      return None;
    }
    var units := 0;
    if whole != "" {
      if !AllDigits(whole) {
        return None;
      }
      var parsed := ParseI64(whole);
      if parsed.None? {
        return None;
      }
      units := parsed.value;
    }
    var digits := fraction;
    while |digits| < 4
      invariant |digits| <= 4 && AllDigits(digits) && PadFour(digits) == PadFour(fraction)
      decreases 4 - |digits|
    {
      digits := digits + "0";
    }
    if units * SCALE > I64_MAX {
      return None;
    }
    var value := units * SCALE + Denoted(digits);
    if value > I64_MAX {
      return None;
    }
    return Some(if negative then -value else value);
  }

  function ParsedMultiplier(text: string): Option<int> {
    var scaled := Parsed(text);
    if scaled.Some? && scaled.value >= 0 && scaled.value % 100 == 0 then scaled else None
  }

  // ---------- which texts are numbers ----------

  /** A text is a number: digits, or digits with a dot in or around them, at most four after it. */
  predicate IsNumeral(body: string, whole: string, fraction: string) {
    && AllDigits(whole) && AllDigits(fraction) && |fraction| <= 4 && whole + fraction != ""
    && (body == whole + "." + fraction || (body == whole && fraction == ""))
  }

  function Power(n: nat): nat {
    if n == 0 then 1 else 10 * Power(n - 1)
  }

  /** The number in units of a ten-thousandth. */
  function Scaled(whole: string, fraction: string): int
    requires AllDigits(whole) && AllDigits(fraction) && |fraction| <= 4
  {
    Denoted(whole) * 10_000 + Denoted(fraction) * Power(4 - |fraction|)
  }

  lemma PowerStep(value: nat, n: nat)
    requires n > 0
    ensures (10 * value) * Power(n - 1) == value * Power(n)
  {
  }

  lemma {:induction false} PaddingScales(digits: string)
    requires |digits| <= 4 && AllDigits(digits)
    ensures Denoted(PadFour(digits)) == Denoted(digits) * Power(4 - |digits|)
    decreases 4 - |digits|
  {
    if |digits| < 4 {
      var padded := digits + "0";
      assert padded[..|digits|] == digits;
      PaddingScales(padded);
      PowerStep(Denoted(digits), 4 - |digits|);
    }
  }

  lemma {:induction false} FindDotMeans(body: string)
    ensures var dot := FindDot(body);
      && (forall i :: 0 <= i < dot ==> body[i] != '.')
      && (dot < |body| ==> body[dot] == '.')
  {
    if body != "" && body[0] != '.' {
      FindDotMeans(body[1..]);
      assert forall i :: 1 <= i < FindDot(body) ==> body[i] == body[1..][i - 1];
    }
  }

  lemma {:induction false} HasDigitMeans(text: string)
    ensures HasDigit(text) <==> exists i :: 0 <= i < |text| && IsDigit(text[i])
  {
    if text != "" {
      HasDigitMeans(text[1..]);
      assert forall i :: 1 <= i < |text| ==> text[i] == text[1..][i - 1];
    }
  }

  lemma CombineExactly(whole: string, fraction: string)
    requires AllDigits(whole) && AllDigits(fraction) && |fraction| <= 4
    ensures Combine(whole, fraction) ==
      if Scaled(whole, fraction) <= I64_MAX then Some(Scaled(whole, fraction)) else None
  {
    PaddingScales(fraction);
  }

  /** The two sides of the first dot make up the body. */
  lemma SplitMeans(body: string, whole: string, fraction: string)
    requires Split(body) == (whole, fraction)
    ensures body == whole + "." + fraction || (body == whole && fraction == "")
  {
    FindDotMeans(body);
    if FindDot(body) < |body| { assert body == body[..FindDot(body)] + "." + body[FindDot(body) + 1..]; }
  }

  lemma NumeralSplits(body: string, whole: string, fraction: string)
    requires IsNumeral(body, whole, fraction)
    ensures Split(body) == (whole, fraction) && HasDigit(body) && body[0] != '-'
  {
    HasDigitMeans(body);
    if body == whole + "." + fraction {
      FindDotAfterDigits(whole, fraction);
      assert body[..|whole|] == whole && body[|whole| + 1..] == fraction;
      if whole == "" { assert body[1] == fraction[0]; } else { assert body[0] == whole[0]; }
    } else {
      FindDotMeans(body);
      assert IsDigit(body[0]);
      assert body[..|body|] == body;
    }
  }

  /** A body without white space or sign parses exactly if it is a number in range, and to that number. */
  lemma ParseBodyExactly(body: string, value: int)
    ensures ParseBody(body) == Some(value) <==>
      exists whole, fraction ::
        IsNumeral(body, whole, fraction) && value == Scaled(whole, fraction) && value <= I64_MAX
  {
    var (whole, fraction) := Split(body);
    if ParseBody(body) == Some(value) {
      SplitMeans(body, whole, fraction);
      HasDigitMeans(body);
      assert whole + fraction != "";
      CombineExactly(whole, fraction);
      assert IsNumeral(body, whole, fraction);
    }
    if w, f :| IsNumeral(body, w, f) && value == Scaled(w, f) && value <= I64_MAX {
      NumeralSplits(body, w, f);
      CombineExactly(w, f);
    }
  }

  predicate AllSpace(text: string) {
    forall i :: 0 <= i < |text| ==> IsSpace(text[i])
  }

  /** Trimming takes the white space off both ends and nothing else. */
  lemma {:induction false} TrimMeans(text: string) returns (before: string, after: string)
    ensures AllSpace(before) && AllSpace(after) && text == before + Trim(text) + after
    ensures Trim(text) != "" ==> !IsSpace(Trim(text)[0]) && !IsSpace(Trim(text)[|Trim(text)| - 1])
  {
    if text != "" && IsSpace(text[0]) {
      before, after := TrimMeans(text[1..]);
      before := [text[0]] + before;
    } else {
      before := "";
      after := TrimEndMeans(text);
      assert Trim(text) != "" ==> Trim(text)[0] == text[0];
    }
  }

  lemma {:induction false} TrimEndMeans(text: string) returns (after: string)
    ensures AllSpace(after) && text == TrimEnd(text) + after
    ensures TrimEnd(text) != "" ==> !IsSpace(TrimEnd(text)[|TrimEnd(text)| - 1])
  {
    after := "";
    if text != "" && IsSpace(text[|text| - 1]) {
      after := TrimEndMeans(text[..|text| - 1]);
      after := after + [text[|text| - 1]];
    }
  }

  /** The text is an optional minus and a number in range, and denotes the value. */
  predicate Reads(text: string, negative: bool, body: string, whole: string, fraction: string, value: int) {
    && text == Signed(negative, body) && IsNumeral(body, whole, fraction) && Scaled(whole, fraction) <= I64_MAX
    && value == if negative then -Scaled(whole, fraction) else Scaled(whole, fraction)
  }

  /**
    WHICH TEXTS PARSE.  White space at the ends apart, a text parses exactly if it is an optional minus and a
    number with at most four decimals within range, with or without a dot; and then to that number.
  */
  lemma ParsedExactly(text: string, value: int)
    ensures Parsed(text) == Some(value) <==>
      exists negative, body, whole, fraction :: Reads(Trim(text), negative, body, whole, fraction, value)
  {
    if Parsed(text) == Some(value) {
      var negative, body, whole, fraction := ParsedReads(text, value);
    }
    if negative, body, whole, fraction :| Reads(Trim(text), negative, body, whole, fraction, value) {
      ReadsParsed(text, negative, body, whole, fraction, value);
    }
  }

  lemma ParsedReads(text: string, value: int)
    returns (negative: bool, body: string, whole: string, fraction: string)
    requires Parsed(text) == Some(value)
    ensures Reads(Trim(text), negative, body, whole, fraction, value)
  {
    var trimmed := Trim(text);
    negative := IsNegative(trimmed);
    body := if negative then trimmed[1..] else trimmed;
    assert trimmed == Signed(negative, body);
    var magnitude := if negative then -value else value;
    ParseBodyExactly(body, magnitude);
    whole, fraction :| IsNumeral(body, whole, fraction) && magnitude == Scaled(whole, fraction) && magnitude <= I64_MAX;
  }

  lemma ReadsParsed(text: string, negative: bool, body: string, whole: string, fraction: string, value: int)
    requires Reads(Trim(text), negative, body, whole, fraction, value)
    ensures Parsed(text) == Some(value)
  {
    NumeralSplits(body, whole, fraction);
    var trimmed := Trim(text);
    assert IsNegative(trimmed) == negative && (if negative then trimmed[1..] else trimmed) == body;
    ParseBodyExactly(body, Scaled(whole, fraction));
  }

  // ---------- round trips ----------

  /** Printed numbers carry no white space at either end. */
  lemma TrimNothing(text: string)
    requires text != "" && !IsSpace(text[0]) && !IsSpace(text[|text| - 1])
    ensures Trim(text) == text
  {
  }

  lemma {:induction false} FindDotAfterDigits(whole: string, rest: string)
    requires AllDigits(whole)
    ensures FindDot(whole + "." + rest) == |whole|
  {
    var body := whole + "." + rest;
    if whole != "" {
      assert body[1..] == whole[1..] + "." + rest;
      FindDotAfterDigits(whole[1..], rest);
    }
  }

  lemma EndsOfBody(whole: string, fraction: string, body: string)
    requires whole != "" && AllDigits(whole) && fraction != "" && AllDigits(fraction)
    requires body == whole + "." + fraction
    ensures body != "" && IsDigit(body[0]) && IsDigit(body[|body| - 1])
  {
    assert body[0] == whole[0] && body[|body| - 1] == fraction[|fraction| - 1];
  }

  /** A sign in front of a body negates it; there is nothing to trim. */
  lemma SignParses(negative: bool, body: string, text: string, magnitude: Option<int>)
    requires body != "" && IsDigit(body[0]) && IsDigit(body[|body| - 1])
    requires ParseBody(body) == magnitude && text == Signed(negative, body)
    ensures Parsed(text) == Apply(negative, magnitude)
  {
    assert !IsSpace('-') && !IsSpace(body[0]) && !IsSpace(body[|body| - 1]);
    TrimNothing(text);
    assert IsNegative(text) <==> negative;
    if negative { assert text[1..] == body; }
  }

  /** A printed `whole.fraction` with or without a sign, read back. */
  lemma PrintedParses(negative: bool, whole: string, fraction: string, body: string, text: string)
    requires whole != "" && AllDigits(whole) && fraction != "" && AllDigits(fraction) && |fraction| <= 4
    requires body == whole + "." + fraction && text == Signed(negative, body)
    ensures Parsed(text) == Apply(negative, Combine(whole, fraction))
  {
    FindDotAfterDigits(whole, fraction);
    assert body[..|whole|] == whole && body[|whole| + 1..] == fraction;
    assert Split(body) == (whole, fraction);
    assert body[0] == whole[0];
    EndsOfBody(whole, fraction, body);
    SignParses(negative, body, text, Combine(whole, fraction));
  }

  lemma {:induction false} CombineValue(whole: string, fraction: string, w: nat, f: nat)
    requires whole != "" && AllDigits(whole) && AllDigits(fraction) && |fraction| <= 4
    requires Denoted(whole) == w && Denoted(PadFour(fraction)) == f < SCALE
    ensures Combine(whole, fraction) == if w * SCALE + f > I64_MAX then None else Some(w * SCALE + f)
  {
  }

  lemma FourDigitSum(n: nat)
    requires n < 10_000
    ensures 1000 * (n / 1000) + 100 * (n / 100 % 10) + 10 * (n / 10 % 10) + n % 10 == n
  {
    assert n / 100 == 10 * (n / 1000) + n / 100 % 10;
    assert n / 10 == 10 * (n / 100) + n / 10 % 10;
  }

  lemma PartsReturn(scaled: int, whole: string, fraction: string, text: string)
    requires InI64(scaled)
    requires whole != "" && AllDigits(whole) && |fraction| == 4 && AllDigits(fraction)
    requires Denoted(whole) == Magnitude(scaled) / SCALE && Denoted(fraction) == Magnitude(scaled) % SCALE
    requires text == Signed(scaled < 0, whole + "." + fraction)
    ensures Parsed(text) == if scaled == I64_MIN then None else Some(scaled)
  {
    PrintedParses(scaled < 0, whole, fraction, whole + "." + fraction, text);
    CombineValue(whole, fraction, Magnitude(scaled) / SCALE, Magnitude(scaled) % SCALE);
  }

  /**
    ROUND TRIP.  Every printed `i64` parses back to itself, except the least one, which is refused
    because its magnitude does not fit.
  */
  lemma FormatThenParse(scaled: int)
    requires InI64(scaled)
    ensures Parsed(FormatCredits(scaled)) == if scaled == I64_MIN then None else Some(scaled)
  {
    DecimalDenotes(Magnitude(scaled) / SCALE);
    DenotedOfFour(FourDigits(Magnitude(scaled) % SCALE));
    FourDigitSum(Magnitude(scaled) % SCALE);
    PartsReturn(scaled, Decimal(Magnitude(scaled) / SCALE), FourDigits(Magnitude(scaled) % SCALE),
      FormatCredits(scaled));
  }

  /** An amount is printed with a minus if it is negative, no needless zero in front, and exactly four decimals. */
  lemma CreditsShape(scaled: int) returns (whole: string, fraction: string)
    ensures FormatCredits(scaled) == (if scaled < 0 then "-" else "") + whole + "." + fraction
    ensures AllDigits(whole) && whole != "" && (whole[0] == '0' ==> whole == "0") && AllDigits(fraction)
    ensures |fraction| == 4 && Denoted(whole) * 10_000 + Denoted(fraction) == if scaled < 0 then -scaled else scaled
  {
    whole, fraction := Decimal(Magnitude(scaled) / SCALE), FourDigits(Magnitude(scaled) % SCALE);
    DecimalDenotes(Magnitude(scaled) / SCALE);
    DecimalHasNoZeroInFront(Magnitude(scaled) / SCALE);
    DenotedOfFour(fraction);
    FourDigitSum(Magnitude(scaled) % SCALE);
    if scaled < 0 { assert "-" + whole + "." + fraction == "-" + (whole + "." + fraction); }
    else { assert "" + whole + "." + fraction == whole + "." + fraction; }
  }

  lemma {:induction false} DecimalHasNoZeroInFront(n: nat)
    ensures Decimal(n)[0] == '0' ==> n == 0 && Decimal(n) == "0"
  {
    if n >= 10 { DecimalHasNoZeroInFront(n / 10); }
  }

  /**
    A multiplier is printed as its whole part and its rest rounded to hundredths, halves up; the minus is
    lost if the whole part is 0.
  */
  lemma MultiplierShape(bp: int) returns (whole: string, fraction: string)
    ensures var magnitude := if bp < 0 then -bp else bp;
      && FormatMultiplier(bp) == (if bp <= -10_000 then "-" else "") + whole + "." + fraction
      && AllDigits(whole) && AllDigits(fraction) && Denoted(whole) == magnitude / 10_000 && |fraction| >= 2
      && Denoted(fraction) * 100 - 50 <= magnitude % 10_000 < Denoted(fraction) * 100 + 50
  {
    var magnitude := Magnitude(bp);
    whole, fraction := Decimal(magnitude / SCALE), TwoDigits((magnitude % SCALE + 50) / 100);
    DecimalDenotes(magnitude / SCALE);
    HundredthsDenote((magnitude % SCALE + 50) / 100);
    if bp <= -10_000 { assert "-" + whole + "." + fraction == "-" + (whole + "." + fraction); }
    else { assert "" + whole + "." + fraction == whole + "." + fraction; }
  }

  lemma HundredthsDenote(n: nat)
    requires n <= 100
    ensures Denoted(TwoDigits(n)) == n
  {
    var text := TwoDigits(n);
    assert text[..2][..1] == text[..1] && text[..1][..0] == "";
    assert Denoted(text[..1]) == DigitValue(text[0]);
    assert Denoted(text[..2]) == 10 * Denoted(text[..1]) + DigitValue(text[1]);
    assert n < 100 ==> text[..2] == text;
  }

  /** Two different amounts never print alike. */
  lemma FormatIsInjective(a: int, b: int)
    requires InI64(a) && InI64(b) && FormatCredits(a) == FormatCredits(b)
    ensures a == b
  {
    FormatThenParse(a);
    FormatThenParse(b);
  }

  lemma ParsedRange(text: string)
    ensures Parsed(text).Some? ==> I64_MIN < Parsed(text).value <= I64_MAX
  {
  }

  /** Whatever was accepted re-prints to a form that parses to the same amount. */
  lemma ParseThenFormat(text: string)
    requires Parsed(text).Some?
    ensures Parsed(FormatCredits(Parsed(text).value)) == Parsed(text)
  {
    ParsedRange(text);
    FormatThenParse(Parsed(text).value);
  }

  lemma {:induction false} PadTwo(fraction: string)
    requires |fraction| == 2 && AllDigits(fraction)
    ensures Denoted(PadFour(fraction)) == 100 * Denoted(fraction)
  {
    var padded := fraction + "0" + "0";
    assert PadFour(fraction) == PadFour(fraction + "0") == PadFour(padded) == padded;
    DenotedOfFour(padded);
    assert fraction[..1][..0] == "";
    assert Denoted(fraction[..1]) == DigitValue(fraction[0]);
  }

  /**
    `parse_multiplier` undoes `format_multiplier` exactly on the non-negative multiples of 100.
  */
  lemma MultiplierRoundTrip(bp: int)
    requires InI64(bp)
    ensures ParsedMultiplier(FormatMultiplier(bp)) == Some(bp) <==> bp >= 0 && bp % 100 == 0
  {
    if bp >= 0 && bp % 100 == 0 { WholeHundredsReturn(bp); }
  }

  lemma WholeHundredsReturn(bp: int)
    requires 0 <= bp <= I64_MAX && bp % 100 == 0
    ensures ParsedMultiplier(FormatMultiplier(bp)) == Some(bp)
  {
    var whole, hundredths := bp / SCALE, bp % SCALE / 100;
    Hundreds(bp, hundredths);
    PrintedHundredths(whole, hundredths, bp, FormatMultiplier(bp));
  }

  lemma Hundreds(bp: nat, hundredths: nat)
    requires bp % 100 == 0 && hundredths == bp % SCALE / 100
    ensures hundredths < 100 && bp % SCALE == 100 * hundredths && (bp % SCALE + 50) / 100 == hundredths
    ensures bp / SCALE * SCALE + 100 * hundredths == bp
    ensures FormatMultiplier(bp) == Decimal(bp / SCALE) + "." + TwoDigits(hundredths)
  {
  }

  /** Printed with two digits, a number of whole hundredths reads back as itself. */
  lemma PrintedHundredths(whole: nat, hundredths: nat, bp: nat, text: string)
    requires hundredths < 100 && text == Decimal(whole) + "." + TwoDigits(hundredths)
    requires bp == whole * SCALE + 100 * hundredths <= I64_MAX
    ensures Parsed(text) == Some(bp)
  {
    var fraction := TwoDigits(hundredths);
    PrintedParses(false, Decimal(whole), fraction, text, text);
    DecimalDenotes(whole);
    PadTwo(fraction);
    var text := TwoDigits(hundredths);
    assert text[..1][..0] == "";
    assert Denoted(text[..1]) == DigitValue(text[0]);
    CombineValue(Decimal(whole), fraction, whole, 100 * hundredths);
  }

  /** Elsewhere the result can even be another accepted multiplier: 1.996 prints as `1.100`, which reads 1.1. */
  lemma MultiplierCanChange(bp: int, text: string)
    requires bp == 19_960 && text == FormatMultiplier(bp)
    ensures text == "1.100" && ParsedMultiplier(text) == Some(11_000)
  {
    var whole, fraction := Decimal(bp / SCALE), TwoDigits((bp % SCALE + 50) / 100);
    assert whole == "1" && fraction == "100";
    assert text == whole + "." + fraction;
    OneTenthReads(whole, fraction, text);
  }

  lemma OneTenthReads(whole: string, fraction: string, text: string)
    requires whole == "1" && fraction == "100" && text == whole + "." + fraction
    ensures Parsed(text) == Some(11_000)
  {
    PrintedParses(false, whole, fraction, text, text);
    var padded := fraction + "0";
    assert PadFour(fraction) == PadFour(padded) == padded;
    DenotedOfFour(padded);
    DecimalDenotes(1);
    CombineValue(whole, fraction, 1, 1000);
  }

  // ---------- pricing ----------

  /** Rust's `/` truncates toward zero. */
  function TruncDiv(a: int, b: int): int
    requires b > 0
  {
    if a >= 0 then a / b else -(-a / b)
  }

  function Clamp(value: int): int {
    if value < I64_MIN then I64_MIN else if value > I64_MAX then I64_MAX else value
  }

  /** `final_tokens`, which is also the price in smallest credit units. */
  function FinalTokens(raw: int, bp: int): int {
    var value := Clamp(TruncDiv(raw * bp + SCALE - 1, SCALE));
    if value == 0 && raw > 0 && bp > 0 then 1 else value
  }

  lemma CeilingDivision(product: nat)
    ensures var q := TruncDiv(product + SCALE - 1, SCALE);
      q >= 0 && SCALE * q >= product && SCALE * (q - 1) < product
  {
  }

  lemma ProductIsNatural(raw: nat, bp: nat)
    ensures raw * bp >= 0
    ensures raw > 0 && bp > 0 ==> raw * bp > 0
  {
  }

  /** `price` is the exact ceiling of `product / 10000`, saturated at the largest `i64`. */
  ghost predicate IsPrice(price: int, product: int) {
    && 0 <= price <= I64_MAX
    && SCALE * (price - 1) < product
    && (SCALE * price >= product || price == I64_MAX)
  }

  /**
    For non-negative inputs the price is the saturated ceiling, and the branch that lifts 0 to 1 never
    runs: the plain quotient is already positive whenever both inputs are.
  */
  lemma PriceIsCeiling(raw: nat, bp: nat)
    ensures IsPrice(FinalTokens(raw, bp), raw * bp)
    ensures FinalTokens(raw, bp) == Clamp(TruncDiv(raw * bp + SCALE - 1, SCALE))
    ensures FinalTokens(raw, bp) > 0 <==> raw > 0 && bp > 0
  {
    ProductIsNatural(raw, bp);
    CeilingDivision(raw * bp);
    if raw == 0 || bp == 0 { assert raw * bp == 0; }
  }

  lemma ProductMonotone(a: nat, b: nat, a': nat, b': nat)
    requires a <= a' && b <= b'
    ensures a * b <= a' * b'
  {
    assert a * b <= a' * b;
    assert a' * b <= a' * b';
  }

  /** More tokens or a higher multiplier never cost less. */
  lemma PriceIsMonotone(raw: nat, bp: nat, raw': nat, bp': nat)
    requires raw <= raw' && bp <= bp'
    ensures FinalTokens(raw, bp) <= FinalTokens(raw', bp')
  {
    PriceIsCeiling(raw, bp);
    PriceIsCeiling(raw', bp');
    ProductMonotone(raw, bp, raw', bp');
  }

  function SumOf(parts: seq<nat>): nat {
    if parts == [] then 0 else SumOf(parts[..|parts| - 1]) + parts[|parts| - 1]
  }

  function PriceOf(parts: seq<nat>, bp: nat): int {
    if parts == [] then 0 else PriceOf(parts[..|parts| - 1], bp) + FinalTokens(parts[|parts| - 1], bp)
  }

  lemma TwoParts(p: int, q: int, r: int, a: int, b: int)
    requires IsPrice(p, a) && IsPrice(q, b) && IsPrice(r, a + b) && SCALE * r >= a + b && a >= 0 && b >= 0
    ensures r <= p + q <= r + 1
    ensures SCALE * p >= a && SCALE * q >= b
  {
  }

  /**
    Splitting one usage into `n` separately billed parts never costs less and costs at most `n - 1`
    units more, as long as the whole does not saturate.
  */
  lemma {:induction false} SplittingCostsAtMostOneEach(parts: seq<nat>, bp: nat)
    requires parts != [] && SumOf(parts) * bp <= SCALE * I64_MAX
    ensures FinalTokens(SumOf(parts), bp) <= PriceOf(parts, bp) <= FinalTokens(SumOf(parts), bp) + |parts| - 1
  {
    var n := |parts| - 1;
    var init, last := SumOf(parts[..n]), parts[n];
    if n > 0 {
      assert SumOf(parts) * bp == init * bp + last * bp;
      ProductIsNatural(init, bp);
      ProductIsNatural(last, bp);
      SplittingCostsAtMostOneEach(parts[..n], bp);
      PriceIsCeiling(init, bp);
      PriceIsCeiling(last, bp);
      PriceIsCeiling(SumOf(parts), bp);
      TwoParts(FinalTokens(init, bp), FinalTokens(last, bp), FinalTokens(SumOf(parts), bp), init * bp, last * bp);
    } else {
      assert parts[..n] == [];
    }
  }
}
