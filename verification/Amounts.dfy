// Six-decimal amounts as text: the printers and parsers of the client, the adapter and the desk.
module Amounts {
  import opened Outcomes
  import opened Utf16
  import opened Numerals

  const SCALE := 1_000_000
  const DOT: CodeUnit := 0x2E
  const MAX_UINT128 := 0xFFFF_FFFF_FFFF_FFFF_FFFF_FFFF_FFFF_FFFF
  const MAX_UINT256 := 0xFFFF_FFFF_FFFF_FFFF_FFFF_FFFF_FFFF_FFFF_FFFF_FFFF_FFFF_FFFF_FFFF_FFFF_FFFF_FFFF

  /** `magnitude / SCALE` and the remainder padded to six digits. */
  function UsdcText(magnitude: nat): (t: Text) {
    Decimal(magnitude / SCALE) + [DOT] + PadStart(Decimal(magnitude % SCALE), 6)
  }

  /** `formatAmount(units).usdc`. */
  function FormatAmount(units: int): (t: Text) {
    if units < 0 then [0x2D] + UsdcText(-units) else UsdcText(units)
  }

  /** BigInt division truncates towards zero, and the remainder takes the dividend's sign. */
  function Quotient(a: int, b: int): (q: int)
    requires b > 0
  {
    if a < 0 then -(-a / b) else a / b
  }

  function Remainder(a: int, b: int): (r: int)
    requires b > 0
    ensures a == Quotient(a, b) * b + r
  {
    if a < 0 then -(-a % b) else a % b
  }

  /** The desk's `decimal(value)`. */
  function DeskDecimal(value: int): (t: Text) {
    SignedDecimal(Quotient(value, SCALE)) + [DOT] + PadStart(SignedDecimal(Remainder(value, SCALE)), 6)
  }

  predicate AllIn(t: Text) {
    forall i :: 0 <= i < |t| ==> IsDigit(t[i])
  }

  function DotAt(t: Text): (k: nat)
    ensures k <= |t|
    ensures forall i :: 0 <= i < k ==> t[i] != DOT
    ensures k < |t| ==> t[k] == DOT
  {
    if t == [] || t[0] == DOT then 0 else 1 + DotAt(t[1..])
  }

  /** `^\d+(?:\.\d{1,6})?$`, giving the digits before and after the point. */
  function SplitDecimal(t: Text): (r: Option<(Text, Text)>)
    ensures r.Some? ==> r.value.0 != [] && AllIn(r.value.0) && AllIn(r.value.1) && |r.value.1| <= 6
  {
    var k := DotAt(t);
    var whole := t[..k];
    if whole == [] || !AllIn(whole) then None
    else if k == |t| then Some((whole, []))
    else
      var fraction := t[k + 1..];
      if 1 <= |fraction| <= 6 && AllIn(fraction) then Some((whole, fraction)) else None
  }

  /** `BigInt(whole) * 1_000_000n + BigInt(fraction.padEnd(6, "0"))`. */
  function Units(whole: Text, fraction: Text): (n: nat)
    requires AllIn(whole) && AllIn(fraction)
  {
    PaddedDigits(fraction);
    ValueOf(whole, 10) * SCALE + ValueOf(PadEnd(fraction, 6), 10)
  }

  lemma PaddedDigits(fraction: Text)
    requires AllIn(fraction)
    ensures AllDigits(PadEnd(fraction, 6), 10)
  {
  }

  datatype AmountError = Malformed | OutOfRange

  /** The adapter's `parseSixDecimalAmount`. */
  function ParseSixDecimalAmount(t: Text): (r: Result<nat, AmountError>) {
    match SplitDecimal(t)
    case None => Err(Malformed)
    case Some((whole, fraction)) =>
      if Units(whole, fraction) > MAX_UINT128 then Err(OutOfRange) else Ok(Units(whole, fraction))
  }

  /** The desk's `parseAmount`: no leading zeros, positive, and up to 256 bits. */
  function DeskParseAmount(t: Text): (r: Result<nat, AmountError>) {
    match SplitDecimal(t)
    case None => Err(Malformed)
    case Some((whole, fraction)) =>
      if |whole| > 1 && whole[0] == 0x30 then Err(Malformed)
      else if !(0 < Units(whole, fraction) <= MAX_UINT256) then Err(OutOfRange)
      else Ok(Units(whole, fraction))
  }

  /** The envelope parser's unsigned fields: `^(0|[1-9]\d*)$`, up to the type's maximum. */
  function ParseUint(t: Text, max: nat): (r: Result<nat, AmountError>) {
    if t == [] || !AllIn(t) || (|t| > 1 && t[0] == 0x30) then Err(Malformed)
    else if ValueOf(t, 10) > max then Err(OutOfRange)
    else Ok(ValueOf(t, 10))
  }

  // ---- What the parsers accept, and what they make of it ---------------------------------------------

  /**
   * The value of an accepted text is exactly its decimal value times 10^6: all its digits, read as
   * one number, over as many powers of ten as stand after the point.
   */
  lemma UnitsAreExact(whole: Text, fraction: Text)
    requires AllIn(whole) && AllIn(fraction) && |fraction| <= 6
    ensures AllDigits(whole + fraction, 10)
    ensures Units(whole, fraction) * Power10(|fraction|) == ValueOf(whole + fraction, 10) * SCALE
  {
    hide *;
    UnitsParts(whole, fraction);
    ValueConcat(whole, fraction);
    PowersOfSix(|fraction|);
    Rescale(ValueOf(whole, 10), ValueOf(fraction, 10), Power10(|fraction|), Power10(6 - |fraction|));
  }

  lemma UnitsParts(whole: Text, fraction: Text)
    requires AllIn(whole) && AllIn(fraction) && |fraction| <= 6
    ensures AllDigits(whole, 10) && AllDigits(fraction, 10)
    ensures Units(whole, fraction) == ValueOf(whole, 10) * SCALE + ValueOf(fraction, 10) * Power10(6 - |fraction|)
  {
    hide PadEnd, ValueOf, Power10;
    PaddedValue(fraction);
  }

  lemma PaddedValue(fraction: Text)
    requires AllIn(fraction) && |fraction| <= 6
    ensures AllDigits(fraction, 10) && AllDigits(PadEnd(fraction, 6), 10)
    ensures ValueOf(PadEnd(fraction, 6), 10) == ValueOf(fraction, 10) * Power10(6 - |fraction|)
  {
    hide *;
    PaddedIs(fraction);
    ZerosValue(6 - |fraction|);
    ValueConcat(fraction, Zeros(6 - |fraction|));
  }

  lemma PaddedIs(fraction: Text)
    requires AllIn(fraction) && |fraction| <= 6
    ensures AllDigits(fraction, 10) && PadEnd(fraction, 6) == fraction + Zeros(6 - |fraction|)
  {
    assert fraction + Zeros(0) == fraction;
  }

  lemma Rescale(w: nat, f: nat, p: nat, q: nat)
    requires p * q == SCALE
    ensures (w * SCALE + f * q) * p == (w * p + f) * SCALE
  {
    assert (f * q) * p == f * (p * q);
    assert (w * SCALE) * p == (w * p) * SCALE;
  }

  lemma PowersOfSix(n: nat)
    requires n <= 6
    ensures Power10(n) * Power10(6 - n) == SCALE
  {
    assert Power10(1) == 10 && Power10(2) == 100 && Power10(3) == 1000;
    assert Power10(4) == 10 * Power10(3) && Power10(5) == 10 * Power10(4) && Power10(6) == 10 * Power10(5);
    assert n == 0 || n == 1 || n == 2 || n == 3 || n == 4 || n == 5 || n == 6;
  }

  lemma DotAfterDigits(whole: Text, fraction: Text)
    requires AllIn(whole)
    ensures DotAt(whole + [DOT] + fraction) == |whole|
  {
    var t := whole + [DOT] + fraction;
    assert t[|whole|] == DOT;
    assert forall i :: 0 <= i < |whole| ==> t[i] == whole[i];
  }

  /** The texts of the source's pattern: digits, and after a point one to six more. */
  predicate Pattern(t: Text, whole: Text, fraction: Text) {
    && whole != [] && AllIn(whole) && AllIn(fraction) && |fraction| <= 6
    && t == if fraction == [] then whole else whole + [DOT] + fraction
  }

  /** Splitting succeeds on exactly the texts of the pattern, and finds their parts. */
  lemma SplitsExactly(t: Text, whole: Text, fraction: Text)
    ensures SplitDecimal(t) == Some((whole, fraction)) <==> Pattern(t, whole, fraction)
  {
    if Pattern(t, whole, fraction) {
      if fraction == [] {
        assert DotAt(t) == |t| && t[..|t|] == t;
      } else {
        DotAfterDigits(whole, fraction);
        assert t[..|whole|] == whole && t[|whole| + 1..] == fraction;
      }
    }
    var k := DotAt(t);
    assert k < |t| ==> t == t[..k] + [t[k]] + t[k + 1..];
  }

  /** Accepted are exactly the texts of the pattern in range, each with its decimal value times 10^6. */
  lemma SixDecimalAcceptsExactly(t: Text)
    ensures ParseSixDecimalAmount(t).Ok? <==>
      exists whole, fraction :: Pattern(t, whole, fraction) && Units(whole, fraction) <= MAX_UINT128
    ensures forall whole, fraction :: Pattern(t, whole, fraction) && ParseSixDecimalAmount(t).Ok? ==>
      && AllDigits(whole + fraction, 10)
      && ParseSixDecimalAmount(t).value * Power10(|fraction|) == ValueOf(whole + fraction, 10) * SCALE
  {
    hide Units, ValueOf, Power10, SplitDecimal;
    forall whole, fraction | Pattern(t, whole, fraction)
      ensures SplitDecimal(t) == Some((whole, fraction)) && AllDigits(whole + fraction, 10)
      ensures Units(whole, fraction) * Power10(|fraction|) == ValueOf(whole + fraction, 10) * SCALE
    {
      SplitsExactly(t, whole, fraction);
      UnitsAreExact(whole, fraction);
    }
    if SplitDecimal(t).Some? {
      SplitsExactly(t, SplitDecimal(t).value.0, SplitDecimal(t).value.1);
    }
  }

  /**
   * The desk accepts exactly the texts of the pattern with no leading zero, above zero and within uint256,
   * each with its decimal value times 10^6.
   */
  lemma DeskAcceptsExactly(t: Text)
    ensures DeskParseAmount(t).Ok? <==>
      exists whole, fraction :: Pattern(t, whole, fraction) && (|whole| == 1 || whole[0] != '0' as int)
        && 0 < Units(whole, fraction) <= MAX_UINT256
    ensures forall whole, fraction :: Pattern(t, whole, fraction) && DeskParseAmount(t).Ok? ==>
      && AllDigits(whole + fraction, 10)
      && DeskParseAmount(t).value * Power10(|fraction|) == ValueOf(whole + fraction, 10) * SCALE
    ensures DeskParseAmount(t) == Err(Malformed) <==>
      forall whole, fraction :: Pattern(t, whole, fraction) ==> |whole| > 1 && whole[0] == '0' as int
  {
    hide Units, ValueOf, Power10, SplitDecimal;
    forall whole, fraction | Pattern(t, whole, fraction)
      ensures SplitDecimal(t) == Some((whole, fraction)) && AllDigits(whole + fraction, 10)
      ensures Units(whole, fraction) * Power10(|fraction|) == ValueOf(whole + fraction, 10) * SCALE
    {
      SplitsExactly(t, whole, fraction);
      UnitsAreExact(whole, fraction);
    }
    if SplitDecimal(t).Some? {
      SplitsExactly(t, SplitDecimal(t).value.0, SplitDecimal(t).value.1);
    }
  }

  lemma UsdcTextSplits(m: nat)
    ensures SplitDecimal(UsdcText(m)) == Some((Decimal(m / SCALE), PadStart(Decimal(m % SCALE), 6)))
    ensures Units(Decimal(m / SCALE), PadStart(Decimal(m % SCALE), 6)) == m
    ensures AllIn(Decimal(m / SCALE)) && AllIn(PadStart(Decimal(m % SCALE), 6))
  {
    var whole, fraction := Decimal(m / SCALE), PadStart(Decimal(m % SCALE), 6);
    DecimalDigits(m / SCALE);
    SixDigits(m % SCALE);
    DotAfterDigits(whole, fraction);
    var t := whole + [DOT] + fraction;
    assert t[..|whole|] == whole && t[|whole| + 1..] == fraction;
    assert PadEnd(fraction, 6) == fraction;
  }

  lemma ZerothPower()
    ensures Power10(0) == 1
  {
  }

  /** A remainder below 10^6 pads to exactly six digits of the same value. */
  lemma SixDigits(n: nat)
    requires n < SCALE
    ensures var f := PadStart(Decimal(n), 6); |f| == 6 && AllIn(f) && AllDigits(f, 10) && ValueOf(f, 10) == n
  {
    hide ValueOf, AllDigits, Power10, Decimal;
    var d := Decimal(n);
    DecimalDigits(n);
    PowersOfSix(6);
    ZerothPower();
    NumeralLength(n, 6);
    ZerosValue(6 - |d|);
    ValueConcat(Zeros(6 - |d|), d);
    assert PadStart(d, 6) == Zeros(6 - |d|) + d;
  }

  lemma {:induction false} NumeralLength(n: nat, k: nat)
    requires k > 0 && n < Power10(k)
    ensures |Decimal(n)| <= k
  {
    if n >= 10 {
      assert Power10(k) == 10 * Power10(k - 1);
      assert Power10(1) == 10 && k > 1;
      NumeralLength(n / 10, k - 1);
    }
  }

  /** Printing and parsing an amount gives it back, for every amount a uint128 holds. */
  lemma AmountRoundTrip(units: nat)
    ensures ParseSixDecimalAmount(FormatAmount(units)) == if units <= MAX_UINT128 then Ok(units) else Err(OutOfRange)
  {
    UsdcTextSplits(units);
  }

  /** The desk's printer and parser are inverse too, on every positive uint256. */
  lemma DeskRoundTrip(units: nat)
    requires 0 < units <= MAX_UINT256
    ensures DeskParseAmount(DeskDecimal(units)) == Ok(units)
  {
    UsdcTextSplits(units);
    DecimalDigits(units / SCALE);
    assert DeskDecimal(units) == UsdcText(units);
  }

  /** Where both parsers accept a text they agree, and the desk accepts only what the adapter can read. */
  lemma ParsersAgree(t: Text)
    ensures DeskParseAmount(t).Ok? && ParseSixDecimalAmount(t).Ok? ==>
      DeskParseAmount(t).value == ParseSixDecimalAmount(t).value
    ensures DeskParseAmount(t).Ok? && DeskParseAmount(t).value <= MAX_UINT128 ==> ParseSixDecimalAmount(t).Ok?
    ensures ParseSixDecimalAmount(t).Ok? && ParseSixDecimalAmount(t).value > 0 && (t[0] != 0x30 || DotAt(t) == 1) ==>
      DeskParseAmount(t).Ok?
  {
    if SplitDecimal(t).Some? {
      assert SplitDecimal(t).value.0 == t[..DotAt(t)];
    }
  }

  /**
   * The two printers agree exactly on the amounts that are not negative, and on whole negative
   * ones: elsewhere the desk writes the sign of the remainder inside the fraction.
   */
  lemma PrintersAgreeExactlyWhen(value: int)
    ensures DeskDecimal(value) == FormatAmount(value) <==> value >= 0 || value % SCALE == 0
  {
    if value >= 0 {
      assert Quotient(value, SCALE) == value / SCALE && Remainder(value, SCALE) == value % SCALE;
    } else {
      var m: nat := -value;
      assert (m % SCALE == 0) == (value % SCALE == 0);
      DecimalDigits(m / SCALE);
      SixDigits(m % SCALE);
      if m % SCALE == 0 {
        WholeNegative(m);
      } else {
        SignInFraction(m);
      }
    }
  }

  lemma WholeNegative(m: int)
    requires m > 0 && m % SCALE == 0
    ensures DeskDecimal(-m) == FormatAmount(-m)
  {
    assert m / SCALE > 0;
    assert Quotient(-m, SCALE) == -(m / SCALE) && Remainder(-m, SCALE) == 0;
    assert SignedDecimal(-(m / SCALE)) == [0x2D] + Decimal(m / SCALE);
    assert [0x2D] + Decimal(m / SCALE) + [DOT] == [0x2D] + (Decimal(m / SCALE) + [DOT]);
  }

  lemma SignInFraction(m: int)
    requires m > 0 && m % SCALE != 0
    ensures DeskDecimal(-m) != FormatAmount(-m)
  {
    var fraction := PadStart(SignedDecimal(Remainder(-m, SCALE)), 6);
    var desk, client := DeskDecimal(-m), FormatAmount(-m);
    var r: int := m % SCALE;
    assert Remainder(-m, SCALE) == -r;
    DecimalDigits(m / SCALE);
    SixDigits(r);
    var d := SignedDecimal(-r);
    assert d[0] == 0x2D;
    assert fraction[|fraction| - |d|] == 0x2D;
    var i := |desk| - |d|;
    assert desk[i] == 0x2D && i > 0;
    assert forall j :: 0 < j < |client| ==> client[j] != 0x2D;
  }

  /** A magnitude as text: its whole part without leading zeros, a point, and six digits. */
  ghost predicate SixDecimals(t: Text, magnitude: nat) {
    exists whole, fraction :: t == whole + Ascii(".") + fraction && WritesMillionths(whole, fraction, magnitude)
  }

  predicate WritesMillionths(whole: Text, fraction: Text, magnitude: nat) {
    && whole != [] && (whole[0] == '0' as int ==> |whole| == 1) && |fraction| == 6
    && Writes(whole + fraction, 10, magnitude)
  }

  /** An amount is its sign, if negative, and its magnitude to six decimals. */
  lemma AmountTextIs(units: int)
    ensures units >= 0 ==> SixDecimals(FormatAmount(units), units) && SixDecimals(DeskDecimal(units), units)
    ensures units < 0 ==> exists t :: FormatAmount(units) == Ascii("-") + t && SixDecimals(t, -units)
  {
    var m: nat := if units < 0 then -units else units;
    MagnitudeText(m);
    assert Ascii("-") == [0x2D];
    hide SixDecimals, UsdcText, DeskDecimal, Ascii;
    PrintersAgreeExactlyWhen(units);
  }

  lemma MagnitudeText(m: nat)
    ensures SixDecimals(UsdcText(m), m)
  {
    var whole, fraction := Decimal(m / SCALE), PadStart(Decimal(m % SCALE), 6);
    MillionthsWritten(m);
    assert Ascii(".") == [DOT];
    hide Decimal, PadStart, WritesMillionths, Ascii;
    assert UsdcText(m) == whole + Ascii(".") + fraction;
  }

  lemma MillionthsWritten(m: nat)
    ensures WritesMillionths(Decimal(m / SCALE), PadStart(Decimal(m % SCALE), 6), m)
  {
    hide Decimal, PadStart, ValueOf, AllDigits, Power10;
    var whole, fraction := Decimal(m / SCALE), PadStart(Decimal(m % SCALE), 6);
    DecimalDigits(m / SCALE);
    SixDigits(m % SCALE);
    ValueConcat(whole, fraction);
    PowersOfSix(6);
    ZerothPower();
  }

  /** The limits of the two unsigned types. */
  lemma Limits()
    ensures MAX_UINT128 + 1 == 0x1_0000_0000_0000_0000 * 0x1_0000_0000_0000_0000
    ensures MAX_UINT256 + 1 == (MAX_UINT128 + 1) * (MAX_UINT128 + 1)
    ensures SCALE == Power10(6)
  {
    assert Power10(3) == 1000 && Power10(6) == 1000 * Power10(3);
  }

  /** For a negative amount the desk writes a second sign: minus one and a half USDC. */
  lemma SignTwice()
    ensures DeskDecimal(-1_500_000) == Ascii("-1.-500000") && FormatAmount(-1_500_000) == Ascii("-1.500000")
  {
    assert Quotient(-1_500_000, SCALE) == -1 && Remainder(-1_500_000, SCALE) == -500_000;
    assert Decimal(1) == [0x31];
    FiveHundredThousand();
    assert SignedDecimal(-1) == [0x2D, 0x31];
  }

  lemma FiveHundredThousand()
    ensures Decimal(500_000) == Ascii("500000")
  {
    assert Decimal(5) == [0x35] && Decimal(50) == Decimal(5) + [0x30] && Decimal(500) == Decimal(50) + [0x30];
    assert Decimal(5_000) == Decimal(500) + [0x30] && Decimal(50_000) == Decimal(5_000) + [0x30];
    assert Decimal(500_000) == Decimal(50_000) + [0x30];
  }

  /** Unsigned fields: a text is accepted as n exactly when it is the numeral of n, and n fits. */
  lemma UintExactly(t: Text, max: nat, n: nat)
    ensures ParseUint(t, max) == Ok(n) <==> t == Decimal(n) && n <= max
  {
    DecimalDigits(n);
    if t != [] && AllIn(t) && (|t| > 1 ==> t[0] != 0x30) {
      ValueNumeral(t);
    }
  }
}

// The two views of one USDC balance: 18 decimals natively, 6 in the ERC-20 view.
module AmountScale {
  import opened Outcomes
  import opened Numerals

  const CANONICAL_DECIMALS := 6
  const NATIVE_TO_CANONICAL := 1_000_000_000_000
  const MAX_PLAUSIBLE_CANONICAL := 1_000_000_000_000_000

  datatype ScaleError = Negative | BadDecimals | WouldWiden | WouldDiscard(remainder: nat) | Implausible

  function Divisor(sourceDecimals: int): (d: nat)
    requires sourceDecimals >= CANONICAL_DECIMALS
    ensures d > 0
  {
    Power10(sourceDecimals - CANONICAL_DECIMALS)
  }

  function CheckScale(amount: int, sourceDecimals: int): (e: Option<ScaleError>) {
    if amount < 0 then Some(Negative)
    else if sourceDecimals < 0 then Some(BadDecimals)
    else if sourceDecimals < CANONICAL_DECIMALS then Some(WouldWiden)
    else None
  }

  /** `toCanonical`: narrows, truncating. */
  function ToCanonical(amount: int, sourceDecimals: int): (r: Result<nat, ScaleError>) {
    match CheckScale(amount, sourceDecimals)
    case Some(e) => Err(e)
    case None =>
      FloorIsNatural(amount, Divisor(sourceDecimals));
      Ok(amount / Divisor(sourceDecimals))
  }

  /** `toCanonicalExact`: narrows, refusing to discard anything. */
  function ToCanonicalExact(amount: int, sourceDecimals: int): (r: Result<nat, ScaleError>) {
    match CheckScale(amount, sourceDecimals)
    case Some(e) => Err(e)
    case None =>
      FloorIsNatural(amount, Divisor(sourceDecimals));
      var remainder := amount % Divisor(sourceDecimals);
      if remainder != 0 then Err(WouldDiscard(remainder)) else Ok(amount / Divisor(sourceDecimals))
  }

  /** `assertCanonicalScale`. */
  function AssertCanonicalScale(amount: int): (r: Result<nat, ScaleError>) {
    if amount < 0 then Err(Negative)
    else if amount > MAX_PLAUSIBLE_CANONICAL then Err(Implausible)
    else Ok(amount)
  }

  lemma FloorIsNatural(a: int, d: nat)
    requires a >= 0 && d > 0
    ensures a / d >= 0 && a % d >= 0 && a / d * d <= a < a / d * d + d
  {
  }

  /** Between two multiples of the divisor there is one quotient. */
  lemma FloorUnique(a: nat, d: nat, q: nat)
    requires d > 0 && q * d <= a < q * d + d
    ensures a / d == q
  {
    FloorIsNatural(a, d);
    var p := a / d;
    if p < q {
      Spread(p, q, d);
    } else if q < p {
      Spread(q, p, d);
    }
  }

  lemma Spread(p: int, q: int, d: int)
    requires p < q && d > 0
    ensures p * d + d <= q * d
  {
    var gap: nat := q - p - 1;
    ProductIsNatural(gap, d);
    assert q * d == (gap + p + 1) * d == gap * d + p * d + d;
  }

  lemma ProductIsNatural(a: nat, b: nat)
    ensures a * b >= 0
  {
  }

  /** Narrowing is the floor of the true value: the largest canonical amount that does not exceed it. */
  lemma CanonicalIsFloor(amount: nat, sourceDecimals: int, c: nat)
    requires sourceDecimals >= CANONICAL_DECIMALS
    ensures ToCanonical(amount, sourceDecimals).Ok?
    ensures c <= ToCanonical(amount, sourceDecimals).value <==> c * Divisor(sourceDecimals) <= amount
  {
    var d := Divisor(sourceDecimals);
    FloorIsNatural(amount, d);
    var q := amount / d;
    if c <= q {
      if c < q { Spread(c, q, d); }
    } else {
      Spread(q, c, d);
    }
  }

  /** Larger amounts never narrow to smaller ones. */
  lemma CanonicalIsMonotone(a: nat, b: nat, sourceDecimals: int)
    requires sourceDecimals >= CANONICAL_DECIMALS && a <= b
    ensures ToCanonical(a, sourceDecimals).value <= ToCanonical(b, sourceDecimals).value
  {
    CanonicalIsFloor(a, sourceDecimals, ToCanonical(a, sourceDecimals).value);
    CanonicalIsFloor(b, sourceDecimals, ToCanonical(a, sourceDecimals).value);
  }

  /** Exact narrowing succeeds exactly when the amount is a scaled-up canonical one, and undoes it. */
  lemma ExactUndoesScaling(amount: nat, sourceDecimals: int, c: nat)
    requires sourceDecimals >= CANONICAL_DECIMALS
    ensures ToCanonicalExact(amount, sourceDecimals) == Ok(c) <==> amount == c * Divisor(sourceDecimals)
    ensures amount == c * Divisor(sourceDecimals) ==> ToCanonical(amount, sourceDecimals) == Ok(c)
    ensures ToCanonicalExact(amount, sourceDecimals).Ok? ==>
      ToCanonicalExact(amount, sourceDecimals) == ToCanonical(amount, sourceDecimals)
  {
    var d := Divisor(sourceDecimals);
    FloorIsNatural(amount, d);
    if amount == c * d {
      FloorUnique(amount, d, c);
    }
  }

  /** Below the canonical scale, or below zero, neither narrows anything. */
  lemma NeverWidens(amount: int, sourceDecimals: int)
    requires amount < 0 || sourceDecimals < CANONICAL_DECIMALS
    ensures ToCanonical(amount, sourceDecimals).Err? && ToCanonicalExact(amount, sourceDecimals).Err?
  {
  }

  /** What passes comes back unchanged: exactly the amounts from zero to a thousand million USDC. */
  lemma CanonicalScaleExactly(amount: int, units: nat)
    ensures AssertCanonicalScale(amount) == Ok(units) <==> amount == units && units <= 1_000_000_000 * 1_000_000
    ensures AssertCanonicalScale(amount) == Err(Negative) <==> amount < 0
  {
  }

  /** A native amount taken for a canonical one is caught exactly above a thousandth of a USDC. */
  lemma NativeAmountsCaught(c: nat)
    ensures AssertCanonicalScale(c * NATIVE_TO_CANONICAL) == Err(Implausible) <==> c > 1_000
    ensures Divisor(18) == NATIVE_TO_CANONICAL
  {
    assert Power10(4) == 10_000 && Power10(8) == 10_000 * Power10(4);
    assert Power10(12) == 10_000 * Power10(8);
  }
}

// The covenant's ratio, and the cover still missing.
module CoverageShortfall {

  const BPS := 10_000

  /** `grossBps`, and the engine's ratio as the desk shows it: basis points, rounded down. */
  function Bps(covered: nat, exposure: nat): (bps: nat)
    requires exposure > 0
  {
    covered * BPS / exposure
  }

  /** The shortfall `describeVerdict` computes. */
  function Shortfall(exposure: nat, required: nat, counted: nat): (s: int) {
    (exposure * required + 9_999) / BPS - counted
  }

  lemma RatioReached(covered: nat, exposure: nat, required: nat)
    requires exposure > 0
    ensures Bps(covered, exposure) >= required <==> covered * 10_000 >= required * exposure
  {
    QuotientReached(covered * BPS, exposure, required);
  }

  lemma QuotientReached(a: nat, d: nat, r: nat)
    requires d > 0
    ensures a / d >= r <==> a >= r * d
  {
    var q := a / d;
    assert q * d <= a < q * d + d;
    if q >= r {
      Times(r, q, d);
    } else {
      Times(q + 1, r, d);
      assert (q + 1) * d == q * d + d;
    }
  }

  lemma Times(p: nat, q: nat, d: nat)
    requires p <= q
    ensures p * d <= q * d
  {
    assert q * d == p * d + (q - p) * d;
  }

  /**
   * The displayed shortfall is the least cover that restores the covenant: with it the ratio is
   * reached, with anything less it is not. It is positive exactly when the covenant is below its
   * requirement, and while the requirement is at most 100% it never asks for more than the exposure.
   */
  lemma ShortfallIsLeast(exposure: nat, required: nat, counted: nat, x: nat)
    requires exposure > 0
    ensures Bps(counted + x, exposure) >= required <==> x >= Shortfall(exposure, required, counted)
    ensures Shortfall(exposure, required, counted) > 0 <==> Bps(counted, exposure) < required
    ensures required <= 10_000 ==> counted + Shortfall(exposure, required, counted) <= exposure
  {
    var n := exposure * required;
    RatioReached(counted + x, exposure, required);
    RatioReached(counted, exposure, required);
    assert required * exposure == n;
    if required <= BPS {
      assert exposure * (BPS - required) >= 0;
    }
  }
}
