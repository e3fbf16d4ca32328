// JavaScript text: a string is a sequence of UTF-16 code units, not of characters.
module Utf16 {

  type CodeUnit = u: int | 0 <= u < 0x1_0000

  type Text = seq<CodeUnit>

  /** An ASCII literal of the source as code units. */
  function Ascii(s: string): (t: Text)
  {
    seq(|s|, i requires 0 <= i < |s| => s[i] as int % 0x1_0000)
  }

  predicate HighSurrogate(u: CodeUnit) {
    0xD800 <= u < 0xDC00
  }

  predicate LowSurrogate(u: CodeUnit) {
    0xDC00 <= u < 0xE000
  }

  predicate Surrogate(u: CodeUnit) {
    0xD800 <= u < 0xE000
  }

  /** Every surrogate is half of a pair. Only such text has a faithful UTF-8 encoding. */
  predicate WellFormed(t: Text) {
    if t == [] then true
    else if HighSurrogate(t[0]) then |t| > 1 && LowSurrogate(t[1]) && WellFormed(t[2..])
    else !LowSurrogate(t[0]) && WellFormed(t[1..])
  }

  lemma {:induction false} WellFormedConcat(a: Text, b: Text)
    requires WellFormed(a) && WellFormed(b)
    ensures WellFormed(a + b)
  {
    if a == [] {
      assert a + b == b;
    } else if HighSurrogate(a[0]) {
      assert (a + b)[2..] == a[2..] + b;
      WellFormedConcat(a[2..], b);
    } else {
      assert (a + b)[1..] == a[1..] + b;
      WellFormedConcat(a[1..], b);
    }
  }

  /** Text with no surrogate at all, such as ASCII, is well formed. */
  lemma {:induction false} PlainIsWellFormed(t: Text)
    requires forall i :: 0 <= i < |t| ==> !Surrogate(t[i])
    ensures WellFormed(t)
  {
    if t != [] {
      PlainIsWellFormed(t[1..]);
    }
  }

  /** ASCII lower-casing; the texts the source lower-cases are compared with hexadecimal. */
  function Lower(t: Text): (r: Text)
    ensures |r| == |t|
  {
    seq(|t|, i requires 0 <= i < |t| => if 0x41 <= t[i] <= 0x5A then t[i] + 0x20 else t[i])
  }

  /** Unit by unit the same, but for the case of the 26 letters. */
  predicate SameLetters(a: Text, b: Text) {
    && |a| == |b|
    && forall i :: 0 <= i < |a| ==>
      || a[i] == b[i]
      || ('A' as int <= a[i] <= 'Z' as int && b[i] == a[i] + 32)
      || ('A' as int <= b[i] <= 'Z' as int && a[i] == b[i] + 32)
  }

  lemma LowerAlike(a: Text, b: Text)
    ensures Lower(a) == Lower(b) <==> SameLetters(a, b)
  {
    if Lower(a) == Lower(b) {
      forall i | 0 <= i < |a|
        ensures a[i] == b[i] || (0x41 <= a[i] <= 0x5A && b[i] == a[i] + 32) || (0x41 <= b[i] <= 0x5A && a[i] == b[i] + 32)
      {
        assert Lower(a)[i] == Lower(b)[i];
      }
    }
  }

  lemma EndsWithMeans(t: Text, suffix: Text)
    ensures EndsWith(t, suffix) <==> exists before :: t == before + suffix
  {
    if EndsWith(t, suffix) {
      assert t == t[..|t| - |suffix|] + suffix;
    }
  }

  predicate EndsWith(t: Text, suffix: Text) {
    |suffix| <= |t| && t[|t| - |suffix|..] == suffix
  }

  /** The order `Array.prototype.sort` uses by default: by code unit, a prefix first. */
  predicate Before(a: Text, b: Text) {
    if b == [] then false
    else if a == [] then true
    else a[0] < b[0] || (a[0] == b[0] && Before(a[1..], b[1..]))
  }

  lemma {:induction false} BeforeIrreflexive(a: Text)
    ensures !Before(a, a)
  {
    if a != [] { BeforeIrreflexive(a[1..]); }
  }

  lemma {:induction false} BeforeTransitive(a: Text, b: Text, c: Text)
    requires Before(a, b) && Before(b, c)
    ensures Before(a, c)
  {
    if a != [] && a[0] == b[0] && b[0] == c[0] {
      BeforeTransitive(a[1..], b[1..], c[1..]);
    }
  }

  /** a comes first: at the first place where they part it has the smaller unit, or it ends there. */
  ghost predicate Precedes(a: Text, b: Text) {
    exists k: nat :: PartsAt(a, b, k)
  }

  predicate PartsAt(a: Text, b: Text, k: nat) {
    && k <= |a| && k < |b| && a[..k] == b[..k]
    && (k == |a| || a[k] < b[k])
  }

  lemma HeadsAgree(a: Text, b: Text)
    ensures forall k: nat | PartsAt(a, b, k) && k > 0 :: a != [] && b != [] && a[0] == b[0]
  {
    forall k: nat | PartsAt(a, b, k) && k > 0
      ensures a != [] && b != [] && a[0] == b[0]
    {
      assert a[..k][0] == a[0] && b[..k][0] == b[0];
    }
  }

  lemma {:induction false} BeforeIsPrecedes(a: Text, b: Text)
    ensures Before(a, b) <==> Precedes(a, b)
  {
    if b != [] && a != [] && a[0] == b[0] {
      BeforeIsPrecedes(a[1..], b[1..]);
      if Precedes(a[1..], b[1..]) {
        var k: nat :| PartsAt(a[1..], b[1..], k);
        assert a[..k + 1] == [a[0]] + a[1..][..k] && b[..k + 1] == [b[0]] + b[1..][..k];
        assert PartsAt(a, b, k + 1);
      }
      if Precedes(a, b) {
        var k: nat :| PartsAt(a, b, k);
        assert k > 0;
        assert a[1..][..k - 1] == a[..k][1..] && b[1..][..k - 1] == b[..k][1..];
        assert PartsAt(a[1..], b[1..], k - 1);
      }
    } else if Before(a, b) {
      assert PartsAt(a, b, 0);
    }
    HeadsAgree(a, b);
  }

  lemma {:induction false} BeforeTotal(a: Text, b: Text)
    ensures a == b || Before(a, b) || Before(b, a)
  {
    if a != [] && b != [] && a[0] == b[0] {
      BeforeTotal(a[1..], b[1..]);
      assert a == [a[0]] + a[1..] && b == [b[0]] + b[1..];
    }
  }
}

// Numbers as text: `toString`, `numberToHex`, and the grammar `BigInt(text)` accepts.
module Numerals {
  import opened Outcomes
  import opened Utf16

  predicate IsDigit(u: CodeUnit) {
    0x30 <= u <= 0x39
  }

  /** The value of a digit in base 16, either case. */
  function DigitValue(u: CodeUnit): (d: Option<nat>)
  {
    if 0x30 <= u <= 0x39 then Some(u - 0x30)
    else if 0x61 <= u <= 0x66 then Some(u - 0x57)
    else if 0x41 <= u <= 0x46 then Some(u - 0x37)
    else None
  }

  function DigitUnit(d: nat): (u: CodeUnit)
    requires d < 16
    ensures DigitValue(u) == Some(d)
    ensures d < 10 ==> IsDigit(u)
  {
    if d < 10 then 0x30 + d else 0x57 + d
  }

  predicate Base(base: nat) {
    base == 2 || base == 8 || base == 10 || base == 16
  }

  predicate AllDigits(t: Text, base: nat) {
    forall i :: 0 <= i < |t| ==> DigitValue(t[i]).Some? && DigitValue(t[i]).value < base
  }

  /** The positional value of a run of digits. */
  function ValueOf(t: Text, base: nat): (n: nat)
    requires AllDigits(t, base)
  {
    if t == [] then 0 else ValueOf(t[..|t| - 1], base) * base + DigitValue(t[|t| - 1]).value
  }

  /** The shortest lower-case numeral of n: `n.toString(base)`. */
  function Numeral(n: nat, base: nat): (t: Text)
    requires Base(base)
    ensures |t| > 0
  {
    if n < base then [DigitUnit(n)]
    else Numeral(n / base, base) + [DigitUnit(n % base)]
  }

  function Decimal(n: nat): (t: Text) {
    Numeral(n, 10)
  }

  function SignedDecimal(n: int): (t: Text) {
    if n < 0 then [0x2D] + Decimal(-n) else Decimal(n)
  }

  function Hexadecimal(n: nat): (t: Text) {
    [0x30, 0x78] + Numeral(n, 16)
  }

  lemma {:induction false} NumeralValue(n: nat, base: nat)
    requires Base(base)
    ensures AllDigits(Numeral(n, base), base)
    ensures ValueOf(Numeral(n, base), base) == n
    ensures |Numeral(n, base)| > 1 ==> Numeral(n, base)[0] != 0x30
    ensures n > 0 ==> Numeral(n, base)[0] != 0x30
  {
    var t := Numeral(n, base);
    if n < base {
      assert t[..0] == [];
    } else {
      NumeralValue(n / base, base);
      assert t[..|t| - 1] == Numeral(n / base, base);
    }
  }

  lemma {:induction false} NumeralLower(n: nat, base: nat)
    requires Base(base)
    ensures forall i :: 0 <= i < |Numeral(n, base)| ==>
      '0' as int <= Numeral(n, base)[i] <= '9' as int || 'a' as int <= Numeral(n, base)[i] <= 'f' as int
  {
    if n >= base { NumeralLower(n / base, base); }
  }

  /** "0x" and the lower-case numeral of n, without leading zeros. */
  ghost predicate IsHexOf(t: Text, n: nat) {
    && |t| > 2 && t[..2] == Ascii("0x") && Writes(t[2..], 16, n) && (t[2] == '0' as int ==> |t| == 3)
    && forall i :: 2 <= i < |t| ==> '0' as int <= t[i] <= '9' as int || 'a' as int <= t[i] <= 'f' as int
  }

  /** `numberToHex(n)`. */
  lemma HexadecimalIs(n: nat)
    ensures IsHexOf(Hexadecimal(n), n)
  {
    hide Numeral, AllDigits, ValueOf;
    var t := Hexadecimal(n);
    NumeralValue(n, 16);
    NumeralLower(n, 16);
    assert t[2..] == Numeral(n, 16);
  }

  /** A numeral without leading zeros is the numeral of its value: printing inverts reading. */
  lemma {:induction false} ValueNumeral(t: Text)
    requires t != [] && AllDigits(t, 10) && (|t| > 1 ==> t[0] != 0x30)
    ensures Decimal(ValueOf(t, 10)) == t
    ensures |t| > 1 || t[0] != 0x30 ==> ValueOf(t, 10) > 0
  {
    var front, last := t[..|t| - 1], t[|t| - 1];
    assert t == front + [last];
    if |t| == 1 {
      assert front == [] && ValueOf(front, 10) == 0;
      assert DigitUnit(DigitValue(last).value) == last;
    } else {
      ValueNumeral(front);
      var v, d := ValueOf(front, 10), DigitValue(last).value;
      assert (v * 10 + d) / 10 == v && (v * 10 + d) % 10 == d;
      assert DigitUnit(d) == last;
    }
  }

  lemma ValueAppend(t: Text, u: CodeUnit)
    requires AllDigits(t + [u], 10)
    ensures AllDigits(t, 10) && IsDigit(u)
    ensures ValueOf(t + [u], 10) == ValueOf(t, 10) * 10 + (u - 0x30)
  {
    var more := t + [u];
    assert more[..|more| - 1] == t && more[|t|] == u;
    assert forall i :: 0 <= i < |t| ==> t[i] == more[i];
  }

  lemma DigitsConcat(a: Text, b: Text)
    ensures AllDigits(a + b, 10) <==> AllDigits(a, 10) && AllDigits(b, 10)
  {
    assert forall i :: 0 <= i < |a| ==> a[i] == (a + b)[i];
    assert forall i :: 0 <= i < |b| ==> b[i] == (a + b)[|a| + i];
  }

  lemma {:induction false} ValueConcat(a: Text, b: Text)
    requires AllDigits(a, 10) && AllDigits(b, 10)
    ensures AllDigits(a + b, 10)
    ensures ValueOf(a + b, 10) == ValueOf(a, 10) * Power10(|b|) + ValueOf(b, 10)
  {
    DigitsConcat(a, b);
    if b == [] {
      assert a + b == a;
    } else {
      var front, last := b[..|b| - 1], b[|b| - 1];
      assert b == front + [last] && a + b == (a + front) + [last];
      hide ValueOf, AllDigits;
      ValueAppend(front, last);
      ValueAppend(a + front, last);
      ValueConcat(a, front);
      ShiftAppend(ValueOf(a, 10), Power10(|front|), ValueOf(front, 10), last - 0x30);
    }
  }

  lemma ShiftAppend(a: nat, p: nat, f: nat, d: nat)
    ensures (a * p + f) * 10 + d == a * (10 * p) + (f * 10 + d)
  {
  }

  function Power10(k: nat): (p: nat)
    ensures p > 0
  {
    if k == 0 then 1 else 10 * Power10(k - 1)
  }

  function Zeros(k: nat): (t: Text)
    ensures |t| == k && forall i :: 0 <= i < k ==> t[i] == 0x30
  {
    seq(k, i => 0x30)
  }

  lemma {:induction false} ZerosValue(k: nat)
    ensures AllDigits(Zeros(k), 10) && ValueOf(Zeros(k), 10) == 0
  {
    if k > 0 {
      ZerosValue(k - 1);
      assert Zeros(k)[..k - 1] == Zeros(k - 1);
    }
  }

  lemma {:induction false} ValueBound(t: Text)
    requires AllDigits(t, 10)
    ensures ValueOf(t, 10) < Power10(|t|)
  {
    if t != [] {
      ValueBound(t[..|t| - 1]);
    }
  }

  /** `padStart(width, "0")`. */
  function PadStart(t: Text, width: nat): (r: Text) {
    if |t| >= width then t else Zeros(width - |t|) + t
  }

  /** `padEnd(width, "0")`. */
  function PadEnd(t: Text, width: nat): (r: Text) {
    if |t| >= width then t else t + Zeros(width - |t|)
  }

  predicate Whitespace(u: CodeUnit) {
    0x09 <= u <= 0x0D || u == 0x20 || u == 0xA0 || u == 0x1680 || 0x2000 <= u <= 0x200A
    || u == 0x2028 || u == 0x2029 || u == 0x202F || u == 0x205F || u == 0x3000 || u == 0xFEFF
  }

  function TrimStart(t: Text): (r: Text)
    decreases |t|
  {
    if t != [] && Whitespace(t[0]) then TrimStart(t[1..]) else t
  }

  function TrimEnd(t: Text): (r: Text)
    decreases |t|
  {
    if t != [] && Whitespace(t[|t| - 1]) then TrimEnd(t[..|t| - 1]) else t
  }

  predicate AllSpace(t: Text) {
    forall i :: 0 <= i < |t| ==> Whitespace(t[i])
  }

  lemma {:induction false} TrimmedStart(t: Text) returns (before: Text)
    ensures t == before + TrimStart(t) && AllSpace(before)
    ensures TrimStart(t) != [] ==> !Whitespace(TrimStart(t)[0]) && TrimStart(t)[|TrimStart(t)| - 1] == t[|t| - 1]
    decreases |t|
  {
    hide Whitespace;
    before := [];
    if t != [] && Whitespace(t[0]) {
      before := TrimmedStart(t[1..]);
      before := [t[0]] + before;
      assert t == [t[0]] + t[1..];
    }
  }

  lemma {:induction false} TrimmedEnd(t: Text) returns (after: Text)
    ensures t == TrimEnd(t) + after && AllSpace(after)
    ensures TrimEnd(t) != [] ==> !Whitespace(TrimEnd(t)[|TrimEnd(t)| - 1])
    decreases |t|
  {
    hide Whitespace;
    after := [];
    if t != [] && Whitespace(t[|t| - 1]) {
      after := TrimmedEnd(t[..|t| - 1]);
      after := after + [t[|t| - 1]];
      assert t == t[..|t| - 1] + [t[|t| - 1]];
    }
  }

  /** `trim()`: only white space goes, from both ends, and none is left there. */
  ghost predicate Trims(t: Text, r: Text) {
    && (exists before, after :: t == before + r + after && AllSpace(before) && AllSpace(after))
    && (r != [] ==> !Whitespace(r[0]) && !Whitespace(r[|r| - 1]))
  }

  lemma {:induction false} SpaceEnds(t: Text, after: Text)
    requires AllSpace(after) && (t == [] || !Whitespace(t[|t| - 1]))
    ensures TrimEnd(t + after) == t
    decreases |after|
  {
    if after == [] {
      assert t + after == t;
    } else {
      SpaceEnds(t, after[..|after| - 1]);
      assert (t + after)[..|t + after| - 1] == t + after[..|after| - 1];
    }
  }

  lemma {:induction false} SpaceStarts(before: Text, t: Text)
    requires AllSpace(before) && (t == [] || !Whitespace(t[0]))
    ensures TrimStart(before + t) == t
    decreases |before|
  {
    if before == [] {
      assert before + t == t;
    } else {
      SpaceStarts(before[1..], t);
      assert (before + t)[1..] == before[1..] + t;
    }
  }

  lemma SpaceTogether(a: Text, b: Text)
    requires AllSpace(a) && AllSpace(b)
    ensures AllSpace(a + b)
  {
    hide Whitespace;
  }

  lemma TrimsOnly(t: Text, before: Text, r: Text, after: Text)
    requires t == before + r + after && AllSpace(before) && AllSpace(after)
    requires r != [] ==> !Whitespace(r[0]) && !Whitespace(r[|r| - 1])
    ensures TrimStart(TrimEnd(t)) == r
  {
    hide Whitespace, AllSpace, TrimStart, TrimEnd;
    if r == [] {
      SpaceTogether(before, after);
      assert before + r + after == [] + (before + after);
      SpaceEnds([], before + after);
      assert [] + r == r;
      SpaceStarts([], r) by { assert AllSpace([]) by { NoSpace(); } }
    } else {
      assert (before + r)[|before + r| - 1] == r[|r| - 1];
      SpaceEnds(before + r, after);
      SpaceStarts(before, r);
    }
  }

  lemma NoSpace()
    ensures AllSpace([])
  {
  }

  lemma TrimmedIs(t: Text, r: Text)
    ensures Trims(t, r) <==> r == TrimStart(TrimEnd(t))
  {
    hide Whitespace, AllSpace, TrimStart, TrimEnd;
    var after := TrimmedEnd(t);
    var before := TrimmedStart(TrimEnd(t));
    assert t == before + TrimStart(TrimEnd(t)) + after;
    if Trims(t, r) {
      var b, a :| t == b + r + a && AllSpace(b) && AllSpace(a);
      TrimsOnly(t, b, r, a);
    }
  }

  /** Nothing is left exactly of space alone. */
  lemma TrimmedEmpty(t: Text)
    ensures TrimStart(TrimEnd(t)) == [] <==> AllSpace(t)
  {
    hide Whitespace, TrimStart, TrimEnd, AllSpace;
    TrimmedIs(t, []);
    if Trims(t, []) {
      var before: Text, after: Text :| t == before + [] + after && AllSpace(before) && AllSpace(after);
      SpaceTogether(before, after);
      assert before + [] + after == before + after;
    }
    if AllSpace(t) {
      NoSpace();
      assert t == t + [] + [];
    }
  }

  /** The white space of ECMAScript: its spaces, tabs and line ends, and the byte order mark. */
  lemma WhitespaceIs(u: CodeUnit)
    ensures Whitespace(u) <==> u in {
      0x09, 0x0A, 0x0B, 0x0C, 0x0D, 0x20, 0xA0, 0x1680, 0x2000, 0x2001, 0x2002, 0x2003, 0x2004, 0x2005, 0x2006,
      0x2007, 0x2008, 0x2009, 0x200A, 0x2028, 0x2029, 0x202F, 0x205F, 0x3000, 0xFEFF}
  {
  }

  function Digits(t: Text, base: nat): (n: Option<nat>) {
    if t != [] && AllDigits(t, base) then Some(ValueOf(t, base)) else None
  }

  function Negated(n: Option<nat>): (r: Option<int>) {
    if n.Some? then (var v: int := n.value; Some(-v)) else None
  }

  /** `BigInt(text)`: the empty text is 0, a prefix selects the base, only decimals take a sign. */
  function BigIntOf(t: Text): (n: Option<int>) {
    var s := TrimStart(TrimEnd(t));
    if s == [] then Some(0)
    else if |s| > 1 && s[0] == 0x30 && (s[1] == 0x78 || s[1] == 0x58) then Digits(s[2..], 16)
    else if |s| > 1 && s[0] == 0x30 && (s[1] == 0x6F || s[1] == 0x4F) then Digits(s[2..], 8)
    else if |s| > 1 && s[0] == 0x30 && (s[1] == 0x62 || s[1] == 0x42) then Digits(s[2..], 2)
    else if s[0] == 0x2D then Negated(Digits(s[1..], 10))
    else if s[0] == 0x2B then Digits(s[1..], 10)
    else Digits(s, 10)
  }

  /** s writes n in this base: at least one digit, and nothing else. */
  predicate Writes(s: Text, base: nat, n: int) {
    s != [] && AllDigits(s, base) && n == ValueOf(s, base)
  }

  ghost predicate Tagged(s: Text, tag: Text, base: nat, n: int) {
    exists d :: s == tag + d && Writes(d, base, n)
  }

  /** The texts a StringToBigInt conversion takes for n, space at the ends aside. */
  ghost predicate Denotes(s: Text, n: int) {
    || (s == [] && n == 0)
    || Writes(s, 10, n) || Tagged(s, Ascii("+"), 10, n) || Tagged(s, Ascii("-"), 10, -n)
    || Tagged(s, Ascii("0x"), 16, n) || Tagged(s, Ascii("0X"), 16, n)
    || Tagged(s, Ascii("0o"), 8, n) || Tagged(s, Ascii("0O"), 8, n)
    || Tagged(s, Ascii("0b"), 2, n) || Tagged(s, Ascii("0B"), 2, n)
  }

  lemma OneUnitTag(s: Text, a: CodeUnit, base: nat, n: int)
    ensures Tagged(s, [a], base, n) <==> s != [] && s[0] == a && Writes(s[1..], base, n)
  {
    hide Writes;
    if s != [] && s[0] == a { assert s == [a] + s[1..]; }
    if Tagged(s, [a], base, n) {
      var d :| s == [a] + d && Writes(d, base, n);
      assert s[1..] == d;
    }
  }

  lemma TwoUnitTag(s: Text, a: CodeUnit, b: CodeUnit, base: nat, n: int)
    ensures Tagged(s, [a, b], base, n) <==> |s| > 1 && s[0] == a && s[1] == b && Writes(s[2..], base, n)
  {
    hide Writes;
    if |s| > 1 && s[0] == a && s[1] == b { assert s == [a, b] + s[2..]; }
    if Tagged(s, [a, b], base, n) {
      var d :| s == [a, b] + d && Writes(d, base, n);
      assert s[2..] == d;
    }
  }

  lemma TagsAre(s: Text, n: int)
    ensures Denotes(s, n) <==>
      || (s == [] && n == 0)
      || Writes(s, 10, n)
      || (s != [] && s[0] == 0x2B && Writes(s[1..], 10, n))
      || (s != [] && s[0] == 0x2D && Writes(s[1..], 10, -n))
      || (|s| > 1 && s[0] == 0x30 && (s[1] == 0x78 || s[1] == 0x58) && Writes(s[2..], 16, n))
      || (|s| > 1 && s[0] == 0x30 && (s[1] == 0x6F || s[1] == 0x4F) && Writes(s[2..], 8, n))
      || (|s| > 1 && s[0] == 0x30 && (s[1] == 0x62 || s[1] == 0x42) && Writes(s[2..], 2, n))
  {
    assert Ascii("+") == [0x2B] && Ascii("-") == [0x2D];
    assert Ascii("0x") == [0x30, 0x78] && Ascii("0X") == [0x30, 0x58];
    assert Ascii("0o") == [0x30, 0x6F] && Ascii("0O") == [0x30, 0x4F];
    assert Ascii("0b") == [0x30, 0x62] && Ascii("0B") == [0x30, 0x42];
    hide Ascii, Writes, Tagged;
    OneUnitTag(s, 0x2B, 10, n);
    OneUnitTag(s, 0x2D, 10, -n);
    TwoUnitTag(s, 0x30, 0x78, 16, n);
    TwoUnitTag(s, 0x30, 0x58, 16, n);
    TwoUnitTag(s, 0x30, 0x6F, 8, n);
    TwoUnitTag(s, 0x30, 0x4F, 8, n);
    TwoUnitTag(s, 0x30, 0x62, 2, n);
    TwoUnitTag(s, 0x30, 0x42, 2, n);
  }

  /** Decimal digits hold no sign and no letter. */
  lemma PlainDigits(s: Text, n: int)
    requires Writes(s, 10, n)
    ensures IsDigit(s[0]) && (|s| > 1 ==> IsDigit(s[1]))
  {
    hide ValueOf;
  }

  /** `BigInt(text)` is n exactly for the texts that denote n once trimmed. */
  lemma BigIntOfExactly(t: Text, n: int)
    ensures BigIntOf(t) == Some(n) <==> exists s :: Trims(t, s) && Denotes(s, n)
  {
    hide TrimStart, TrimEnd, Denotes, Trims, BigIntOf;
    var s := TrimStart(TrimEnd(t));
    forall r { TrimmedIs(t, r); }
    BigIntOfTrimmed(t, n);
    assert Trims(t, s);
  }

  lemma BigIntOfTrimmed(t: Text, n: int)
    ensures BigIntOf(t) == Some(n) <==> Denotes(TrimStart(TrimEnd(t)), n)
  {
    hide TrimStart, TrimEnd, Denotes, Writes, ValueOf;
    var s := TrimStart(TrimEnd(t));
    TagsAre(s, n);
    if Writes(s, 10, n) { PlainDigits(s, n); }
    DigitsAre(s, 10);
    if s != [] { DigitsAre(s[1..], 10); }
    if |s| > 1 {
      DigitsAre(s[2..], 16);
      DigitsAre(s[2..], 8);
      DigitsAre(s[2..], 2);
    }
  }

  lemma DigitsAre(s: Text, base: nat)
    ensures forall n: int :: Writes(s, base, n) <==> Digits(s, base).Some? && Digits(s, base).value == n
  {
    hide ValueOf;
  }

  lemma DecimalDigits(n: nat)
    ensures var d := Decimal(n);
            d != [] && (|d| > 1 ==> d[0] != 0x30)
            && (forall i :: 0 <= i < |d| ==> IsDigit(d[i]))
            && AllDigits(d, 10) && ValueOf(d, 10) == n
  {
    NumeralValue(n, 10);
  }

  lemma Untrimmed(t: Text)
    requires t != [] && !Whitespace(t[0]) && !Whitespace(t[|t| - 1])
    ensures TrimStart(TrimEnd(t)) == t
  {
  }

  /** `BigInt(n.toString()) === n` for every n, negative included. */
  lemma BigIntOfDecimal(n: int)
    ensures BigIntOf(SignedDecimal(n)) == Some(n)
  {
    var m: nat := if n < 0 then -n else n;
    var d := Decimal(m);
    DecimalDigits(m);
    Untrimmed(SignedDecimal(n));
    assert Digits(d, 10) == Some(m);
    if n < 0 {
      assert SignedDecimal(n)[1..] == d;
      assert BigIntOf(SignedDecimal(n)) == Negated(Digits(d, 10));
    } else {
      assert IsDigit(d[0]) && (|d| > 1 ==> IsDigit(d[1]));
      assert BigIntOf(SignedDecimal(n)) == Digits(d, 10);
    }
  }

  /** `BigInt(numberToHex(n)) === n`. */
  lemma BigIntOfHexadecimal(n: nat)
    ensures BigIntOf(Hexadecimal(n)) == Some(n)
  {
    var t, d := Hexadecimal(n), Numeral(n, 16);
    NumeralValue(n, 16);
    assert t[|t| - 1] == d[|d| - 1];
    assert TrimEnd(t) == t && TrimStart(t) == t;
    assert t[2..] == d;
  }
}
