// TextEncoder and TextDecoder: UTF-8 as section 3 of RFC 3629 defines it.
module Utf8 {
  import opened Outcomes
  import opened Utf16

  type Byte = b: int | 0 <= b < 0x100

  const REPLACEMENT: CodeUnit := 0xFFFD

  function Continuation(n: nat): (b: Byte)
    ensures 0x80 <= b < 0xC0
  {
    0x80 + n % 64
  }

  /** One code point below 0x110000. */
  function EncodePoint(p: nat): (bytes: seq<Byte>)
    requires p < 0x11_0000
    ensures bytes != []
  {
    if p < 0x80 then [p]
    else if p < 0x800 then [0xC0 + p / 64, Continuation(p)]
    else if p < 0x1_0000 then [0xE0 + p / 64 / 64, Continuation(p / 64), Continuation(p)]
    else [0xF0 + p / 64 / 64 / 64, Continuation(p / 64 / 64), Continuation(p / 64), Continuation(p)]
  }

  predicate StartsWithPair(t: Text) {
    |t| > 1 && HighSurrogate(t[0]) && LowSurrogate(t[1])
  }

  function PairPoint(high: CodeUnit, low: CodeUnit): (p: nat)
    requires HighSurrogate(high) && LowSurrogate(low)
    ensures 0x1_0000 <= p < 0x11_0000
  {
    0x1_0000 + (high - 0xD800) * 0x400 + (low - 0xDC00)
  }

  /** `new TextEncoder().encode`: a lone surrogate becomes the replacement character. */
  function Encode(t: Text): (bytes: seq<Byte>) {
    if t == [] then []
    else if StartsWithPair(t) then EncodePoint(PairPoint(t[0], t[1])) + Encode(t[2..])
    else EncodePoint(if Surrogate(t[0]) then REPLACEMENT else t[0]) + Encode(t[1..])
  }

  /** The text the encoder really encodes: lone surrogates replaced. */
  function Scrubbed(t: Text): (r: Text)
    ensures |r| == |t|
  {
    if t == [] then []
    else if StartsWithPair(t) then t[..2] + Scrubbed(t[2..])
    else [if Surrogate(t[0]) then REPLACEMENT else t[0]] + Scrubbed(t[1..])
  }

  predicate IsContinuation(b: Byte) {
    0x80 <= b < 0xC0
  }

  function Append(p: nat, b: Byte): (q: nat)
    requires IsContinuation(b)
  {
    p * 64 + (b - 0x80)
  }

  /** The code point at the front of the bytes and how many bytes it takes. Overlong forms fail. */
  function DecodePoint(bytes: seq<Byte>): (r: Option<(nat, nat)>)
    ensures r.Some? ==> r.value.0 < 0x11_0000 && 0 < r.value.1 <= |bytes|
  {
    if bytes == [] then None
    else
      var a := bytes[0];
      if a < 0x80 then Some((a, 1))
      else if 0xC0 <= a < 0xE0 && |bytes| > 1 && IsContinuation(bytes[1]) then
        var p := Append(a - 0xC0, bytes[1]);
        if p >= 0x80 then Some((p, 2)) else None
      else if 0xE0 <= a < 0xF0 && |bytes| > 2 && IsContinuation(bytes[1]) && IsContinuation(bytes[2]) then
        var p := Append(Append(a - 0xE0, bytes[1]), bytes[2]);
        if p >= 0x800 && !Surrogate(p) then Some((p, 3)) else None
      else if 0xF0 <= a < 0xF8 && |bytes| > 3
        && IsContinuation(bytes[1]) && IsContinuation(bytes[2]) && IsContinuation(bytes[3]) then
        var p := Append(Append(Append(a - 0xF0, bytes[1]), bytes[2]), bytes[3]);
        if 0x1_0000 <= p < 0x11_0000 then Some((p, 4)) else None
      else None
  }

  function PointText(p: nat): (t: Text)
    requires p < 0x11_0000
  {
    if p < 0x1_0000 then [p] else [0xD800 + (p - 0x1_0000) / 0x400, 0xDC00 + (p - 0x1_0000) % 0x400]
  }

  /** `new TextDecoder().decode`, or none where it would have to substitute something. */
  function Decode(bytes: seq<Byte>): (r: Option<Text>)
    decreases |bytes|
  {
    if bytes == [] then Some([])
    else
      var (p, k) :- DecodePoint(bytes);
      var rest :- Decode(bytes[k..]);
      Some(PointText(p) + rest)
  }

  lemma PointDecodes(p: nat, rest: seq<Byte>)
    requires p < 0x11_0000 && !(p < 0x1_0000 && Surrogate(p))
    ensures DecodePoint(EncodePoint(p) + rest) == Some((p, |EncodePoint(p)|))
    ensures (EncodePoint(p) + rest)[|EncodePoint(p)|..] == rest
  {
    var q := p / 64;
    var r := q / 64;
    assert p == q * 64 + p % 64 && q == r * 64 + q % 64 && r == r / 64 * 64 + r % 64;
  }

  lemma PairText(high: CodeUnit, low: CodeUnit)
    requires HighSurrogate(high) && LowSurrogate(low)
    ensures PointText(PairPoint(high, low)) == [high, low]
  {
  }

  lemma {:induction false} EncodeDecodes(t: Text)
    ensures Decode(Encode(t)) == Some(Scrubbed(t))
  {
    if t == [] {
    } else if StartsWithPair(t) {
      EncodeDecodes(t[2..]);
      PairText(t[0], t[1]);
      PointDecodes(PairPoint(t[0], t[1]), Encode(t[2..]));
      assert t[..2] == [t[0], t[1]];
    } else {
      EncodeDecodes(t[1..]);
      var u: CodeUnit := if Surrogate(t[0]) then REPLACEMENT else t[0];
      PointDecodes(u, Encode(t[1..]));
      assert PointText(u) == [u];
    }
  }

  lemma {:induction false} ScrubbedFixed(t: Text)
    ensures Scrubbed(t) == t <==> WellFormed(t)
  {
    if t == [] {
    } else if StartsWithPair(t) {
      ScrubbedFixed(t[2..]);
      assert t == t[..2] + t[2..];
      assert Scrubbed(t)[2..] == Scrubbed(t[2..]);
    } else {
      ScrubbedFixed(t[1..]);
      assert t == [t[0]] + t[1..];
      assert Scrubbed(t)[1..] == Scrubbed(t[1..]);
      assert Surrogate(t[0]) ==> Scrubbed(t)[0] != t[0];
    }
  }

  /** Bytes give the text back exactly when every surrogate in it is paired. */
  lemma EncodeInverts(t: Text)
    ensures Decode(Encode(t)) == Some(t) <==> WellFormed(t)
  {
    EncodeDecodes(t);
    ScrubbedFixed(t);
  }
}

// Canonical text never holds a lone surrogate, so its bytes determine it.
module CanonicalBytes {
  import opened Outcomes
  import opened Utf16
  import opened Numerals
  import opened Json
  import Utf8

  lemma {:induction false} EscapedWellFormed(s: Text)
    ensures WellFormed(Escaped(s))
  {
    if s == [] {
    } else if HighSurrogate(s[0]) && |s| > 1 && LowSurrogate(s[1]) {
      EscapedWellFormed(s[2..]);
      assert (s[..2] + Escaped(s[2..]))[2..] == Escaped(s[2..]);
    } else {
      EscapedWellFormed(s[1..]);
      PlainIsWellFormed(EscapeUnit(s[0]));
      WellFormedConcat(EscapeUnit(s[0]), Escaped(s[1..]));
    }
  }

  lemma QuoteWellFormed(s: Text)
    ensures WellFormed(Quote(s))
  {
    EscapedWellFormed(s);
    Enclose(QUOTE, Escaped(s), QUOTE);
  }

  lemma Enclose(open: CodeUnit, body: Text, close: CodeUnit)
    requires WellFormed(body) && !Surrogate(open) && !Surrogate(close)
    ensures WellFormed([open] + body + [close])
  {
    PlainIsWellFormed([open]);
    PlainIsWellFormed([close]);
    WellFormedConcat([open], body);
    WellFormedConcat([open] + body, [close]);
  }

  lemma Separate(a: Text, mark: CodeUnit, b: Text)
    requires WellFormed(a) && WellFormed(b) && !Surrogate(mark)
    ensures WellFormed(a + [mark] + b)
  {
    PlainIsWellFormed([mark]);
    WellFormedConcat(a, [mark]);
    WellFormedConcat(a + [mark], b);
  }

  lemma SignedWellFormed(n: int)
    ensures WellFormed(SignedDecimal(n))
  {
    var m: nat := if n < 0 then -n else n;
    DecimalDigits(m);
    PlainIsWellFormed(SignedDecimal(n));
  }

  lemma {:induction false} CanonicalWellFormed(v: Value)
    requires Canonicalize(v).Some?
    ensures WellFormed(Canonicalize(v).value)
    decreases v
  {
    match v
    case Null => PlainIsWellFormed(NULL);
    case Bool(b) => PlainIsWellFormed(if b then TRUE else FALSE);
    case Num(n) => SignedWellFormed(n);
    case Str(s) => QuoteWellFormed(s);
    case Arr(items) =>
      ItemsWellFormed(items);
      Enclose(LBRACKET, PrintItems(items).value, RBRACKET);
    case Obj(ms) =>
      MembersWellFormed(v, Ordered(ms));
      Enclose(LBRACE, PrintMembers(v, Ordered(ms)).value, RBRACE);
  }

  lemma {:induction false} ItemsWellFormed(items: seq<Value>)
    requires PrintItems(items).Some?
    ensures WellFormed(PrintItems(items).value)
    decreases items
  {
    if items != [] {
      if items[0].Undefined? {
        PlainIsWellFormed(NULL);
      } else {
        CanonicalWellFormed(items[0]);
      }
      ItemsWellFormed(items[1..]);
      Separate(if items[0].Undefined? then NULL else Canonicalize(items[0]).value, COMMA, PrintItems(items[1..]).value);
    }
  }

  lemma {:induction false} MembersWellFormed(owner: Value, ms: seq<Member>)
    requires forall m | m in ms :: m.value < owner
    requires PrintMembers(owner, ms).Some?
    ensures WellFormed(PrintMembers(owner, ms).value)
    decreases owner, |ms|
  {
    if ms != [] {
      assert ms[0] in ms;
      CanonicalWellFormed(ms[0].value);
      QuoteWellFormed(ms[0].key);
      Separate(Quote(ms[0].key), COLON, Canonicalize(ms[0].value).value);
      MembersWellFormed(owner, ms[1..]);
      Separate(Quote(ms[0].key) + [COLON] + Canonicalize(ms[0].value).value, COMMA, PrintMembers(owner, ms[1..]).value);
    }
  }

  /** Decoding the bytes of canonical text gives that text. */
  lemma BytesInvert(v: Value)
    requires Canonicalize(v).Some?
    ensures Utf8.Decode(Utf8.Encode(Canonicalize(v).value)) == Some(Canonicalize(v).value)
  {
    CanonicalWellFormed(v);
    Utf8.EncodeInverts(Canonicalize(v).value);
  }
}
