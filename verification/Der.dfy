// ECDSA signatures: IEEE P1363 (r and s, 32 bytes each) to DER and back.
module Der {
  import opened Outcomes
  import opened Utf8

  type Bytes = seq<Byte>

  /** How many leading zero bytes `derInteger` skips: never the last byte. */
  function Leading(bytes: Bytes): (k: nat)
    ensures k <= |bytes| && (bytes != [] ==> k < |bytes|)
    ensures forall i :: 0 <= i < k ==> bytes[i] == 0
    ensures k + 1 < |bytes| ==> bytes[k] != 0
  {
    if |bytes| > 1 && bytes[0] == 0 then 1 + Leading(bytes[1..]) else 0
  }

  lemma {:induction false} LeadingIs(bytes: Bytes, k: nat)
    requires if bytes == [] then k == 0 else k < |bytes|
    requires forall i :: 0 <= i < k ==> bytes[i] == 0
    requires k + 1 < |bytes| ==> bytes[k] != 0
    ensures Leading(bytes) == k
  {
    if k > 0 {
      LeadingIs(bytes[1..], k - 1);
    }
  }

  function ZeroBytes(k: nat): (z: Bytes)
    ensures |z| == k && forall i :: 0 <= i < k ==> z[i] == 0
  {
    seq(k, i => 0)
  }

  /** The content of the shortest non-negative INTEGER: section 8.3 of ITU-T X.690. */
  function Content(bytes: Bytes): (value: Bytes)
  {
    var value := bytes[Leading(bytes)..];
    if value != [] && value[0] >= 0x80 then [0] + value else value
  }

  function Integer(bytes: Bytes): (der: seq<int>) {
    [0x02, |Content(bytes)|] + Content(bytes)
  }

  /** `derInteger`. */
  method DerInteger(bytes: Bytes) returns (der: seq<int>)
    ensures der == Integer(bytes)
  {
    var start := 0;
    while start < |bytes| - 1 && bytes[start] == 0
      invariant 0 <= start <= |bytes| && (bytes != [] ==> start < |bytes|)
      invariant forall i :: 0 <= i < start ==> bytes[i] == 0
    {
      start := start + 1;
    }
    LeadingIs(bytes, start);
    var value := bytes[start..];
    if value != [] && value[0] >= 0x80 {
      value := [0] + value;
    }
    der := [0x02, |value|] + value;
  }

  /** `p1363ToDer`: refuses anything but 64 bytes. */
  method P1363ToDer(signature: Bytes) returns (der: Option<seq<int>>)
    ensures der.Some? <==> |signature| == 64
    ensures der.Some? ==> der.value == Sequence(signature)
  {
    if |signature| != 64 {
      return None;
    }
    var r := DerInteger(signature[..32]);
    var s := DerInteger(signature[32..]);
    return Some(Assemble(r, s));
  }

  /** The ECDSA-Sig-Value of section 2.2.3 of RFC 3279, for a 64-byte signature. */
  function Sequence(signature: Bytes): (der: seq<int>)
    requires |signature| == 64
  {
    Assemble(Integer(signature[..32]), Integer(signature[32..]))
  }

  function Assemble(r: seq<int>, s: seq<int>): (der: seq<int>) {
    [0x30, |r| + |s|] + r + s
  }

  predicate Octets(s: seq<int>) {
    forall i :: 0 <= i < |s| ==> 0 <= s[i] < 0x100
  }

  // ---- A strict decoder, written from the standard and not from the encoder ---------------------

  /**
   * An INTEGER at the front: tag, one length byte, content. The content is not empty, not negative
   * and not longer than it need be. Returns the content and what follows it.
   */
  function ReadInteger(der: seq<int>): (r: Option<(seq<int>, seq<int>)>) {
    if |der| < 2 || der[0] != 0x02 || !(0 < der[1] < 0x80) || |der| < 2 + der[1] then None
    else
      var content := der[2..2 + der[1]];
      if !Octets(content) then None
      else if content[0] >= 0x80 then None
      else if |content| > 1 && content[0] == 0 && content[1] < 0x80 then None
      else Some((content, der[2 + der[1]..]))
  }

  /** The 32-byte big-endian form of a content no larger than that. */
  function Widen(content: seq<int>): (bytes: Option<seq<int>>)
    requires content != []
    ensures bytes.Some? ==> |bytes.value| == 32
  {
    var magnitude := if content[0] == 0 then content[1..] else content;
    if |magnitude| > 32 then None else Some(ZeroBytes(32 - |magnitude|) + magnitude)
  }

  /** A whole signature: one SEQUENCE of exactly two INTEGERs, with nothing before, between or after. */
  function Decode(der: seq<int>): (signature: Option<seq<int>>) {
    if |der| < 2 || der[0] != 0x30 || !(0 <= der[1] < 0x80) || |der| != 2 + der[1] then None
    else
      var (r, afterR) :- ReadInteger(der[2..]);
      var (s, afterS) :- ReadInteger(afterR);
      var wideR :- Widen(r);
      var wideS :- Widen(s);
      if afterS == [] then Some(wideR + wideS) else None
  }

  lemma ContentShape(bytes: Bytes)
    requires |bytes| == 32
    ensures var c := Content(bytes);
            && 1 <= |c| <= 33 && c[0] < 0x80
            && (|c| > 1 && c[0] == 0 ==> c[1] >= 0x80)
  {
  }

  lemma ContentWidens(bytes: Bytes)
    requires |bytes| == 32
    ensures Widen(Content(bytes)) == Some(bytes)
  {
    var k := Leading(bytes);
    var c := Content(bytes);
    assert k < 32 && bytes[k..][0] == bytes[k];
    if bytes[k] > 0 {
      assert c == if bytes[k] >= 0x80 then [0] + bytes[k..] else bytes[k..];
      assert (if c[0] == 0 then c[1..] else c) == bytes[k..];
      assert ZeroBytes(k) + bytes[k..] == bytes;
    } else {
      assert k == 31 && c == [0];
      assert ZeroBytes(32) == bytes;
      assert ZeroBytes(32) + c[1..] == bytes;
    }
  }

  lemma IntegerReads(bytes: Bytes, rest: seq<int>)
    requires |bytes| == 32
    ensures ReadInteger(Integer(bytes) + rest) == Some((Content(bytes), rest))
    ensures 3 <= |Integer(bytes)| <= 35
    ensures Octets(Integer(bytes))
  {
    ContentShape(bytes);
    var c := Content(bytes);
    var der := Integer(bytes) + rest;
    assert der[2..2 + |c|] == c && der[2 + |c|..] == rest;
  }

  /** What decoding does, from what it reads in each part. */
  lemma DecodeStep(body: seq<int>, r: seq<int>, afterR: seq<int>, s: seq<int>, wideR: seq<int>, wideS: seq<int>)
    requires |body| < 0x80
    requires ReadInteger(body) == Some((r, afterR)) && ReadInteger(afterR) == Some((s, []))
    requires Widen(r) == Some(wideR) && Widen(s) == Some(wideS)
    ensures Decode([0x30, |body|] + body) == Some(wideR + wideS)
  {
    assert ([0x30, |body|] + body)[2..] == body;
  }

  /**
   * Every 64-byte signature converts to DER that a strict decoder accepts and turns back into
   * those 64 bytes. The result is 8 to 72 bytes, each a byte.
   */
  lemma DerRoundTrip(signature: Bytes)
    requires |signature| == 64
    ensures Decode(Sequence(signature)) == Some(signature)
    ensures 8 <= |Sequence(signature)| <= 72
    ensures Octets(Sequence(signature))
  {
    var a, b := signature[..32], signature[32..];
    assert a + b == signature;
    IntegerReads(a, []);
    IntegerReads(b, []);
    HalvesDecode(a, b);
    SequenceOf(Integer(a), Integer(b));
  }

  lemma SequenceOf(r: seq<int>, s: seq<int>)
    requires |r| + |s| < 0x100
    requires Octets(r) && Octets(s)
    ensures Assemble(r, s) == [0x30, |r + s|] + (r + s)
    ensures Octets(Assemble(r, s))
  {
  }

  lemma HalvesDecode(a: Bytes, b: Bytes)
    requires |a| == 32 && |b| == 32
    ensures var body := Integer(a) + Integer(b); Decode([0x30, |body|] + body) == Some(a + b)
  {
    IntegerReads(a, Integer(b));
    IntegerReads(b, []);
    ContentWidens(a);
    ContentWidens(b);
    assert Integer(b) + [] == Integer(b);
    DecodeStep(Integer(a) + Integer(b), Content(a), Integer(b), Content(b), a, b);
  }

  /** Distinct signatures have distinct encodings. */
  lemma DerInjective(a: Bytes, b: Bytes)
    requires |a| == 64 && |b| == 64 && Sequence(a) == Sequence(b)
    ensures a == b
  {
    DerRoundTrip(a);
    DerRoundTrip(b);
  }

  /** A strict content is the one content of the number it stands for. */
  lemma WidenedContent(content: seq<int>, bytes: Bytes)
    requires content != [] && content[0] < 0x80 && (|content| > 1 && content[0] == 0 ==> content[1] >= 0x80)
    requires Octets(content)
    requires Widen(content) == Some(bytes)
    ensures Content(bytes) == content
  {
    var magnitude := if content[0] == 0 then content[1..] else content;
    var k := 32 - |magnitude|;
    assert bytes == ZeroBytes(k) + magnitude;
    if magnitude == [] {
      LeadingIs(bytes, 31);
      assert bytes[31..] == [0];
    } else {
      assert bytes[k..] == magnitude;
      LeadingIs(bytes, k);
    }
  }

  lemma ReadShape(der: seq<int>, content: seq<int>, rest: seq<int>)
    requires ReadInteger(der) == Some((content, rest))
    ensures der == [0x02, |content|] + content + rest
    ensures content != [] && content[0] < 0x80 && (|content| > 1 && content[0] == 0 ==> content[1] >= 0x80)
    ensures Octets(content)
  {
    assert der == der[..2] + der[2..2 + der[1]] + der[2 + der[1]..];
  }

  lemma IntegerRebuilt(der: seq<int>, content: seq<int>, rest: seq<int>, bytes: Bytes)
    requires content != [] && ReadInteger(der) == Some((content, rest)) && Widen(content) == Some(bytes)
    ensures der == Integer(bytes) + rest
  {
    ReadShape(der, content, rest);
    WidenedContent(content, bytes);
  }

  /** The encoding is unique: whatever the strict decoder accepts is what the encoder writes. */
  lemma DecodeAcceptsOnlySequences(der: seq<int>, signature: Bytes)
    requires Decode(der) == Some(signature)
    ensures |signature| == 64 && der == Sequence(signature)
  {
    var r, s, afterR, a, b := DecodeParts(der, signature);
    IntegerRebuilt(der[2..], r, afterR, a);
    IntegerRebuilt(afterR, s, [], b);
    Reassemble(der, Integer(a), Integer(b), afterR);
  }

  lemma DecodeParts(der: seq<int>, signature: Bytes)
    returns (r: seq<int>, s: seq<int>, afterR: seq<int>, a: Bytes, b: Bytes)
    requires Decode(der) == Some(signature)
    ensures |der| >= 2 && der[0] == 0x30 && |der| == 2 + der[1] && |signature| == 64
    ensures ReadInteger(der[2..]) == Some((r, afterR)) && ReadInteger(afterR) == Some((s, []))
    ensures a == signature[..32] && b == signature[32..]
    ensures r != [] && s != [] && Widen(r) == Some(a) && Widen(s) == Some(b)
  {
    r, afterR := ReadInteger(der[2..]).value.0, ReadInteger(der[2..]).value.1;
    s := ReadInteger(afterR).value.0;
    HalvesOf(Widen(r).value, Widen(s).value, signature);
    a, b := signature[..32], signature[32..];
  }

  lemma Reassemble(der: seq<int>, r: seq<int>, s: seq<int>, afterR: seq<int>)
    requires |der| >= 2 && der[0] == 0x30 && |der| == 2 + der[1]
    requires der[2..] == r + afterR && afterR == s + []
    ensures der == Assemble(r, s)
  {
    assert der == [0x30, der[1]] + der[2..];
  }

  lemma HalvesOf(r: seq<int>, s: seq<int>, whole: seq<int>)
    requires |r| == 32 && |s| == 32 && whole == r + s
    ensures |whole| == 64 && whole[..32] == r && whole[32..] == s
  {
  }
}
