// Texts and bytes that the tests of the repository, or the standards, give in full.
module Vectors {
  import opened Outcomes
  import opened Utf16
  import opened Numerals
  import opened Json
  import Der
  import Utf8

  /** UTF-8 of one, two, three and four bytes, and of a lone surrogate. */
  lemma Utf8Vectors()
    ensures Utf8.Encode([0x41]) == [0x41] && Utf8.Encode([0xE9]) == [0xC3, 0xA9]
    ensures Utf8.Encode([0x20AC]) == [0xE2, 0x82, 0xAC] && Utf8.Encode([0xD800]) == [0xEF, 0xBF, 0xBD]
    ensures Utf8.Encode([0xD83D, 0xDE00]) == [0xF0, 0x9F, 0x98, 0x80]
  {
    OneUnit(0x41);
    OneUnit(0xE9);
    OneUnit(0x20AC);
    OneUnit(0xD800);
    hide Utf8.Continuation;
    assert Utf8.PairPoint(0xD83D, 0xDE00) == 0x1F600;
    FourBytes();
  }

  lemma OneUnit(u: CodeUnit)
    ensures Utf8.Encode([u]) == Utf8.EncodePoint(if Surrogate(u) then 0xFFFD else u)
  {
    hide Utf8.EncodePoint;
    assert [u][1..] == [];
  }

  lemma FourBytes()
    ensures Utf8.EncodePoint(0x1F600) == [0xF0, 0x9F, 0x98, 0x80]
    ensures Utf8.Encode([0xD83D, 0xDE00]) == Utf8.EncodePoint(Utf8.PairPoint(0xD83D, 0xDE00))
  {
    assert [0xD83D, 0xDE00][2..] == [];
  }

  lemma SmallContent(r: Der.Bytes)
    requires |r| == 32 && r[31] == 1 && forall i :: 0 <= i < 31 ==> r[i] == 0
    ensures Der.Integer(r) == [0x02, 0x01, 0x01]
  {
    Der.LeadingIs(r, 31);
    assert r[31..] == [1];
  }

  lemma HighContent(s: Der.Bytes)
    requires |s| == 32 && s[0] == 0x80
    ensures Der.Integer(s) == [0x02, 0x21, 0x00] + s
  {
    Der.LeadingIs(s, 0);
    assert s[0..] == s;
  }

  lemma Assembled(s: Der.Bytes)
    requires |s| == 32
    ensures Der.Assemble([0x02, 0x01, 0x01], [0x02, 0x21, 0x00] + s)
         == [0x30, 0x26, 0x02, 0x01, 0x01, 0x02, 0x21, 0x00] + s
  {
  }

  /** A signature with r = 1 and a high s: leading zeros go, and the high bit is padded. */
  lemma DerVector(r: Der.Bytes, s: Der.Bytes)
    requires |r| == 32 && r[31] == 1 && forall i :: 0 <= i < 31 ==> r[i] == 0
    requires |s| == 32 && s[0] == 0x80
    ensures Der.Sequence(r + s) == [0x30, 0x26, 0x02, 0x01, 0x01, 0x02, 0x21, 0x00] + s
  {
    hide Der.Integer, Der.Assemble;
    assert (r + s)[..32] == r && (r + s)[32..] == s;
    SmallContent(r);
    HighContent(s);
    Assembled(s);
  }
}
