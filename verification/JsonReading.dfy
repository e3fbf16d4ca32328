// What the parser takes for a string, a number, space and a repeated key: sections 2, 6 and 7 of RFC 8259.
module JsonReading {
  import opened Outcomes
  import opened Utf16
  import opened Numerals
  import opened Json

  // ---- Space -------------------------------------------------------------------------------------------

  predicate JsonSpace(u: CodeUnit) {
    u in {0x09, 0x0A, 0x0D, 0x20}
  }

  /** Exactly the four kinds of space are skipped. */
  lemma {:induction false} SpaceSkipped(space: Text, t: Text)
    requires forall i :: 0 <= i < |space| ==> JsonSpace(space[i])
    requires t != [] ==> !JsonSpace(t[0])
    ensures SkipSpace(space + t) == t
  {
    if space == [] {
      assert space + t == t;
    } else {
      assert (space + t)[1..] == space[1..] + t;
      SpaceSkipped(space[1..], t);
    }
  }

  // ---- Strings -----------------------------------------------------------------------------------------

  /** The unit after a backslash and what it stands for. */
  predicate Escapes(c: CodeUnit, u: CodeUnit) {
    || (c == '"' as int && u == 0x22) || (c == '\\' as int && u == 0x5C) || (c == '/' as int && u == 0x2F)
    || (c == 'b' as int && u == 8) || (c == 't' as int && u == 9) || (c == 'n' as int && u == 10)
    || (c == 'f' as int && u == 12) || (c == 'r' as int && u == 13)
  }

  /** Between its quotes, t spells s: each unit as itself, by its short escape, or by four hexadecimal digits. */
  predicate Spells(t: Text, s: Text)
    decreases |s|
  {
    if s == [] then t == []
    else
      || (t != [] && t[0] == s[0] && s[0] >= 0x20 && s[0] != '"' as int && s[0] != '\\' as int && Spells(t[1..], s[1..]))
      || (|t| > 1 && t[0] == '\\' as int && Escapes(t[1], s[0]) && Spells(t[2..], s[1..]))
      || (|t| > 5 && t[0] == '\\' as int && t[1] == 'u' as int && Writes(t[2..6], 16, s[0]) && Spells(t[6..], s[1..]))
  }

  lemma UnescapeIs(c: CodeUnit, u: CodeUnit)
    ensures Unescape(c) == Some(u) <==> Escapes(c, u)
  {
  }

  lemma HexIs(t: Text, rest: Text, u: CodeUnit)
    requires |t| == 4
    ensures ParseHex4(t + rest) == Some(u) <==> Writes(t, 16, u)
  {
    var r := t + rest;
    assert r[0] == t[0] && r[1] == t[1] && r[2] == t[2] && r[3] == t[3];
    if AllDigits(t, 16) {
      FourValues(t);
    } else {
      var i :| 0 <= i < 4 && (DigitValue(t[i]).None? || DigitValue(t[i]).value >= 16);
      assert i == 0 || i == 1 || i == 2 || i == 3;
    }
  }

  lemma FourValues(t: Text)
    requires |t| == 4 && AllDigits(t, 16)
    ensures ValueOf(t, 16) == ((DigitValue(t[0]).value * 16 + DigitValue(t[1]).value) * 16 + DigitValue(t[2]).value) * 16
                              + DigitValue(t[3]).value
  {
    assert t[..3][..2] == t[..2] && t[..2][..1] == t[..1] && t[..1][..0] == [];
    assert ValueOf(t[..1], 16) == DigitValue(t[0]).value;
    assert ValueOf(t[..2], 16) == ValueOf(t[..1], 16) * 16 + DigitValue(t[1]).value;
    assert ValueOf(t[..3], 16) == ValueOf(t[..2], 16) * 16 + DigitValue(t[2]).value;
  }

  lemma {:induction false} SpelledReads(t: Text, s: Text, rest: Text)
    requires Spells(t, s)
    ensures ParseChars(t + [QUOTE] + rest) == Some((s, rest))
    decreases |s|
  {
    hide Writes, ParseHex4, Unescape, Escapes;
    var whole := t + [QUOTE] + rest;
    if s == [] {
      assert whole[1..] == rest;
    } else if |t| > 5 && t[0] == BACKSLASH && t[1] == 0x75 && Writes(t[2..6], 16, s[0]) && Spells(t[6..], s[1..]) {
      assert whole[2..] == t[2..6] + (t[6..] + [QUOTE] + rest) && whole[6..] == t[6..] + [QUOTE] + rest;
      HexIs(t[2..6], t[6..] + [QUOTE] + rest, s[0]);
      SpelledReads(t[6..], s[1..], rest);
      assert s == [s[0]] + s[1..];
    } else if |t| > 1 && t[0] == BACKSLASH && Escapes(t[1], s[0]) && Spells(t[2..], s[1..]) {
      assert whole[2..] == t[2..] + [QUOTE] + rest;
      UnescapeIs(t[1], s[0]);
      NoHexEscape(s[0]);
      SpelledReads(t[2..], s[1..], rest);
      assert s == [s[0]] + s[1..];
    } else {
      assert whole[1..] == t[1..] + [QUOTE] + rest;
      SpelledReads(t[1..], s[1..], rest);
      assert s == [s[0]] + s[1..];
    }
  }

  lemma NoHexEscape(u: CodeUnit)
    ensures !Escapes(0x75, u)
  {
  }

  lemma SpellsMore(start: Text, u: CodeUnit, t: Text, s: Text)
    requires Spells(t, s)
    requires || (start == [u] && u >= 0x20 && u != QUOTE && u != BACKSLASH)
             || (|start| == 2 && start[0] == BACKSLASH && Escapes(start[1], u))
             || (|start| == 6 && start[0] == BACKSLASH && start[1] == 0x75 && Writes(start[2..6], 16, u))
    ensures Spells(start + t, [u] + s)
  {
    hide Escapes, Writes;
    var whole := start + t;
    assert ([u] + s)[1..] == s && whole[|start|..] == t;
    if |start| == 6 { assert whole[2..6] == start[2..6]; }
  }

  lemma {:induction false} ReadSpells(t: Text) returns (body: Text)
    requires ParseChars(t).Some?
    ensures Spells(body, ParseChars(t).value.0) && t == body + [QUOTE] + ParseChars(t).value.1
    decreases |t|
  {
    hide Writes, ParseHex4, Unescape, Escapes, Spells;
    var s, rest := ParseChars(t).value.0, ParseChars(t).value.1;
    if t[0] == QUOTE {
      body := [];
      NothingSpelled();
      assert t == [QUOTE] + t[1..];
    } else {
      var k := if t[0] != BACKSLASH then 1 else if t[1] == 0x75 then 6 else 2;
      assert k == 6 ==> |t[2..]| >= 4;
      var start, more := t[..k], t[k..];
      body := ReadSpells(more);
      if k == 6 {
        assert t[2..] == t[2..6] + more;
        HexIs(t[2..6], more, s[0]);
        assert start[2..6] == t[2..6];
      } else if k == 2 {
        UnescapeIs(t[1], s[0]);
      }
      SpellsMore(start, s[0], body, ParseChars(more).value.0);
      Together(t, k, body, rest);
      body := start + body;
    }
  }

  lemma NothingSpelled()
    ensures Spells([], [])
  {
  }

  lemma Together(t: Text, k: nat, body: Text, rest: Text)
    requires k <= |t| && t[k..] == body + [QUOTE] + rest
    ensures t == (t[..k] + body) + [QUOTE] + rest
  {
  }

  /** After its opening quote, a string is read as s exactly when the text up to its closing quote spells s. */
  lemma StringExactly(t: Text, s: Text, rest: Text)
    ensures ParseChars(t) == Some((s, rest)) <==> exists body :: t == body + [QUOTE] + rest && Spells(body, s)
  {
    hide Spells, ParseChars;
    forall body | t == body + [QUOTE] + rest && Spells(body, s) { SpelledReads(body, s, rest); }
    if ParseChars(t) == Some((s, rest)) { var body := ReadSpells(t); }
  }

  // ---- Repeated keys ------------------------------------------------------------------------------------

  /** A repeated key takes the later value, and every other key keeps its own. */
  lemma {:induction false} PutLast(ms: seq<Member>, m: Member, key: Text)
    ensures Lookup(Put(ms, m), key) == if key == m.key then m.value else Lookup(ms, key)
    ensures |Put(ms, m)| == if exists x :: x in ms && x.key == m.key then |ms| else |ms| + 1
  {
    if ms != [] {
      PutLast(ms[1..], m, key);
      assert ms == [ms[0]] + ms[1..];
    }
  }
}
