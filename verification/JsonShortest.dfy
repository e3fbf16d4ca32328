// Canonical text is the shortest text of its value: no spelling a parser reads alike takes fewer units.
module JsonShortest {
  import opened Outcomes
  import opened Utf16
  import opened Numerals
  import opened Json
  import opened JsonLaws
  import opened JsonMeaning
  import JsonGrammar

  // ---- The least number of units a value can be spelled in -----------------------------------------

  /** A quotation mark and a backslash take two units, a control character two or six, any other unit one. */
  function UnitCost(u: CodeUnit): (k: nat)
    ensures 1 <= k <= 6
  {
    if u == 0x22 || u == 0x5C || u == 0x08 || u == 0x09 || u == 0x0A || u == 0x0C || u == 0x0D then 2
    else if u < 0x20 then 6
    else 1
  }

  function TextCost(s: Text): (k: nat) {
    if s == [] then 0 else UnitCost(s[0]) + TextCost(s[1..])
  }

  function NumberCost(n: int): (k: nat) {
    if n < 0 then 1 + DigitCount(-n) else DigitCount(n)
  }

  function DigitCount(n: nat): (k: nat)
    ensures k > 0
  {
    if n < 10 then 1 else 1 + DigitCount(n / 10)
  }

  function Cost(v: Value): (k: nat)
    decreases v
  {
    match v
    case Null => 4
    case Bool(b) => if b then 4 else 5
    case Num(n) => NumberCost(n)
    case Str(s) => 2 + TextCost(s)
    case Arr(items) => if items == [] then 2 else 1 + ItemsCost(items)
    case Obj(ms) => if MembersCost(ms) == 0 then 2 else 1 + MembersCost(ms)
    case _ => 0
  }

  /** Each item with the comma or bracket after it; an undefined item is written as null. */
  function ItemsCost(items: seq<Value>): (k: nat)
    decreases items
  {
    if items == [] then 0 else (if items[0].Undefined? then 4 else Cost(items[0])) + 1 + ItemsCost(items[1..])
  }

  /** Each member with its quotes, colon, and the comma or brace after it; an undefined one is not written. */
  function MembersCost(ms: seq<Member>): (k: nat)
    decreases ms
  {
    if ms == [] then 0 else MemberCost(ms[0]) + MembersCost(ms[1..])
  }

  function MemberCost(m: Member): (k: nat)
    decreases m
  {
    if m.value.Undefined? then 0 else TextCost(m.key) + 4 + Cost(m.value)
  }

  // ---- Nothing the parser reads is shorter -----------------------------------------------------------

  lemma {:induction false} CharsCost(t: Text)
    ensures ParseChars(t).Some? ==> TextCost(ParseChars(t).value.0) + 1 + |ParseChars(t).value.1| <= |t|
    decreases |t|
  {
    if t != [] && t[0] >= 0x20 && t[0] != QUOTE {
      if t[0] != BACKSLASH {
        CharsCost(t[1..]);
        if ParseChars(t).Some? { FirstCost(t[0], ParseChars(t[1..]).value.0); }
      } else if |t| > 1 {
        if t[1] == 0x75 {
          if ParseHex4(t[2..]).Some? {
            CharsCost(t[6..]);
            if ParseChars(t).Some? { FirstCost(ParseHex4(t[2..]).value, ParseChars(t[6..]).value.0); }
          }
        } else {
          CharsCost(t[2..]);
          if ParseChars(t).Some? { FirstCost(Unescape(t[1]).value, ParseChars(t[2..]).value.0); }
        }
      }
    }
  }

  lemma FirstCost(u: CodeUnit, s: Text)
    ensures TextCost([u] + s) == UnitCost(u) + TextCost(s)
  {
    assert ([u] + s)[1..] == s;
  }

  lemma {:induction false} DigitCountIs(n: nat)
    ensures DigitCount(n) == |Decimal(n)|
  {
    if n >= 10 { DigitCountIs(n / 10); }
  }

  lemma NaturalCost(t: Text)
    ensures ParseNatural(t).Some? ==> DigitCount(ParseNatural(t).value.0) + |ParseNatural(t).value.1| == |t|
  {
    if ParseNatural(t).Some? {
      var k := DigitRun(t);
      ValueNumeral(t[..k]);
      DigitCountIs(ValueOf(t[..k], 10));
    }
  }

  lemma NumCost(t: Text)
    ensures ParseNumber(t).Some? ==> Cost(ParseNumber(t).value.0) + |ParseNumber(t).value.1| <= |t|
  {
    var negative := t != [] && t[0] == 0x2D;
    NaturalCost(if negative then t[1..] else t);
  }

  lemma {:induction false} SkipCost(t: Text)
    ensures |SkipSpace(t)| <= |t|
  {
  }

  lemma {:induction false} ItemsAppend(read: seq<Value>, v: Value)
    ensures ItemsCost(read + [v]) == ItemsCost(read) + (if v.Undefined? then 4 else Cost(v)) + 1
  {
    if read == [] {
      assert [] + [v] == [v] && [v][1..] == [];
    } else {
      assert (read + [v])[1..] == read[1..] + [v];
      ItemsAppend(read[1..], v);
    }
  }

  /** A repeated key drops what it replaces. */
  lemma {:induction false} PutCost(ms: seq<Member>, m: Member)
    ensures MembersCost(Put(ms, m)) <= MembersCost(ms) + MemberCost(m)
  {
    if ms == [] {
      assert [m][1..] == [];
    } else if ms[0].key == m.key {
      assert ([m] + ms[1..])[1..] == ms[1..];
    } else {
      PutCost(ms[1..], m);
      assert ([ms[0]] + Put(ms[1..], m))[1..] == Put(ms[1..], m);
    }
  }

  lemma {:induction false} ValueCost(t: Text)
    ensures ParseValue(t).Some? ==>
      !ParseValue(t).value.0.Undefined? && Cost(ParseValue(t).value.0) + |ParseValue(t).value.1| <= |t|
    decreases |t|, 0
  {
    var u := SkipSpace(t);
    if u != [] {
      if u[0] == LBRACE {
        var w := SkipSpace(u[1..]);
        if w == [] || w[0] != RBRACE { MembersReadCost(w, []); }
      } else if u[0] == LBRACKET {
        var w := SkipSpace(u[1..]);
        if w == [] || w[0] != RBRACKET { ItemsReadCost(w, []); }
      } else if u[0] == QUOTE {
        CharsCost(u[1..]);
      } else {
        NumCost(u);
      }
    }
  }

  lemma {:induction false} ItemsReadCost(t: Text, read: seq<Value>)
    ensures ParseItems(t, read).Some? ==>
      && ParseItems(t, read).value.0.Arr?
      && Cost(ParseItems(t, read).value.0) + |ParseItems(t, read).value.1| <= 1 + ItemsCost(read) + |t|
    decreases |t|, 1
  {
    ValueCost(t);
    if ParseValue(t).Some? {
      var (v, rest) := ParseValue(t).value;
      var u := SkipSpace(rest);
      ItemsAppend(read, v);
      if u != [] && u[0] == COMMA { ItemsReadCost(u[1..], read + [v]); }
    }
  }

  lemma {:induction false} MembersReadCost(t: Text, read: seq<Member>)
    ensures ParseMembers(t, read).Some? ==>
      && ParseMembers(t, read).value.0.Obj?
      && Cost(ParseMembers(t, read).value.0) + |ParseMembers(t, read).value.1| <= 1 + MembersCost(read) + |t|
    decreases |t|, 1
  {
    var u := SkipSpace(t);
    if u != [] && u[0] == QUOTE {
      CharsCost(u[1..]);
      if ParseChars(u[1..]).Some? {
        var (key, afterKey) := ParseChars(u[1..]).value;
        var w := SkipSpace(afterKey);
        if w != [] && w[0] == COLON { OneMemberCost(w[1..], key, read, |t|); }
      }
    }
  }

  /** After the colon: `room` is the length of the text the member began in. */
  lemma OneMemberCost(t: Text, key: Text, read: seq<Member>, room: nat)
    requires TextCost(key) + 3 + |t| <= room
    ensures ParseValue(t).Some? ==>
      var (v, rest) := ParseValue(t).value;
      var x := SkipSpace(rest);
      var put := Put(read, Member(key, v));
      && (x != [] && x[0] == RBRACE ==> Cost(Obj(put)) + |x[1..]| <= 1 + MembersCost(read) + room)
      && (x != [] && x[0] == COMMA && ParseMembers(x[1..], put).Some? ==>
            && ParseMembers(x[1..], put).value.0.Obj?
            && Cost(ParseMembers(x[1..], put).value.0) + |ParseMembers(x[1..], put).value.1|
               <= 1 + MembersCost(read) + room)
    decreases |t|, 2
  {
    ValueCost(t);
    if ParseValue(t).Some? {
      var (v, rest) := ParseValue(t).value;
      var x := SkipSpace(rest);
      var m := Member(key, v);
      PutCost(read, m);
      if x != [] && x[0] == COMMA { MembersReadCost(x[1..], Put(read, m)); }
    }
  }

  // ---- What the printer writes ------------------------------------------------------------------------

  /** Strings and keys pair every surrogate, at every depth. */
  ghost predicate PairedText(v: Value) {
    match v
    case Str(s) => WellFormed(s)
    case Arr(items) => forall x | x in items :: PairedText(x)
    case Obj(ms) => forall m | m in ms :: WellFormed(m.key) && PairedText(m.value)
    case _ => true
  }

  lemma {:induction false} EscapedCost(s: Text)
    requires WellFormed(s)
    ensures |Escaped(s)| == TextCost(s)
  {
    if s != [] {
      if HighSurrogate(s[0]) {
        EscapedCost(s[2..]);
        assert TextCost(s) == 1 + TextCost(s[1..]) && TextCost(s[1..]) == 1 + TextCost(s[1..][1..]);
        assert s[1..][1..] == s[2..];
      } else {
        EscapedCost(s[1..]);
      }
    }
  }

  lemma {:induction false} InsertCost(m: Member, ms: seq<Member>)
    ensures MembersCost(Insert(m, ms)) == MemberCost(m) + MembersCost(ms)
  {
    if ms == [] {
      assert [m][1..] == [];
    } else if Before(ms[0].key, m.key) {
      InsertCost(m, ms[1..]);
      assert ([ms[0]] + Insert(m, ms[1..]))[1..] == Insert(m, ms[1..]);
    } else {
      assert ([m] + ms)[1..] == ms;
    }
  }

  lemma {:induction false} SortCost(ms: seq<Member>)
    ensures MembersCost(Sort(ms)) == MembersCost(ms)
  {
    if ms != [] {
      SortCost(ms[1..]);
      InsertCost(ms[0], Sort(ms[1..]));
    }
  }

  lemma {:induction false} PresentCost(ms: seq<Member>)
    ensures MembersCost(Present(ms)) == MembersCost(ms)
  {
    if ms != [] {
      PresentCost(ms[1..]);
      if ms[0].value.Undefined? {
        assert [] + Present(ms[1..]) == Present(ms[1..]);
      } else {
        assert ([ms[0]] + Present(ms[1..]))[1..] == Present(ms[1..]);
      }
    }
  }

  lemma {:induction false} PrintedCost(v: Value)
    requires PairedText(v) && Canonicalize(v).Some?
    ensures |Canonicalize(v).value| == Cost(v)
    decreases v
  {
    match v
    case Num(n) => DigitCountIs(if n < 0 then -n else n);
    case Str(s) => EscapedCost(s);
    case Arr(items) => ItemsPrintedCost(items);
    case Obj(ms) =>
      SortCost(ms);
      PresentCost(Sort(ms));
      MembersPrintedCost(v, Ordered(ms));
    case _ =>
  }

  lemma {:induction false} ItemsPrintedCost(items: seq<Value>)
    requires (forall x | x in items :: PairedText(x)) && PrintItems(items).Some?
    ensures items == [] ==> PrintItems(items).value == []
    ensures items != [] ==> |PrintItems(items).value| + 1 == ItemsCost(items)
    decreases items
  {
    if items != [] {
      assert items[0] in items;
      if !items[0].Undefined? { PrintedCost(items[0]); }
      ItemsPrintedCost(items[1..]);
    }
  }

  lemma {:induction false} MembersPrintedCost(owner: Value, ms: seq<Member>)
    requires forall m | m in ms :: m.value < owner && WellFormed(m.key) && PairedText(m.value) && !m.value.Undefined?
    requires PrintMembers(owner, ms).Some?
    ensures ms == [] ==> PrintMembers(owner, ms).value == []
    ensures ms != [] ==> |PrintMembers(owner, ms).value| + 1 == MembersCost(ms)
    decreases owner, |ms|
  {
    if ms != [] {
      assert ms[0] in ms;
      PrintedCost(ms[0].value);
      EscapedCost(ms[0].key);
      MembersPrintedCost(owner, ms[1..]);
    }
  }

  lemma {:induction false} NormalPaired(v: Value)
    requires PairedText(v)
    ensures PairedText(Normal(v))
    decreases v
  {
    match v
    case Arr(items) =>
      forall i | 0 <= i < |items|
        ensures PairedText(NormalItems(items)[i])
      {
        assert items[i] in items;
        NormalItemsAt(items, i);
        NormalPaired(items[i]);
      }
    case Obj(ms) =>
      var sorted := Ordered(ms);
      forall i | 0 <= i < |sorted|
        ensures WellFormed(NormalMembers(v, sorted)[i].key) && PairedText(NormalMembers(v, sorted)[i].value)
      {
        NormalMembersAt(v, sorted, i);
        NormalPaired(sorted[i].value);
      }
    case _ =>
  }

  /**
   * Canonical text is the shortest: whatever text a parser reads as the same value, in whatever spelling
   * and spacing, is at least as long.
   */
  lemma CanonicalIsShortest(v: Value, other: Text)
    requires Valid(v) && Encodable(v) && PairedText(v)
    requires Parse(other) == Some(Normal(v))
    ensures Canonicalize(v).Some? && |Canonicalize(v).value| <= |other|
  {
    hide Cost, Normal, Canonicalize, PairedText, ParseValue, Valid, Encodable;
    PrintsIffEncodable(v);
    NormalPrintsAlike(v);
    NormalPaired(v);
    PrintedCost(Normal(v));
    ValueCost(other);
  }

  /** The same of the grammar: no JSON text of the value is shorter. */
  lemma NoShorterText(v: Value, other: Text)
    requires Valid(v) && Encodable(v) && PairedText(v) && JsonGrammar.Spaced(other, Normal(v))
    ensures Canonicalize(v).Some? && |Canonicalize(v).value| <= |other|
  {
    hide *;
    JsonGrammar.ParseExactly(other, Normal(v));
    CanonicalIsShortest(v, other);
  }

  // ---- The spelling of what is escaped ------------------------------------------------------------------

  predicate LowerHex(u: CodeUnit) {
    '0' as int <= u <= '9' as int || 'a' as int <= u <= 'f' as int
  }

  /** The two marks and five controls are escaped by their short names, and plain units not at all. */
  lemma ShortEscapes(u: CodeUnit)
    ensures u == 0x22 ==> EscapeUnit(u) == Ascii("\\\"")
    ensures u == 0x5C ==> EscapeUnit(u) == Ascii("\\\\")
    ensures u == 8 ==> EscapeUnit(u) == Ascii("\\b")
    ensures u == 9 ==> EscapeUnit(u) == Ascii("\\t")
    ensures u == 10 ==> EscapeUnit(u) == Ascii("\\n")
    ensures u == 12 ==> EscapeUnit(u) == Ascii("\\f")
    ensures u == 13 ==> EscapeUnit(u) == Ascii("\\r")
    ensures u >= 0x20 && u != 0x22 && u != 0x5C && !(0xD800 <= u <= 0xDFFF) ==> EscapeUnit(u) == [u]
  {
    if u >= 0x20 {
      hide Ascii;
      assert Ascii("\\\"") == [BACKSLASH, 0x22] && Ascii("\\\\") == [BACKSLASH, 0x5C] by { MarkTexts(); }
    } else {
      assert |Ascii("\\b")| == 2;
    }
  }

  lemma MarkTexts()
    ensures Ascii("\\\"") == [BACKSLASH, 0x22] && Ascii("\\\\") == [BACKSLASH, 0x5C]
  {
  }

  /** The other controls and lone surrogates are escaped by four lower-case hexadecimal digits of their value. */
  lemma HexEscapes(u: CodeUnit)
    requires (u < 0x20 && u !in {8, 9, 10, 12, 13}) || 0xD800 <= u <= 0xDFFF
    ensures |EscapeUnit(u)| == 6 && EscapeUnit(u)[0] == '\\' as int && EscapeUnit(u)[1] == 'u' as int
    ensures forall i :: 2 <= i < 6 ==> LowerHex(EscapeUnit(u)[i])
    ensures AllDigits(EscapeUnit(u)[2..], 16) && ValueOf(EscapeUnit(u)[2..], 16) == u
  {
    hide ValueOf, Hex4;
    HexDigits(u);
    var e := [BACKSLASH, 0x75] + Hex4(u);
    assert e[2..] == Hex4(u);
    assert forall i :: 2 <= i < 6 ==> e[i] == Hex4(u)[i - 2];
  }

  lemma HexDigits(u: CodeUnit)
    ensures AllDigits(Hex4(u), 16) && ValueOf(Hex4(u), 16) == u
    ensures forall i :: 0 <= i < 4 ==> LowerHex(Hex4(u)[i])
  {
    hide ValueOf, AllDigits;
    var c := u / 16;
    var b := c / 16;
    var a := b / 16;
    assert u == c * 16 + u % 16 && c == b * 16 + c % 16 && b == a * 16 + b % 16;
    FourDigits(a, b % 16, c % 16, u % 16);
  }

  lemma FourDigits(a: nat, b: nat, c: nat, d: nat)
    requires a < 16 && b < 16 && c < 16 && d < 16
    ensures var t := [DigitUnit(a), DigitUnit(b), DigitUnit(c), DigitUnit(d)];
            && AllDigits(t, 16) && ValueOf(t, 16) == ((a * 16 + b) * 16 + c) * 16 + d
  {
    hide *;
    var one, two, three := [DigitUnit(a)], [DigitUnit(a), DigitUnit(b)], [DigitUnit(a), DigitUnit(b), DigitUnit(c)];
    NoDigits();
    Shifted([], DigitUnit(a));
    assert [] + [DigitUnit(a)] == one;
    Shifted(one, DigitUnit(b));
    assert one + [DigitUnit(b)] == two;
    Shifted(two, DigitUnit(c));
    assert two + [DigitUnit(c)] == three;
    Shifted(three, DigitUnit(d));
    assert three + [DigitUnit(d)] == [DigitUnit(a), DigitUnit(b), DigitUnit(c), DigitUnit(d)];
  }

  lemma NoDigits()
    ensures AllDigits([], 16) && ValueOf([], 16) == 0
  {
  }

  lemma Shifted(t: Text, d: CodeUnit)
    requires AllDigits(t, 16) && DigitValue(d).Some? && DigitValue(d).value < 16
    ensures AllDigits(t + [d], 16) && ValueOf(t + [d], 16) == ValueOf(t, 16) * 16 + DigitValue(d).value
  {
    assert (t + [d])[..|t|] == t;
  }
}
