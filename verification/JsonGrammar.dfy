// JSON text as RFC 8259 writes it down, and the parser read against it.
module JsonGrammar {
  import opened Outcomes
  import opened Utf16
  import opened Numerals
  import opened Json
  import opened JsonReading

  predicate AllJsonSpace(t: Text) {
    forall i :: 0 <= i < |t| ==> JsonSpace(t[i])
  }

  /** Section 6: digits without a leading zero, and a minus sign or none. Whole numbers only. */
  predicate NumberText(t: Text, n: int) {
    || NaturalText(t, n)
    || (t != [] && t[0] == '-' as int && NaturalText(t[1..], -n))
  }

  predicate NaturalText(t: Text, n: int) {
    Writes(t, 10, n) && (t[0] == '0' as int ==> |t| == 1)
  }

  /** The text of a value, with no space around it. */
  ghost predicate TextOf(t: Text, v: Value)
    decreases |t|, 0
  {
    match v
    case Null => t == Ascii("null")
    case Bool(b) => t == if b then Ascii("true") else Ascii("false")
    case Num(n) => NumberText(t, n)
    case Str(s) => |t| > 1 && t[0] == '"' as int && t[|t| - 1] == '"' as int && Spells(t[1..|t| - 1], s)
    case Arr(items) =>
      && |t| > 1 && t[0] == '[' as int && t[|t| - 1] == ']' as int
      && if items == [] then AllJsonSpace(t[1..|t| - 1]) else ItemsText(t[1..|t| - 1], items)
    case Obj(ms) =>
      && |t| > 1 && t[0] == '{' as int && t[|t| - 1] == '}' as int
      && if ms == [] then AllJsonSpace(t[1..|t| - 1])
         else exists raw :: raw != [] && Fold([], raw) == ms && MembersText(t[1..|t| - 1], raw)
    case _ => false
  }

  /** The text of a value, with space around it or none. */
  ghost predicate Spaced(t: Text, v: Value)
    decreases |t|, 1
  {
    exists a, u, b :: t == a + u + b && AllJsonSpace(a) && AllJsonSpace(b) && TextOf(u, v)
  }

  /** Values with commas between them. */
  ghost predicate ItemsText(t: Text, items: seq<Value>)
    requires items != []
    decreases |t|, 2
  {
    if |items| == 1 then Spaced(t, items[0])
    else exists a, b :: t == a + Ascii(",") + b && Spaced(a, items[0]) && ItemsText(b, items[1..])
  }

  /** A member: a string, a colon, a value. */
  ghost predicate MemberText(t: Text, m: Member)
    decreases |t|, 2
  {
    exists a, key, b, c ::
      && t == a + Ascii("\"") + key + Ascii("\"") + b + Ascii(":") + c
      && AllJsonSpace(a) && Spells(key, m.key) && AllJsonSpace(b) && Spaced(c, m.value)
  }

  ghost predicate MembersText(t: Text, raw: seq<Member>)
    requires raw != []
    decreases |t|, 3
  {
    if |raw| == 1 then MemberText(t, raw[0])
    else exists a, b :: t == a + Ascii(",") + b && MemberText(a, raw[0]) && MembersText(b, raw[1..])
  }

  /** The members of an object, from those its text lists: a repeated key takes the later value. */
  function Fold(read: seq<Member>, raw: seq<Member>): (ms: seq<Member>)
    decreases |raw|
  {
    if raw == [] then read else Fold(Put(read, raw[0]), raw[1..])
  }

  // ---- What is read is JSON text --------------------------------------------------------------------------

  lemma {:induction false} SkippedSpace(t: Text) returns (space: Text)
    ensures t == space + SkipSpace(t) && AllJsonSpace(space)
    ensures SkipSpace(t) != [] ==> !JsonSpace(SkipSpace(t)[0])
    decreases |t|
  {
    if t != [] && JsonSpace(t[0]) {
      space := SkippedSpace(t[1..]);
      space := [t[0]] + space;
      assert t == [t[0]] + t[1..];
    } else {
      space := [];
    }
  }

  lemma NaturalTaken(t: Text) returns (d: Text)
    requires ParseNatural(t).Some?
    ensures t == d + ParseNatural(t).value.1 && NaturalText(d, ParseNatural(t).value.0)
  {
    hide ValueOf;
    d := t[..DigitRun(t)];
    assert t == d + t[DigitRun(t)..];
  }

  lemma NumberTaken(t: Text) returns (d: Text)
    requires ParseNumber(t).Some?
    ensures ParseNumber(t).value.0.Num? && t == d + ParseNumber(t).value.1
    ensures TextOf(d, ParseNumber(t).value.0)
  {
    hide ParseNatural, NaturalText;
    var negative := t != [] && t[0] == 0x2D;
    d := NaturalTaken(if negative then t[1..] else t);
    if negative {
      d := [t[0]] + d;
      assert d[1..] + ParseNumber(t).value.1 == t[1..];
    }
  }

  lemma StringTaken(t: Text) returns (u: Text)
    requires t != [] && t[0] == QUOTE && ParseChars(t[1..]).Some?
    ensures t == u + ParseChars(t[1..]).value.1 && TextOf(u, Str(ParseChars(t[1..]).value.0))
  {
    hide Spells, ParseChars;
    var body := ReadSpells(t[1..]);
    u := [QUOTE] + body + [QUOTE];
    assert u[1..|u| - 1] == body;
    assert t == [QUOTE] + t[1..];
  }

  lemma LiteralTaken(t: Text, v: Value, u: Text)
    requires u <= t && ((v == Null && u == NULL) || (v == Bool(true) && u == TRUE) || (v == Bool(false) && u == FALSE))
    ensures t == u + t[|u|..] && TextOf(u, v)
  {
    assert Ascii("null") == NULL && Ascii("true") == TRUE && Ascii("false") == FALSE;
  }

  lemma {:induction false} ValueTaken(t: Text) returns (a: Text, u: Text)
    requires ParseValue(t).Some?
    ensures t == a + u + ParseValue(t).value.1 && AllJsonSpace(a) && TextOf(u, ParseValue(t).value.0)
    decreases |t|, 2
  {
    hide TextOf, ParseNumber, ParseChars, ParseItems, ParseMembers, AllJsonSpace, SkipSpace;
    SkipTwice(t);
    a := SkippedSpace(t);
    var w := SkipSpace(t);
    if w[0] == LBRACE {
      u := ObjectTaken(w);
    } else if w[0] == LBRACKET {
      u := ArrayTaken(w);
    } else if w[0] == QUOTE {
      u := StringTaken(w);
    } else if NULL <= w {
      u := NULL;
      LiteralTaken(w, Null, u);
    } else if TRUE <= w {
      u := TRUE;
      LiteralTaken(w, Bool(true), u);
    } else if FALSE <= w {
      u := FALSE;
      LiteralTaken(w, Bool(false), u);
    } else {
      u := NumberTaken(w);
    }
  }

  lemma {:induction false} SkipTwice(t: Text)
    ensures SkipSpace(SkipSpace(t)) == SkipSpace(t)
    decreases |t|
  {
    if t != [] && JsonSpace(t[0]) { SkipTwice(t[1..]); }
  }

  lemma ValueSkips(t: Text)
    ensures ParseValue(SkipSpace(t)) == ParseValue(t)
    ensures forall read :: ParseItems(SkipSpace(t), read) == ParseItems(t, read)
    ensures forall read :: ParseMembers(SkipSpace(t), read) == ParseMembers(t, read)
  {
    hide SkipSpace;
    SkipTwice(t);
  }

  lemma {:induction false} ArrayTaken(t: Text) returns (u: Text)
    requires t != [] && t[0] == LBRACKET && SkipSpace(t) == t && ParseValue(t).Some?
    ensures t == u + ParseValue(t).value.1 && TextOf(u, ParseValue(t).value.0)
    decreases |t|, 1
  {
    hide ParseItems, ParseMembers, ParseNumber, ParseChars, ItemsText, MembersText, Spells;
    var inner, w := t[1..], SkipSpace(t[1..]);
    assert t == [LBRACKET] + inner;
    if w != [] && w[0] == RBRACKET {
      var space := SkippedSpace(inner);
      u := [LBRACKET] + space + [RBRACKET];
      assert u[1..|u| - 1] == space;
    } else {
      ValueSkips(inner);
      var body, items := ItemsTaken(inner, []);
      u := [LBRACKET] + body + [RBRACKET];
      assert u[1..|u| - 1] == body && [] + items == items;
    }
  }

  lemma SpacedAround(a: Text, u: Text, b: Text, v: Value)
    requires AllJsonSpace(a) && AllJsonSpace(b) && TextOf(u, v)
    ensures Spaced(a + u + b, v)
  {
    hide TextOf;
  }

  lemma OneItem(t: Text, v: Value)
    requires Spaced(t, v)
    ensures ItemsText(t, [v])
  {
    hide Spaced;
  }

  lemma MoreItems(t: Text, v: Value, more: Text, items: seq<Value>)
    requires Spaced(t, v) && items != [] && ItemsText(more, items)
    ensures ItemsText(t + Ascii(",") + more, [v] + items)
  {
    hide Spaced, Ascii;
    assert ([v] + items)[1..] == items;
  }

  lemma ItemsStep(t: Text, read: seq<Value>)
    requires ParseItems(t, read).Some?
    ensures ParseValue(t).Some?
    ensures var (v, rest) := ParseValue(t).value;
            var w := SkipSpace(rest);
            && w != [] && (w[0] == COMMA || w[0] == RBRACKET)
            && ParseItems(t, read) == if w[0] == COMMA then ParseItems(w[1..], read + [v]) else Some((Arr(read + [v]), w[1..]))
  {
    hide ParseValue, SkipSpace;
  }

  lemma Glue(a: Text, u: Text, b: Text, mark: CodeUnit, w: Text)
    requires w != [] && w[0] == mark
    ensures a + u + (b + w) == (a + u + b) + [mark] + w[1..]
  {
    assert w == [mark] + w[1..];
  }

  lemma Assoc(a: Text, mark: CodeUnit, b: Text, end: CodeUnit, c: Text)
    ensures a + [mark] + (b + [end] + c) == (a + [mark] + b) + [end] + c
  {
  }

  lemma CommaText()
    ensures Ascii(",") == [COMMA]
  {
  }

  lemma Appended<T>(read: seq<T>, v: T, others: seq<T>)
    ensures read + [v] + others == read + ([v] + others)
  {
  }

  lemma {:induction false} ItemsTaken(t: Text, read: seq<Value>) returns (body: Text, items: seq<Value>)
    requires ParseItems(t, read).Some?
    ensures items != [] && ParseItems(t, read).value.0 == Arr(read + items)
    ensures t == body + [RBRACKET] + ParseItems(t, read).value.1 && ItemsText(body, items)
    decreases |t|, 3
  {
    hide *;
    CommaText();
    ItemsStep(t, read);
    var v, rest := ParseValue(t).value.0, ParseValue(t).value.1;
    var a, u := ValueTaken(t);
    var b := SkippedSpace(rest);
    var w := SkipSpace(rest);
    var one := a + u + b;
    SpacedAround(a, u, b, v);
    Glue(a, u, b, w[0], w);
    if w[0] == COMMA {
      var more, others := ItemsTaken(w[1..], read + [v]);
      MoreItems(one, v, more, others);
      body, items := one + [COMMA] + more, [v] + others;
      Appended(read, v, others);
      Assoc(one, COMMA, more, RBRACKET, ParseItems(t, read).value.1);
    } else {
      OneItem(one, v);
      body, items := one, [v];
    }
  }

  lemma {:induction false} ObjectTaken(t: Text) returns (u: Text)
    requires t != [] && t[0] == LBRACE && SkipSpace(t) == t && ParseValue(t).Some?
    ensures t == u + ParseValue(t).value.1 && TextOf(u, ParseValue(t).value.0)
    decreases |t|, 1
  {
    hide ParseItems, ParseMembers, ParseNumber, ParseChars, ItemsText, MembersText, Spells, Fold;
    var inner, w := t[1..], SkipSpace(t[1..]);
    assert t == [LBRACE] + inner;
    if w != [] && w[0] == RBRACE {
      var space := SkippedSpace(inner);
      u := [LBRACE] + space + [RBRACE];
      assert u[1..|u| - 1] == space;
    } else {
      ValueSkips(inner);
      var body, raw := MembersTaken(inner, []);
      u := [LBRACE] + body + [RBRACE];
      FoldSome([], raw);
      assert u[1..|u| - 1] == body;
    }
  }

  lemma {:induction false} FoldSome(read: seq<Member>, raw: seq<Member>)
    ensures |Fold(read, raw)| >= |read|
    ensures raw != [] ==> Fold(read, raw) != []
    decreases |raw|
  {
    if raw != [] {
      PutLast(read, raw[0], raw[0].key);
      FoldSome(Put(read, raw[0]), raw[1..]);
    }
  }

  lemma MemberBuilt(a: Text, key: Text, b: Text, c: Text, m: Member)
    requires AllJsonSpace(a) && Spells(key, m.key) && AllJsonSpace(b) && Spaced(c, m.value)
    ensures MemberText(a + Ascii("\"") + key + Ascii("\"") + b + Ascii(":") + c, m)
  {
    hide Spaced, Ascii, Spells, AllJsonSpace;
  }

  lemma OneMember(t: Text, m: Member)
    requires MemberText(t, m)
    ensures MembersText(t, [m])
  {
    hide MemberText;
  }

  lemma MoreMembers(t: Text, m: Member, more: Text, raw: seq<Member>)
    requires MemberText(t, m) && raw != [] && MembersText(more, raw)
    ensures MembersText(t + Ascii(",") + more, [m] + raw)
  {
    hide MemberText, Ascii;
    assert ([m] + raw)[1..] == raw;
  }

  lemma MembersStep(t: Text, read: seq<Member>)
    requires ParseMembers(t, read).Some?
    ensures var u := SkipSpace(t);
            && u != [] && u[0] == QUOTE && ParseChars(u[1..]).Some?
            && var (key, afterKey) := ParseChars(u[1..]).value;
            && var x := SkipSpace(afterKey);
            && x != [] && x[0] == COLON && ParseValue(x[1..]).Some? && |x| < |t|
            && var (v, rest) := ParseValue(x[1..]).value;
            && var w := SkipSpace(rest);
            && w != [] && (w[0] == COMMA || w[0] == RBRACE)
            && ParseMembers(t, read) == if w[0] == COMMA then ParseMembers(w[1..], Put(read, Member(key, v)))
                                        else Some((Obj(Put(read, Member(key, v))), w[1..]))
  {
    hide ParseValue, ParseChars, Put;
  }

  lemma Plus(a: Text, b: Text, c: Text, d: Text)
    ensures a + b + (c + d) == (a + b + c) + d
  {
  }

  lemma Regroup(a: Text, u: Text, key: Text, b: Text, x: Text, value: Text, w: Text)
    requires u != [] && u[0] == QUOTE && x != [] && x[0] == COLON && w != []
    requires u[1..] == key + [QUOTE] + (b + x) && x[1..] == value + w
    ensures a + u == (a + [QUOTE] + key + [QUOTE] + b + [COLON] + value) + [w[0]] + w[1..]
  {
    assert u == [QUOTE] + u[1..] && x == [COLON] + x[1..] && w == [w[0]] + w[1..];
  }

  lemma MemberJoined(t: Text, a: Text, u: Text, key: Text, b: Text, x: Text, value: Text, w: Text, m: Member)
    returns (body: Text)
    requires t == a + u && u != [] && u[0] == QUOTE && x != [] && x[0] == COLON && w != []
    requires u[1..] == key + [QUOTE] + (b + x) && x[1..] == value + w
    requires AllJsonSpace(a) && Spells(key, m.key) && AllJsonSpace(b) && Spaced(value, m.value)
    ensures t == body + [w[0]] + w[1..] && MemberText(body, m)
  {
    assert Ascii("\"") == [QUOTE] && Ascii(":") == [COLON];
    hide Spells, Ascii, Spaced, MemberText, AllJsonSpace;
    MemberBuilt(a, key, b, value, m);
    Regroup(a, u, key, b, x, value, w);
    body := a + [QUOTE] + key + [QUOTE] + b + [COLON] + value;
  }

  /** A member is read: its key, the colon, its value, and a comma or the end after it. */
  lemma {:induction false} MemberTaken(t: Text, read: seq<Member>) returns (body: Text, m: Member, w: Text)
    requires ParseMembers(t, read).Some?
    ensures w != [] && (w[0] == COMMA || w[0] == RBRACE)
    ensures t == body + [w[0]] + w[1..] && MemberText(body, m)
    ensures ParseMembers(t, read) == if w[0] == COMMA then ParseMembers(w[1..], Put(read, m))
                                     else Some((Obj(Put(read, m)), w[1..]))
    decreases |t|, 3
  {
    hide ParseValue, TextOf, ParseChars, Spells, Put, Spaced, MemberText, SkipSpace, ParseMembers, AllJsonSpace;
    MembersStep(t, read);
    var a := SkippedSpace(t);
    var u := SkipSpace(t);
    var key := ReadSpells(u[1..]);
    var afterKey := ParseChars(u[1..]).value.1;
    var b := SkippedSpace(afterKey);
    var x := SkipSpace(afterKey);
    var c, d := ValueTaken(x[1..]);
    var v, rest := ParseValue(x[1..]).value.0, ParseValue(x[1..]).value.1;
    var e := SkippedSpace(rest);
    w := SkipSpace(rest);
    m := Member(ParseChars(u[1..]).value.0, v);
    SpacedAround(c, d, e, v);
    Plus(c, d, e, w);
    body := MemberJoined(t, a, u, key, b, x, c + d + e, w, m);
  }

  lemma FoldUnfolds(read: seq<Member>, m: Member)
    ensures Fold(read, [m]) == Put(read, m)
    ensures forall others :: Fold(read, [m] + others) == Fold(Put(read, m), others)
  {
    hide Put;
    forall others: seq<Member>
      ensures Fold(read, [m] + others) == Fold(Put(read, m), others)
    {
      assert ([m] + others)[1..] == others;
    }
    assert [m][1..] == [];
  }

  lemma {:induction false} MembersTaken(t: Text, read: seq<Member>) returns (body: Text, raw: seq<Member>)
    requires ParseMembers(t, read).Some?
    ensures raw != [] && ParseMembers(t, read).value.0 == Obj(Fold(read, raw))
    ensures t == body + [RBRACE] + ParseMembers(t, read).value.1 && MembersText(body, raw)
    decreases |t|, 4
  {
    hide *;
    CommaText();
    var one, m, w := MemberTaken(t, read);
    FoldUnfolds(read, m);
    if w[0] == COMMA {
      var more, others := MembersTaken(w[1..], Put(read, m));
      MoreMembers(one, m, more, others);
      body, raw := one + [COMMA] + more, [m] + others;
      Assoc(one, COMMA, more, RBRACE, ParseMembers(t, read).value.1);
    } else {
      OneMember(one, m);
      body, raw := one, [m];
    }
  }

  // ---- JSON text is read as what it says ---------------------------------------------------------------------

  /** What may stand right after a value. */
  predicate Ends(rest: Text) {
    rest == [] || (!IsDigit(rest[0]) && rest[0] != '.' as int && rest[0] != 'e' as int && rest[0] != 'E' as int)
  }

  predicate Opens(t: Text) {
    t != [] && !JsonSpace(t[0]) && t[0] != RBRACKET && t[0] != RBRACE && t[0] != COMMA
  }

  lemma TextOpens(u: Text, v: Value)
    requires TextOf(u, v)
    ensures Opens(u)
  {
    hide ItemsText, MembersText, Spells, ValueOf;
    assert forall i :: 0 <= i < |Ascii("null")| ==> Ascii("null")[i] == "null"[i] as int;
  }

  lemma AfterSpace(a: Text, t: Text)
    requires AllJsonSpace(a) && (t != [] ==> !JsonSpace(t[0]))
    ensures SkipSpace(a + t) == t && SkipSpace(t) == t
    ensures ParseValue(a + t) == ParseValue(t)
  {
    hide ParseNumber, ParseItems, ParseMembers, ParseChars, SkipSpace;
    SpaceSkipped(a, t);
    SpaceSkipped([], t);
    assert [] + t == t;
  }

  lemma {:induction false} DigitsRun(d: Text, rest: Text)
    requires AllDigits(d, 10) && Ends(rest)
    ensures DigitRun(d + rest) == |d|
  {
    if d == [] {
      assert d + rest == rest;
    } else {
      assert (d + rest)[1..] == d[1..] + rest;
      DigitsRun(d[1..], rest);
    }
  }

  lemma NaturalRead(d: Text, n: nat, rest: Text)
    requires NaturalText(d, n) && Ends(rest)
    ensures ParseNatural(d + rest) == Some((n, rest)) && IsDigit((d + rest)[0])
  {
    hide ValueOf;
    DigitsRun(d, rest);
    assert (d + rest)[..|d|] == d && (d + rest)[|d|..] == rest;
  }

  lemma NumberRead(d: Text, n: SafeInt, rest: Text)
    requires NumberText(d, n) && Ends(rest)
    ensures ParseValue(d + rest) == Some((Num(n), rest))
  {
    hide ParseNatural, NaturalText;
    var t := d + rest;
    if NaturalText(d, n) {
      NaturalIs(d, n);
      NaturalRead(d, n, rest);
    } else {
      NaturalIs(d[1..], -n);
      NaturalRead(d[1..], -n, rest);
      assert t[1..] == d[1..] + rest;
    }
    NumberOpens(t);
  }

  lemma NaturalIs(d: Text, n: int)
    requires NaturalText(d, n)
    ensures n >= 0
  {
    hide ValueOf;
  }

  lemma NumberOpens(t: Text)
    requires t != [] && (IsDigit(t[0]) || t[0] == 0x2D)
    ensures ParseValue(t) == ParseNumber(t)
  {
    hide ParseNumber;
    assert SkipSpace(t) == t;
    assert NULL[0] == 0x6E && TRUE[0] == 0x74 && FALSE[0] == 0x66;
  }

  lemma LiteralRead(u: Text, v: Value, rest: Text)
    requires v.Null? || v.Bool?
    requires TextOf(u, v)
    ensures ParseValue(u + rest) == Some((v, rest))
  {
    assert Ascii("null") == NULL && Ascii("true") == TRUE && Ascii("false") == FALSE;
    var t := u + rest;
    assert SkipSpace(t) == t;
    assert u <= t && t[|u|..] == rest;
  }

  lemma StringRead(u: Text, s: Text, rest: Text)
    requires TextOf(u, Str(s))
    ensures ParseValue(u + rest) == Some((Str(s), rest))
  {
    hide Spells, ParseChars;
    var t := u + rest;
    var body := u[1..|u| - 1];
    SpelledReads(body, s, rest);
    assert t[1..] == body + [QUOTE] + rest;
    assert SkipSpace(t) == t;
  }

  /** The text of a value is read as that value, whatever may follow it. */
  lemma {:induction false} TextRead(u: Text, v: Value, rest: Text)
    requires TextOf(u, v) && Ends(rest)
    ensures ParseValue(u + rest) == Some((v, rest))
    decreases |u|, 1
  {
    hide ParseValue, TextOf;
    match v
    case Null => LiteralRead(u, v, rest);
    case Bool(_) => LiteralRead(u, v, rest);
    case Num(n) => NumberSaid(u, n); NumberRead(u, n, rest);
    case Str(s) => StringRead(u, s, rest);
    case Arr(items) => ArrayRead(u, items, rest);
    case Obj(ms) => ObjectRead(u, ms, rest);
    case _ => NothingSaid(u, v);
  }

  lemma NumberSaid(u: Text, n: SafeInt)
    requires TextOf(u, Num(n))
    ensures NumberText(u, n)
  {
  }

  lemma NothingSaid(u: Text, v: Value)
    requires v.Undefined? || v.Unencodable?
    ensures !TextOf(u, v)
  {
  }

  lemma {:induction false} SpacedRead(t: Text, v: Value, rest: Text) returns (b: Text)
    requires Spaced(t, v) && rest != [] && (rest[0] == COMMA || rest[0] == RBRACKET || rest[0] == RBRACE)
    ensures ParseValue(t + rest) == Some((v, b + rest)) && SkipSpace(b + rest) == rest
    ensures Opens(SkipSpace(t + rest))
    decreases |t|, 2
  {
    hide TextOf, ParseValue;
    var a, u;
    a, u, b :| t == a + u + b && AllJsonSpace(a) && AllJsonSpace(b) && TextOf(u, v);
    TextOpens(u, v);
    TextRead(u, v, b + rest);
    Plus(a, u, b, rest);
    assert a + u + (b + rest) == a + (u + (b + rest));
    AfterSpace(a, u + (b + rest));
    AfterSpace(b, rest);
  }

  lemma ItemsAfter(t: Text, v: Value, after: Text, w: Text, read: seq<Value>)
    requires ParseValue(t) == Some((v, after)) && SkipSpace(after) == w && w != []
    ensures w[0] == COMMA ==> ParseItems(t, read) == ParseItems(w[1..], read + [v])
    ensures w[0] == RBRACKET ==> ParseItems(t, read) == Some((Arr(read + [v]), w[1..]))
  {
    hide ParseValue, SkipSpace;
  }

  /** The text after the first of several parts. */
  function Following(y: Text, end: CodeUnit, rest: Text): (t: Text) {
    [COMMA] + (y + [end] + rest)
  }

  lemma FollowingIs(t: Text, x: Text, y: Text, end: CodeUnit, rest: Text)
    requires t == x + Ascii(",") + y
    ensures t + [end] + rest == x + Following(y, end, rest)
    ensures var next := Following(y, end, rest); next != [] && next[0] == COMMA && next[1..] == y + [end] + rest
  {
    assert Ascii(",") == [COMMA];
  }

  lemma LastPart(t: Text, end: CodeUnit, rest: Text)
    ensures t + [end] + rest == t + ([end] + rest) && ([end] + rest)[1..] == rest
  {
  }

  lemma {:induction false} ItemsRead(t: Text, items: seq<Value>, read: seq<Value>, rest: Text)
    requires items != [] && ItemsText(t, items)
    ensures ParseItems(t + [RBRACKET] + rest, read) == Some((Arr(read + items), rest))
    ensures Opens(SkipSpace(t + [RBRACKET] + rest))
    decreases |t|, 3
  {
    hide ParseValue, Spaced, SkipSpace, Ascii, ParseItems, Opens, Following;
    var whole := t + [RBRACKET] + rest;
    if |items| == 1 {
      LastPart(t, RBRACKET, rest);
      var b := SpacedRead(t, items[0], [RBRACKET] + rest);
      ItemsAfter(whole, items[0], b + ([RBRACKET] + rest), [RBRACKET] + rest, read);
      assert items == [items[0]];
    } else {
      var x, y :| t == x + Ascii(",") + y && Spaced(x, items[0]) && ItemsText(y, items[1..]);
      FollowingIs(t, x, y, RBRACKET, rest);
      assert Ascii(",") == [COMMA] by { CommaText(); }
      var next := Following(y, RBRACKET, rest);
      var b := SpacedRead(x, items[0], next);
      ItemsAfter(whole, items[0], b + next, next, read);
      ItemsRead(y, items[1..], read + [items[0]], rest);
      assert read + [items[0]] + items[1..] == read + items;
    }
  }

  lemma {:induction false} ArrayRead(u: Text, items: seq<Value>, rest: Text)
    requires TextOf(u, Arr(items))
    ensures ParseValue(u + rest) == Some((Arr(items), rest))
    decreases |u|, 0
  {
    hide ParseItems, ParseMembers, ParseNumber, ParseChars, ItemsText, SkipSpace;
    var t, inner := u + rest, u[1..|u| - 1];
    assert t[1..] == inner + [RBRACKET] + rest;
    AfterSpace([], t);
    assert [] + t == t;
    if items == [] {
      assert t[1..] == inner + ([RBRACKET] + rest);
      AfterSpace(inner, [RBRACKET] + rest);
      assert ([RBRACKET] + rest)[1..] == rest;
    } else {
      ItemsRead(inner, items, [], rest);
      ValueSkips(t[1..]);
      assert [] + items == items;
    }
  }

  lemma MembersAfter(t: Text, u: Text, key: Text, afterKey: Text, x: Text, v: Value, after: Text, w: Text, read: seq<Member>)
    requires SkipSpace(t) == u && u != [] && u[0] == QUOTE && ParseChars(u[1..]) == Some((key, afterKey))
    requires SkipSpace(afterKey) == x && x != [] && x[0] == COLON && ParseValue(x[1..]) == Some((v, after))
    requires SkipSpace(after) == w && w != []
    ensures w[0] == COMMA ==> ParseMembers(t, read) == ParseMembers(w[1..], Put(read, Member(key, v)))
    ensures w[0] == RBRACE ==> ParseMembers(t, read) == Some((Obj(Put(read, Member(key, v))), w[1..]))
  {
    hide ParseValue, ParseChars, SkipSpace, Put;
  }

  /** A member and what follows, part by part. */
  lemma MemberParts(t: Text, a: Text, key: Text, b: Text, c: Text, rest: Text) returns (u: Text, x: Text)
    requires t == a + Ascii("\"") + key + Ascii("\"") + b + Ascii(":") + c
    ensures t + rest == a + u && u != [] && u[0] == QUOTE && u[1..] == key + [QUOTE] + (b + x)
    ensures x != [] && x[0] == COLON && x[1..] == c + rest
  {
    assert Ascii("\"") == [QUOTE] && Ascii(":") == [COLON];
    x := [COLON] + (c + rest);
    u := [QUOTE] + (key + [QUOTE] + (b + x));
  }

  lemma OneUnit()
    ensures |Ascii(":")| == 1
  {
  }

  lemma {:induction false} MemberRead(t: Text, m: Member, rest: Text, read: seq<Member>)
    requires MemberText(t, m) && rest != [] && (rest[0] == COMMA || rest[0] == RBRACE)
    ensures ParseMembers(t + rest, read) == if rest[0] == COMMA then ParseMembers(rest[1..], Put(read, m))
                                            else Some((Obj(Put(read, m)), rest[1..]))
    ensures SkipSpace(t + rest) != [] && SkipSpace(t + rest)[0] == QUOTE
    decreases |t|, 3
  {
    hide ParseValue, Spaced, Spells, ParseChars, SkipSpace, Put, Ascii, ParseMembers, AllJsonSpace;
    var a, key, b, c :|
      && t == a + Ascii("\"") + key + Ascii("\"") + b + Ascii(":") + c
      && AllJsonSpace(a) && Spells(key, m.key) && AllJsonSpace(b) && Spaced(c, m.value);
    var u, x := MemberParts(t, a, key, b, c, rest);
    AfterSpace(a, u);
    SpelledReads(key, m.key, b + x);
    AfterSpace(b, x);
    assert |c| < |t| by { assert |Ascii(":")| == 1 by { OneUnit(); } }
    var e := SpacedRead(c, m.value, rest);
    MembersAfter(t + rest, u, m.key, b + x, x, m.value, e + rest, rest, read);
  }

  lemma {:induction false} MembersRead(t: Text, raw: seq<Member>, read: seq<Member>, rest: Text)
    requires raw != [] && MembersText(t, raw)
    ensures ParseMembers(t + [RBRACE] + rest, read) == Some((Obj(Fold(read, raw)), rest))
    ensures var w := SkipSpace(t + [RBRACE] + rest); w != [] && w[0] == QUOTE
    decreases |t|, 4
  {
    hide ParseMembers, MemberText, SkipSpace, Put, Ascii, Following;
    if |raw| == 1 {
      LastPart(t, RBRACE, rest);
      MemberRead(t, raw[0], [RBRACE] + rest, read);
      assert Fold(Put(read, raw[0]), raw[1..]) == Put(read, raw[0]);
    } else {
      var x, y :| t == x + Ascii(",") + y && MemberText(x, raw[0]) && MembersText(y, raw[1..]);
      FollowingIs(t, x, y, RBRACE, rest);
      MemberRead(x, raw[0], Following(y, RBRACE, rest), read);
      assert |Ascii(",")| == 1 by { assert Ascii(",") == [COMMA] by { CommaText(); } }
      MembersRead(y, raw[1..], Put(read, raw[0]), rest);
    }
  }

  lemma {:induction false} ObjectRead(u: Text, ms: seq<Member>, rest: Text)
    requires TextOf(u, Obj(ms))
    ensures ParseValue(u + rest) == Some((Obj(ms), rest))
    decreases |u|, 0
  {
    hide ParseItems, ParseMembers, ParseNumber, ParseChars, MembersText, SkipSpace, Fold;
    var t, inner := u + rest, u[1..|u| - 1];
    assert t[1..] == inner + [RBRACE] + rest;
    AfterSpace([], t);
    assert [] + t == t;
    if ms == [] {
      assert t[1..] == inner + ([RBRACE] + rest);
      AfterSpace(inner, [RBRACE] + rest);
      assert ([RBRACE] + rest)[1..] == rest;
    } else {
      var raw :| raw != [] && Fold([], raw) == ms && MembersText(inner, raw);
      MembersRead(inner, raw, [], rest);
      ValueSkips(t[1..]);
    }
  }

  /** The parser reads t as v exactly when t is JSON text of v, with space around it or none. */
  lemma ParseExactly(t: Text, v: Value)
    ensures Parse(t) == Some(v) <==> Spaced(t, v)
  {
    hide TextOf, ParseValue, SkipSpace;
    if Parse(t) == Some(v) {
      var a, u := ValueTaken(t);
      var rest := ParseValue(t).value.1;
      var b := SkippedSpace(rest);
      assert rest == b + [] && b + [] == b;
    }
    if Spaced(t, v) {
      var a, u, b :| t == a + u + b && AllJsonSpace(a) && AllJsonSpace(b) && TextOf(u, v);
      TextOpens(u, v);
      TextRead(u, v, b);
      assert a + u + b == a + (u + b) && b + [] == b;
      AfterSpace(a, u + b);
      AfterSpace(b, []);
    }
  }
}
