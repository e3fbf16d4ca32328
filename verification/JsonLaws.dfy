// Printing and parsing are inverse, so canonical text determines the value and nothing but it.
module JsonLaws {
  import opened Outcomes
  import opened Utf16
  import opened Numerals
  import opened Json

  // ---- Sorting ---------------------------------------------------------------------------------

  lemma {:induction false} InsertIncreasing(m: Member, ms: seq<Member>)
    requires Increasing(ms)
    requires forall x | x in ms :: x.key != m.key
    ensures Increasing(Insert(m, ms))
  {
    if ms != [] {
      if Before(ms[0].key, m.key) {
        InsertIncreasing(m, ms[1..]);
        forall x | x in Insert(m, ms[1..])
          ensures Before(ms[0].key, x.key)
        {
          if x != m {
            var j :| 0 <= j < |ms[1..]| && ms[1..][j] == x;
            assert ms[j + 1] == x;
          }
        }
      } else {
        BeforeTotal(ms[0].key, m.key);
        assert ms[0] in ms;
        forall j | 0 < j < |ms|
          ensures Before(m.key, ms[j].key)
        {
          BeforeTransitive(m.key, ms[0].key, ms[j].key);
        }
      }
    }
  }

  lemma {:induction false} SortIncreasing(ms: seq<Member>)
    requires DistinctKeys(ms)
    ensures Increasing(Sort(ms))
  {
    if ms != [] {
      SortIncreasing(ms[1..]);
      forall x | x in Sort(ms[1..])
        ensures x.key != ms[0].key
      {
        var j :| 0 <= j < |ms[1..]| && ms[1..][j] == x;
        assert ms[j + 1] == x;
      }
      InsertIncreasing(ms[0], Sort(ms[1..]));
    }
  }

  lemma {:induction false} PresentIncreasing(ms: seq<Member>)
    requires Increasing(ms)
    ensures Increasing(Present(ms))
  {
    if ms != [] {
      PresentIncreasing(ms[1..]);
      forall x | x in Present(ms[1..])
        ensures Before(ms[0].key, x.key)
      {
        var j :| 0 <= j < |ms[1..]| && ms[1..][j] == x;
        assert ms[j + 1] == x;
      }
    }
  }

  lemma OrderedIncreasing(ms: seq<Member>)
    requires DistinctKeys(ms)
    ensures Increasing(Ordered(ms))
  {
    SortIncreasing(ms);
    PresentIncreasing(Sort(ms));
  }

  lemma IncreasingDistinct(ms: seq<Member>)
    requires Increasing(ms)
    ensures DistinctKeys(ms)
  {
    forall i, j | 0 <= i < j < |ms|
      ensures ms[i].key != ms[j].key
    {
      BeforeIrreflexive(ms[i].key);
    }
  }

  /** Sorting what is sorted, and dropping what is not there, change nothing. */
  lemma {:induction false} OrderedFixed(ms: seq<Member>)
    requires Increasing(ms)
    requires forall m | m in ms :: !m.value.Undefined?
    ensures Ordered(ms) == ms
  {
    SortFixed(ms);
    PresentFixed(ms);
  }

  lemma {:induction false} SortFixed(ms: seq<Member>)
    requires Increasing(ms)
    ensures Sort(ms) == ms
  {
    if ms != [] {
      SortFixed(ms[1..]);
      if |ms| > 1 && Before(ms[1].key, ms[0].key) {
        BeforeTransitive(ms[0].key, ms[1].key, ms[0].key);
        BeforeIrreflexive(ms[0].key);
        assert false;
      }
      assert ms == [ms[0]] + ms[1..];
    }
  }

  lemma {:induction false} PresentFixed(ms: seq<Member>)
    requires forall m | m in ms :: !m.value.Undefined?
    ensures Present(ms) == ms
  {
    if ms != [] {
      assert ms[0] in ms;
      PresentFixed(ms[1..]);
    }
  }

  // ---- Strings and numbers ---------------------------------------------------------------------

  lemma Hex4Parses(u: CodeUnit, rest: Text)
    ensures ParseHex4(Hex4(u) + rest) == Some(u)
  {
    var t := Hex4(u) + rest;
    var c := u / 16;
    var b := c / 16;
    var a := b / 16;
    assert u == c * 16 + u % 16 && c == b * 16 + c % 16 && b == a * 16 + b % 16;
    assert t[0] == DigitUnit(a) && t[1] == DigitUnit(b % 16) && t[2] == DigitUnit(c % 16) && t[3] == DigitUnit(u % 16);
  }

  /** One escaped unit is read back, in front of any text that parses. */
  lemma UnitParses(u: CodeUnit, more: Text, s: Text, rest: Text)
    requires ParseChars(more) == Some((s, rest))
    ensures ParseChars(EscapeUnit(u) + more) == Some(([u] + s, rest))
  {
    var e := EscapeUnit(u);
    if |e| > 2 {
      HexParses(u, more, s, rest);
    } else if |e| == 2 {
      ShortParses(e[1], u, more, s, rest);
      assert e == [BACKSLASH, e[1]];
    } else {
      PlainParses(u, more, s, rest);
    }
  }

  lemma HexParses(u: CodeUnit, more: Text, s: Text, rest: Text)
    requires ParseChars(more) == Some((s, rest))
    ensures ParseChars([BACKSLASH, 0x75] + Hex4(u) + more) == Some(([u] + s, rest))
  {
    var t := [BACKSLASH, 0x75] + Hex4(u) + more;
    Hex4Parses(u, more);
    assert t[2..] == Hex4(u) + more && t[6..] == more;
  }

  lemma ShortParses(c: CodeUnit, u: CodeUnit, more: Text, s: Text, rest: Text)
    requires c != 0x75 && Unescape(c) == Some(u)
    requires ParseChars(more) == Some((s, rest))
    ensures ParseChars([BACKSLASH, c] + more) == Some(([u] + s, rest))
  {
    assert ([BACKSLASH, c] + more)[2..] == more;
  }

  lemma PlainParses(u: CodeUnit, more: Text, s: Text, rest: Text)
    requires u >= 0x20 && u != QUOTE && u != BACKSLASH
    requires ParseChars(more) == Some((s, rest))
    ensures ParseChars([u] + more) == Some(([u] + s, rest))
  {
    assert ([u] + more)[1..] == more;
  }

  lemma PairParses(high: CodeUnit, low: CodeUnit, more: Text, s: Text, rest: Text)
    requires Surrogate(high) && Surrogate(low) && ParseChars(more) == Some((s, rest))
    ensures ParseChars([high] + ([low] + more)) == Some(([high] + ([low] + s), rest))
  {
    PlainParses(low, more, s, rest);
    PlainParses(high, [low] + more, [low] + s, rest);
  }

  lemma Assoc<T>(a: seq<T>, b: seq<T>, c: seq<T>)
    ensures (a + b) + c == a + (b + c)
  {
  }

  /** Escaped text is read back in front of whatever ends the literal. */
  lemma {:induction false} EscapedParses(s: Text, tail: Text, rest: Text)
    requires ParseChars(tail) == Some(([], rest))
    ensures ParseChars(Escaped(s) + tail) == Some((s, rest))
  {
    hide ParseChars, EscapeUnit;
    if s == [] {
      assert Escaped(s) + tail == tail;
    } else if HighSurrogate(s[0]) && |s| > 1 && LowSurrogate(s[1]) {
      EscapedParses(s[2..], tail, rest);
      PairParses(s[0], s[1], Escaped(s[2..]) + tail, s[2..], rest);
      Assoc(s[..2], Escaped(s[2..]), tail);
      assert s[..2] + (Escaped(s[2..]) + tail) == [s[0]] + ([s[1]] + (Escaped(s[2..]) + tail));
      assert s == [s[0]] + ([s[1]] + s[2..]);
    } else {
      EscapedParses(s[1..], tail, rest);
      UnitParses(s[0], Escaped(s[1..]) + tail, s[1..], rest);
      Assoc(EscapeUnit(s[0]), Escaped(s[1..]), tail);
      assert s == [s[0]] + s[1..];
    }
  }

  lemma CharsParse(s: Text, rest: Text)
    ensures ParseChars(Escaped(s) + [QUOTE] + rest) == Some((s, rest))
  {
    assert ([QUOTE] + rest)[1..] == rest;
    EscapedParses(s, [QUOTE] + rest, rest);
    Assoc(Escaped(s), [QUOTE], rest);
  }

  /** What may follow a value inside canonical text. */
  predicate Delimited(rest: Text) {
    rest == [] || rest[0] == COMMA || rest[0] == RBRACKET || rest[0] == RBRACE
  }

  lemma {:induction false} RunOf(d: Text, rest: Text)
    requires forall i :: 0 <= i < |d| ==> IsDigit(d[i])
    requires Delimited(rest)
    ensures DigitRun(d + rest) == |d|
  {
    if d != [] {
      assert (d + rest)[1..] == d[1..] + rest;
      RunOf(d[1..], rest);
    } else {
      assert d + rest == rest;
    }
  }

  lemma NaturalParses(n: nat, rest: Text)
    requires Delimited(rest)
    ensures ParseNatural(Decimal(n) + rest) == Some((n, rest))
  {
    var d := Decimal(n);
    DecimalDigits(n);
    RunOf(d, rest);
    assert (d + rest)[..|d|] == d && (d + rest)[|d|..] == rest;
  }

  lemma NumberStep(t: Text, n: int, rest: Text)
    requires 0 <= n <= 0x1F_FFFF_FFFF_FFFF
    requires t != [] && t[0] != 0x2D && ParseNatural(t) == Some((n, rest))
    ensures ParseNumber(t) == Some((Num(n), rest))
    ensures ParseNumber([0x2D] + t) == Some((Num(-n), rest))
  {
    assert ([0x2D] + t)[1..] == t;
  }

  lemma SignedParses(n: SafeInt, rest: Text)
    requires Delimited(rest)
    ensures ParseNumber(SignedDecimal(n) + rest) == Some((Num(n), rest))
    ensures IsDigit(SignedDecimal(n)[0]) || SignedDecimal(n)[0] == 0x2D
  {
    var m: nat := if n < 0 then -n else n;
    DecimalDigits(m);
    NaturalParses(m, rest);
    assert (Decimal(m) + rest)[0] == Decimal(m)[0] && IsDigit(Decimal(m)[0]);
    NumberStep(Decimal(m) + rest, m, rest);
    Assoc([0x2D], Decimal(m), rest);
  }

  lemma NumberParses(n: SafeInt, rest: Text)
    requires Delimited(rest)
    ensures ParseValue(SignedDecimal(n) + rest) == Some((Num(n), rest))
  {
    SignedParses(n, rest);
    NumberStart(SignedDecimal(n) + rest);
  }

  lemma NumberStart(t: Text)
    requires t != [] && (IsDigit(t[0]) || t[0] == 0x2D)
    ensures ParseValue(t) == ParseNumber(t)
  {
    assert SkipSpace(t) == t;
    assert NULL[0] == 0x6E && TRUE[0] == 0x74 && FALSE[0] == 0x66;
  }

  lemma LiteralParses(v: Value, t: Text, rest: Text)
    requires v.Null? || v.Bool?
    requires Canonicalize(v) == Some(t)
    ensures ParseValue(t + rest) == Some((v, rest))
  {
    var u := t + rest;
    assert SkipSpace(u) == u;
    assert t <= u && u[|t|..] == rest;
  }

  lemma StringParses(s: Text, rest: Text)
    ensures ParseValue(Quote(s) + rest) == Some((Str(s), rest))
  {
    var t := Quote(s) + rest;
    assert t[1..] == Escaped(s) + [QUOTE] + rest;
    CharsParse(s, rest);
    assert SkipSpace(t) == t;
  }

  // ---- Round trip ------------------------------------------------------------------------------

  /** Printed text begins with something the parser does not skip or take for a closing bracket. */
  lemma PrintedStart(v: Value, t: Text)
    requires Canonicalize(v) == Some(t)
    ensures t != [] && t[0] != RBRACKET && t[0] != RBRACE && t[0] != COMMA
    ensures t[0] != 0x20 && t[0] != 0x09 && t[0] != 0x0A && t[0] != 0x0D
  {
    if v.Num? {
      var m: nat := if v.n < 0 then -v.n else v.n;
      DecimalDigits(m);
      assert IsDigit(Decimal(m)[0]);
    }
  }

  /** What the parser makes of printed text, wherever that text stands. */
  lemma {:induction false} PrintedParses(v: Value, t: Text, rest: Text)
    requires Valid(v) && Canonicalize(v) == Some(t) && Delimited(rest)
    ensures ParseValue(t + rest) == Some((Normal(v), rest))
    decreases v, 2
  {
    match v
    case Null => LiteralParses(v, t, rest);
    case Bool(_) => LiteralParses(v, t, rest);
    case Num(n) => NumberParses(n, rest);
    case Str(s) => StringParses(s, rest);
    case Arr(items) => ArrayParses(v, t, rest);
    case Obj(ms) => ObjectParses(v, t, rest);
  }

  lemma {:induction false} ArrayParses(v: Value, t: Text, rest: Text)
    requires v.Arr? && Valid(v) && Canonicalize(v) == Some(t)
    ensures ParseValue(t + rest) == Some((Normal(v), rest))
    decreases v, 1
  {
    var items := v.items;
    var body := PrintItems(items).value;
    var after := body + [RBRACKET] + rest;
    assert t + rest == [LBRACKET] + after;
    if items == [] {
      assert after[1..] == rest;
    } else {
      ItemsStart(items, body);
      ItemsParse(items, body, rest, []);
      assert [] + NormalItems(items) == NormalItems(items);
    }
    BracketStep(after, LBRACKET);
  }

  lemma {:induction false} ObjectParses(v: Value, t: Text, rest: Text)
    requires v.Obj? && Valid(v) && Canonicalize(v) == Some(t)
    ensures ParseValue(t + rest) == Some((Normal(v), rest))
    decreases v, 1
  {
    var ms := Ordered(v.members);
    var body := PrintMembers(v, ms).value;
    var after := body + [RBRACE] + rest;
    EnclosedText(LBRACE, body, RBRACE, rest);
    OrderedIncreasing(v.members);
    IncreasingDistinct(ms);
    ObjectBody(v, ms, body, rest);
    BracketStep(after, LBRACE);
  }

  lemma EnclosedText(open: CodeUnit, body: Text, close: CodeUnit, rest: Text)
    ensures [open] + body + [close] + rest == [open] + (body + [close] + rest)
  {
  }

  lemma ObjectBody(owner: Value, ms: seq<Member>, body: Text, rest: Text)
    requires forall m | m in ms :: m.value < owner && Valid(m.value)
    requires DistinctKeys(ms) && PrintMembers(owner, ms) == Some(body)
    ensures var after := body + [RBRACE] + rest;
            && after != [] && SkipSpace(after) == after
            && (after[0] == RBRACE <==> ms == [])
            && (ms == [] ==> after[1..] == rest)
            && (ms != [] ==> ParseMembers(after, []) == Some((Obj(NormalMembers(owner, ms)), rest)))
    decreases owner, 0, |ms| + 1
  {
    if ms == [] {
      assert body + [RBRACE] + rest == [RBRACE] + rest;
    } else {
      MembersStart(owner, ms, body, rest);
      MembersParse(owner, ms, body, rest, []);
      assert [] + NormalMembers(owner, ms) == NormalMembers(owner, ms);
    }
  }

  lemma MembersStart(owner: Value, ms: seq<Member>, body: Text, rest: Text)
    requires forall m | m in ms :: m.value < owner
    requires ms != [] && PrintMembers(owner, ms) == Some(body)
    ensures var after := body + [RBRACE] + rest;
            after != [] && after[0] == QUOTE && SkipSpace(after) == after
  {
    assert Quote(ms[0].key)[0] == QUOTE && body[0] == QUOTE;
  }

  /** The parser's step over an opening bracket. */
  lemma BracketStep(after: Text, open: CodeUnit)
    requires after != [] && SkipSpace(after) == after
    requires open == LBRACKET || open == LBRACE
    ensures open == LBRACKET && after[0] == RBRACKET ==> ParseValue([open] + after) == Some((Arr([]), after[1..]))
    ensures open == LBRACKET && after[0] != RBRACKET ==> ParseValue([open] + after) == ParseItems(after, [])
    ensures open == LBRACE && after[0] == RBRACE ==> ParseValue([open] + after) == Some((Obj([]), after[1..]))
    ensures open == LBRACE && after[0] != RBRACE ==> ParseValue([open] + after) == ParseMembers(after, [])
  {
    var t := [open] + after;
    assert SkipSpace(t) == t && t[1..] == after;
  }

  lemma ItemsStart(items: seq<Value>, body: Text)
    requires items != [] && PrintItems(items) == Some(body)
    ensures body != [] && body[0] != RBRACKET
    ensures body[0] != 0x20 && body[0] != 0x09 && body[0] != 0x0A && body[0] != 0x0D
  {
    if !items[0].Undefined? {
      PrintedStart(items[0], Canonicalize(items[0]).value);
    }
  }

  /** The parser's step over one array element. */
  lemma ItemStep(t: Text, v: Value, next: Text, read: seq<Value>)
    requires ParseValue(t) == Some((v, next)) && next != []
    ensures next[0] == COMMA ==> ParseItems(t, read) == ParseItems(next[1..], read + [v])
    ensures next[0] == RBRACKET ==> ParseItems(t, read) == Some((Arr(read + [v]), next[1..]))
  {
    if next[0] == COMMA || next[0] == RBRACKET {
      assert SkipSpace(next) == next;
    }
  }

  lemma ItemParses(item: Value, next: Text)
    requires Valid(item) && (item.Undefined? || Canonicalize(item).Some?) && Delimited(next)
    ensures ParseValue((if item.Undefined? then NULL else Canonicalize(item).value) + next)
         == Some((if item.Undefined? then Null else Normal(item), next))
    decreases item, 3
  {
    if item.Undefined? {
      LiteralParses(Null, NULL, next);
    } else {
      PrintedParses(item, Canonicalize(item).value, next);
    }
  }

  lemma {:induction false} ItemsParse(items: seq<Value>, body: Text, rest: Text, read: seq<Value>)
    requires items != [] && PrintItems(items) == Some(body)
    requires forall x | x in items :: Valid(x)
    ensures ParseItems(body + [RBRACKET] + rest, read) == Some((Arr(read + NormalItems(items)), rest))
    decreases items
  {
    var head := if items[0].Undefined? then NULL else Canonicalize(items[0]).value;
    var tail := PrintItems(items[1..]).value;
    var item := if items[0].Undefined? then Null else Normal(items[0]);
    assert items[0] in items;
    assert NormalItems(items) == [item] + NormalItems(items[1..]);
    if |items| == 1 {
      var next := [RBRACKET] + rest;
      Assoc(head, [RBRACKET], rest);
      ItemParses(items[0], next);
      ItemStep(head + next, item, next, read);
      assert NormalItems(items) == [item] && next[1..] == rest;
    } else {
      var next := [COMMA] + (tail + [RBRACKET] + rest);
      ItemText(head, tail, rest);
      ItemParses(items[0], next);
      ItemStep(head + next, item, next, read);
      assert next[1..] == tail + [RBRACKET] + rest;
      ItemsParse(items[1..], tail, rest, read + [item]);
      Assoc(read, [item], NormalItems(items[1..]));
    }
  }

  lemma ItemText(head: Text, tail: Text, rest: Text)
    ensures (head + [COMMA] + tail) + [RBRACKET] + rest == head + ([COMMA] + (tail + [RBRACKET] + rest))
  {
  }

  lemma {:induction false} PutNew(ms: seq<Member>, m: Member)
    requires forall x | x in ms :: x.key != m.key
    ensures Put(ms, m) == ms + [m]
  {
    if ms != [] {
      assert ms[0] in ms;
      PutNew(ms[1..], m);
      assert ms + [m] == [ms[0]] + (ms[1..] + [m]);
    }
  }

  /** The parser's step over one member, from what it reads in each part. */
  lemma MemberStep(t: Text, key: Text, afterKey: Text, v: Value, next: Text, read: seq<Member>)
    requires t != [] && t[0] == QUOTE && ParseChars(t[1..]) == Some((key, afterKey))
    requires afterKey != [] && afterKey[0] == COLON && ParseValue(afterKey[1..]) == Some((v, next))
    requires next != [] && (next[0] == COMMA || next[0] == RBRACE)
    ensures next[0] == COMMA ==> ParseMembers(t, read) == ParseMembers(next[1..], Put(read, Member(key, v)))
    ensures next[0] == RBRACE ==> ParseMembers(t, read) == Some((Obj(Put(read, Member(key, v))), next[1..]))
  {
    assert SkipSpace(t) == t && SkipSpace(afterKey) == afterKey && SkipSpace(next) == next;
  }

  /** One `"key":value`, and the comma or brace after it. */
  lemma MemberParses(key: Text, v: Value, text: Text, next: Text, read: seq<Member>)
    requires ParseValue(text + next) == Some((v, next))
    requires next != [] && (next[0] == COMMA || next[0] == RBRACE)
    ensures var t := Quote(key) + [COLON] + text + next;
            && (next[0] == COMMA ==> ParseMembers(t, read) == ParseMembers(next[1..], Put(read, Member(key, v))))
            && (next[0] == RBRACE ==> ParseMembers(t, read) == Some((Obj(Put(read, Member(key, v))), next[1..])))
  {
    var afterKey := [COLON] + (text + next);
    var chars := Escaped(key) + [QUOTE] + afterKey;
    MemberText(key, text, next);
    CharsParse(key, afterKey);
    MemberStep([QUOTE] + chars, key, afterKey, v, next, read);
  }

  lemma MemberText(key: Text, text: Text, next: Text)
    ensures Quote(key) + [COLON] + text + next == [QUOTE] + (Escaped(key) + [QUOTE] + ([COLON] + (text + next)))
  {
  }

  /** What stands between one member's value and the end. */
  function AfterMember(tail: Option<Text>, rest: Text): (next: Text)
    ensures next != [] && Delimited(next) && (next[0] == COMMA || next[0] == RBRACE)
  {
    match tail
    case None => [RBRACE] + rest
    case Some(t) => [COMMA] + (t + [RBRACE] + rest)
  }

  lemma MembersText(owner: Value, ms: seq<Member>, rest: Text)
    requires forall m | m in ms :: m.value < owner
    requires ms != [] && PrintMembers(owner, ms).Some?
    ensures ms[0] in ms && Canonicalize(ms[0].value).Some? && PrintMembers(owner, ms[1..]).Some?
    ensures PrintMembers(owner, ms).value + [RBRACE] + rest
         == Quote(ms[0].key) + [COLON] + Canonicalize(ms[0].value).value
            + AfterMember(if |ms| == 1 then None else PrintMembers(owner, ms[1..]), rest)
  {
    var head := Quote(ms[0].key) + [COLON] + Canonicalize(ms[0].value).value;
    var tail := PrintMembers(owner, ms[1..]).value;
    if |ms| == 1 {
      assert PrintMembers(owner, ms).value == head;
      Assoc(head, [RBRACE], rest);
    } else {
      assert PrintMembers(owner, ms).value == head + [COMMA] + tail;
      CommaText(head, tail, rest);
    }
  }

  lemma CommaText(head: Text, tail: Text, rest: Text)
    ensures (head + [COMMA] + tail) + [RBRACE] + rest == head + ([COMMA] + (tail + [RBRACE] + rest))
  {
  }

  lemma TailKeys(ms: seq<Member>, read: seq<Member>, m0: Member)
    requires ms != [] && DistinctKeys(ms) && m0.key == ms[0].key
    requires forall x, m | x in read && m in ms :: x.key != m.key
    ensures DistinctKeys(ms[1..])
    ensures forall x, m | x in read + [m0] && m in ms[1..] :: x.key != m.key
  {
    forall m | m in ms[1..]
      ensures m in ms && m.key != m0.key
    {
      var j :| 0 <= j < |ms[1..]| && ms[1..][j] == m;
      assert ms[j + 1] == m;
    }
  }

  lemma {:induction false} MembersParse(owner: Value, ms: seq<Member>, body: Text, rest: Text, read: seq<Member>)
    requires forall m | m in ms :: m.value < owner && Valid(m.value)
    requires ms != [] && PrintMembers(owner, ms) == Some(body)
    requires DistinctKeys(ms) && forall x, m | x in read && m in ms :: x.key != m.key
    ensures ParseMembers(body + [RBRACE] + rest, read) == Some((Obj(read + NormalMembers(owner, ms)), rest))
    decreases owner, 0, |ms|
  {
    MembersText(owner, ms, rest);
    var key, value := ms[0].key, ms[0].value;
    var text := Canonicalize(value).value;
    var tail := PrintMembers(owner, ms[1..]).value;
    var next := AfterMember(if |ms| == 1 then None else Some(tail), rest);
    var m := Member(key, Normal(value));
    PrintedParses(value, text, next);
    MemberParses(key, Normal(value), text, next, read);
    PutNew(read, m);
    assert NormalMembers(owner, ms) == [m] + NormalMembers(owner, ms[1..]);
    if |ms| == 1 {
      assert next[1..] == rest && NormalMembers(owner, ms) == [m];
    } else {
      assert next[1..] == tail + [RBRACE] + rest;
      TailKeys(ms, read, m);
      MembersParse(owner, ms[1..], tail, rest, read + [m]);
      Assoc(read, [m], NormalMembers(owner, ms[1..]));
    }
  }

  /** Parsing canonical text gives the value back, sorted and without its undefined members. */
  lemma RoundTrip(v: Value)
    requires Valid(v) && Encodable(v)
    ensures Canonicalize(v).Some?
    ensures Parse(Canonicalize(v).value) == Some(Normal(v))
  {
    PrintsIffEncodable(v);
    var t := Canonicalize(v).value;
    PrintedParses(v, t, []);
    assert t + [] == t;
  }

  /** The source throws exactly when the value is, or keeps, something JSON cannot carry. */
  lemma {:induction false} PrintsIffEncodable(v: Value)
    ensures Canonicalize(v).Some? <==> Encodable(v)
    decreases v
  {
    match v
    case Arr(items) => ItemsPrint(items);
    case Obj(ms) =>
      MembersPrint(v, Ordered(ms));
      if !Encodable(v) {
        var m :| m in ms && !m.value.Undefined? && !Encodable(m.value);
        assert m in Ordered(ms);
      }
    case _ =>
  }

  lemma {:induction false} ItemsPrint(items: seq<Value>)
    ensures PrintItems(items).Some? <==> forall x | x in items :: x.Undefined? || Encodable(x)
    decreases items
  {
    if items != [] {
      PrintsIffEncodable(items[0]);
      ItemsPrint(items[1..]);
      assert forall x :: x in items <==> x == items[0] || x in items[1..];
    }
  }

  lemma {:induction false} MembersPrint(owner: Value, ms: seq<Member>)
    requires forall m | m in ms :: m.value < owner
    ensures PrintMembers(owner, ms).Some? <==> forall m | m in ms :: Encodable(m.value)
    decreases owner, |ms|
  {
    if ms != [] {
      assert ms[0] in ms;
      PrintsIffEncodable(ms[0].value);
      MembersPrint(owner, ms[1..]);
      assert forall x :: x in ms <==> x == ms[0] || x in ms[1..];
    }
  }
}
