// The provider adapter's own canonicalJson, which hashes fixtures, against the signing printer.
module AdapterJson {
  import opened Outcomes
  import opened Utf16
  import opened Json
  import opened JsonLaws

  const UNDEFINED := Ascii("undefined")

  /**
   * `canonicalJson`. None is the JavaScript value undefined, which is what JSON.stringify returns
   * for one: a join writes it as nothing, a template literal as its name.
   */
  function AdapterText(v: Value): (r: Option<Text>)
    decreases v
  {
    match v
    case Arr(items) => Some([LBRACKET] + AdapterItems(items) + [RBRACKET])
    case Obj(ms) => Some([LBRACE] + AdapterMembers(v, Sort(ms)) + [RBRACE])
    case _ => Canonicalize(v)
  }

  function AdapterItems(items: seq<Value>): (t: Text)
    decreases items
  {
    if items == [] then []
    else
      var head := match AdapterText(items[0]) { case Some(t) => t case None => [] };
      if |items| == 1 then head else head + [COMMA] + AdapterItems(items[1..])
  }

  function AdapterMembers(owner: Value, ms: seq<Member>): (t: Text)
    requires forall m | m in ms :: m.value < owner
    decreases owner, |ms|
  {
    if ms == [] then []
    else
      var text := match AdapterText(ms[0].value) { case Some(t) => t case None => UNDEFINED };
      var head := Quote(ms[0].key) + [COLON] + text;
      if |ms| == 1 then head else head + [COMMA] + AdapterMembers(owner, ms[1..])
  }

  /** Nothing undefined at any depth, as in anything JSON.parse returns. */
  predicate Defined(v: Value) {
    match v
    case Undefined => false
    case Arr(items) => forall x | x in items :: Defined(x)
    case Obj(ms) => forall m | m in ms :: Defined(m.value)
    case _ => true
  }

  /** Where they part: an undefined member is written by that name, and an undefined item as nothing. */
  lemma AdapterUndefined(key: Text)
    ensures AdapterText(Obj([Member(key, Undefined)])) == Some(Ascii("{") + Quote(key) + Ascii(":undefined}"))
    ensures AdapterText(Arr([Undefined])) == Some(Ascii("[]"))
  {
    var ms := [Member(key, Undefined)];
    UndefinedMark();
    OrderedOne(ms[0]);
    var one := Quote(key) + [COLON] + UNDEFINED;
    assert AdapterText(Undefined) == None;
    assert AdapterMembers(Obj(ms), ms) == one;
    assert [LBRACE] + one + [RBRACE] == [LBRACE] + Quote(key) + ([COLON] + UNDEFINED + [RBRACE]);
    assert AdapterItems([Undefined]) == [];
    assert [LBRACKET] + [] + [RBRACKET] == [LBRACKET, RBRACKET];
  }

  lemma UndefinedMark()
    ensures Ascii("{") == [LBRACE] && Ascii(":undefined}") == [COLON] + UNDEFINED + [RBRACE]
    ensures Ascii("[]") == [LBRACKET, RBRACKET]
  {
  }

  lemma OrderedOne(m: Member)
    ensures Sort([m]) == [m]
  {
    assert [m][1..] == [];
  }

  /** On values with nothing undefined the two printers write the same text. */
  lemma {:induction false} AdapterAgrees(v: Value)
    requires Defined(v) && Encodable(v)
    ensures AdapterText(v) == Canonicalize(v) && AdapterText(v).Some?
    decreases v
  {
    match v
    case Arr(items) => ItemsAgree(items);
    case Obj(ms) =>
      PresentFixed(Sort(ms));
      MembersAgree(v, Sort(ms));
    case _ =>
  }

  lemma {:induction false} ItemsAgree(items: seq<Value>)
    requires forall x | x in items :: Defined(x) && Encodable(x)
    ensures PrintItems(items) == Some(AdapterItems(items))
    decreases items
  {
    if items != [] {
      assert items[0] in items;
      AdapterAgrees(items[0]);
      ItemsAgree(items[1..]);
    }
  }

  lemma {:induction false} MembersAgree(owner: Value, ms: seq<Member>)
    requires forall m | m in ms :: m.value < owner && Defined(m.value) && Encodable(m.value)
    ensures PrintMembers(owner, ms) == Some(AdapterMembers(owner, ms))
    decreases owner, |ms|
  {
    if ms != [] {
      assert ms[0] in ms;
      AdapterAgrees(ms[0].value);
      MembersAgree(owner, ms[1..]);
    }
  }

  // ---- Where they part ---------------------------------------------------------------------------

  /** The texts differ at a place both reach, so neither is the beginning of the other. */
  predicate Diverge(a: Text, b: Text) {
    exists i :: 0 <= i < |a| && i < |b| && a[i] != b[i]
  }

  lemma PrefixDiverge(before: Text, a: Text, b: Text)
    requires Diverge(a, b)
    ensures Diverge(before + a, before + b)
  {
    var i :| 0 <= i < |a| && i < |b| && a[i] != b[i];
    assert (before + a)[|before| + i] == a[i] && (before + b)[|before| + i] == b[i];
  }

  lemma SuffixDiverge(a: Text, b: Text, afterA: Text, afterB: Text)
    requires Diverge(a, b)
    ensures Diverge(a + afterA, b + afterB)
  {
    var i :| 0 <= i < |a| && i < |b| && a[i] != b[i];
    assert (a + afterA)[i] == a[i] && (b + afterB)[i] == b[i];
  }

  /** What follows the first of a list in either text. */
  function Following(tail: Text, more: bool, close: CodeUnit): (t: Text)
    ensures t != [] && t[0] == if more then COMMA else close
  {
    (if more then [COMMA] + tail else []) + [close]
  }

  lemma FollowingText(head: Text, tail: Text, close: CodeUnit)
    ensures (head + [COMMA] + tail) + [close] == head + Following(tail, true, close)
    ensures head + [close] == head + Following(tail, false, close)
  {
  }

  lemma FollowingDiverge(a: Text, b: Text, close: CodeUnit)
    requires Diverge(a + [close], b + [close])
    ensures Diverge(Following(a, true, close), Following(b, true, close))
  {
    PrefixDiverge([COMMA], a + [close], b + [close]);
    assert [COMMA] + (a + [close]) == Following(a, true, close);
    assert [COMMA] + (b + [close]) == Following(b, true, close);
  }

  /** A string literal ends itself, so two different ones part before either ends. */
  lemma QuotesDiverge(j: Text, k: Text)
    requires j != k
    ensures Diverge(Quote(j), Quote(k))
  {
    if !Diverge(Quote(j), Quote(k)) {
      if |Quote(j)| <= |Quote(k)| { NoQuoteBegins(j, k); } else { NoQuoteBegins(k, j); }
    }
  }

  lemma NoQuoteBegins(j: Text, k: Text)
    requires |Quote(j)| <= |Quote(k)| && forall i :: 0 <= i < |Quote(j)| ==> Quote(j)[i] == Quote(k)[i]
    ensures j == k
  {
    hide Escaped, ParseChars;
    var rest := Quote(k)[|Quote(j)|..];
    assert Quote(k) == Quote(j) + rest;
    CharsParse(j, rest);
    CharsParse(k, []);
    AfterQuote(j, rest);
    AfterQuote(k, []);
    assert Quote(k) + [] == Quote(k);
  }

  lemma AfterQuote(s: Text, rest: Text)
    ensures (Quote(s) + rest)[1..] == Escaped(s) + [QUOTE] + rest
  {
    hide Escaped;
  }

  lemma {:induction false} UndefinedParts(v: Value)
    requires Valid(v) && Encodable(v) && !Defined(v)
    ensures AdapterText(v).Some? && Canonicalize(v).Some?
    ensures Diverge(AdapterText(v).value, Canonicalize(v).value)
    decreases v
  {
    PrintsIffEncodable(v);
    match v
    case Arr(items) =>
      ItemsPart(items);
      Enclosed([LBRACKET], AdapterItems(items), PrintItems(items).value, [RBRACKET]);
    case Obj(ms) =>
      SortIncreasing(ms);
      MembersPart(v, Sort(ms));
      Enclosed([LBRACE], AdapterMembers(v, Sort(ms)), PrintMembers(v, Ordered(ms)).value, [RBRACE]);
  }

  lemma Enclosed(open: Text, a: Text, b: Text, close: Text)
    requires Diverge(a + close, b + close)
    ensures Diverge(open + a + close, open + b + close)
  {
    PrefixDiverge(open, a + close, b + close);
    assert open + (a + close) == open + a + close && open + (b + close) == open + b + close;
  }

  /** Either text of a list of items, taken apart after the first. */
  lemma ItemsText(items: seq<Value>)
    requires items != [] && PrintItems(items).Some?
    ensures PrintItems(items[1..]).Some? && (items[0].Undefined? || Canonicalize(items[0]).Some?)
    ensures AdapterItems(items) + [RBRACKET]
         == (match AdapterText(items[0]) { case Some(t) => t case None => [] })
            + Following(AdapterItems(items[1..]), |items| > 1, RBRACKET)
    ensures PrintItems(items).value + [RBRACKET]
         == (if items[0].Undefined? then NULL else Canonicalize(items[0]).value)
            + Following(PrintItems(items[1..]).value, |items| > 1, RBRACKET)
  {
    hide Following;
    var headA := match AdapterText(items[0]) { case Some(t) => t case None => [] };
    var headB := if items[0].Undefined? then NULL else Canonicalize(items[0]).value;
    FollowingText(headA, AdapterItems(items[1..]), RBRACKET);
    FollowingText(headB, PrintItems(items[1..]).value, RBRACKET);
  }

  lemma {:induction false} ItemsPart(items: seq<Value>)
    requires forall x | x in items :: Valid(x) && (x.Undefined? || Encodable(x))
    requires exists x :: x in items && !Defined(x)
    ensures PrintItems(items).Some?
    ensures Diverge(AdapterItems(items) + [RBRACKET], PrintItems(items).value + [RBRACKET])
    decreases items
  {
    hide Canonicalize, Diverge, Following, PrintItems, AdapterItems, Valid, Encodable;
    ItemsPrint(items);
    ItemsText(items);
    assert items[0] in items;
    var more := |items| > 1;
    var tailA, tailB := AdapterItems(items[1..]), PrintItems(items[1..]).value;
    var restA, restB := Following(tailA, more, RBRACKET), Following(tailB, more, RBRACKET);
    if items[0].Undefined? {
      UndefinedItem(restA, restB);
    } else if Defined(items[0]) {
      AdapterAgrees(items[0]);
      LaterItem(items);
      ItemsPart(items[1..]);
      FollowingDiverge(tailA, tailB, RBRACKET);
      PrefixDiverge(Canonicalize(items[0]).value, restA, restB);
    } else {
      UndefinedParts(items[0]);
      SuffixDiverge(AdapterText(items[0]).value, Canonicalize(items[0]).value, restA, restB);
    }
  }

  lemma UndefinedItem(restA: Text, restB: Text)
    requires restA != [] && (restA[0] == COMMA || restA[0] == RBRACKET)
    ensures AdapterText(Undefined).None?
    ensures Diverge([] + restA, NULL + restB)
  {
    assert ([] + restA)[0] == restA[0] && (NULL + restB)[0] == NULL[0];
  }

  lemma LaterItem(items: seq<Value>)
    requires items != [] && Defined(items[0]) && exists x :: x in items && !Defined(x)
    ensures |items| > 1 && exists x :: x in items[1..] && !Defined(x)
  {
    hide Defined;
    var x :| x in items && !Defined(x);
    assert x in items[1..];
  }

  /** Either text of a list of members, taken apart after the first, when both write that one. */
  lemma BothMembersText(owner: Value, ms: seq<Member>)
    requires forall m | m in ms :: m.value < owner
    requires ms != [] && !ms[0].value.Undefined? && PrintMembers(owner, Present(ms)).Some?
    ensures PrintMembers(owner, Present(ms[1..])).Some? && Canonicalize(ms[0].value).Some?
    ensures AdapterMembers(owner, ms) + [RBRACE]
         == (Quote(ms[0].key) + [COLON]
             + (match AdapterText(ms[0].value) { case Some(t) => t case None => UNDEFINED }))
            + Following(AdapterMembers(owner, ms[1..]), ms[1..] != [], RBRACE)
    ensures PrintMembers(owner, Present(ms)).value + [RBRACE]
         == (Quote(ms[0].key) + [COLON] + Canonicalize(ms[0].value).value)
            + Following(PrintMembers(owner, Present(ms[1..])).value, Present(ms[1..]) != [], RBRACE)
  {
    hide Following, Quote, Canonicalize, AdapterText;
    var kept := Present(ms[1..]);
    assert Present(ms) == [ms[0]] + kept && Present(ms)[1..] == kept;
    var head := Quote(ms[0].key) + [COLON];
    var text := match AdapterText(ms[0].value) { case Some(t) => t case None => UNDEFINED };
    FollowingText(head + text, AdapterMembers(owner, ms[1..]), RBRACE);
    FollowingText(head + Canonicalize(ms[0].value).value, PrintMembers(owner, kept).value, RBRACE);
  }

  lemma {:induction false} MembersPart(owner: Value, ms: seq<Member>)
    requires forall m | m in ms :: m.value < owner && Valid(m.value) && (m.value.Undefined? || Encodable(m.value))
    requires Increasing(ms) && exists m :: m in ms && !Defined(m.value)
    ensures PrintMembers(owner, Present(ms)).Some?
    ensures Diverge(AdapterMembers(owner, ms) + [RBRACE], PrintMembers(owner, Present(ms)).value + [RBRACE])
    decreases owner, |ms|
  {
    hide Canonicalize, Diverge, Following, PrintMembers, AdapterMembers, Valid, Encodable, Quote, Before;
    MembersPrint(owner, Present(ms));
    MembersPrint(owner, Present(ms[1..]));
    assert ms[0] in ms;
    if ms[0].value.Undefined? {
      assert Present(ms) == Present(ms[1..]);
      OmittedParts(owner, ms);
    } else {
      BothMembersText(owner, ms);
      var head := Quote(ms[0].key) + [COLON];
      var textB := Canonicalize(ms[0].value).value;
      var tailA, tailB := AdapterMembers(owner, ms[1..]), PrintMembers(owner, Present(ms[1..])).value;
      var restA := Following(tailA, ms[1..] != [], RBRACE);
      var restB := Following(tailB, Present(ms[1..]) != [], RBRACE);
      if Defined(ms[0].value) {
        AdapterAgrees(ms[0].value);
        LaterMember(ms);
        if Present(ms[1..]) == [] {
          HeadsDiverge(restA, restB);
        } else {
          MembersPart(owner, ms[1..]);
          FollowingDiverge(tailA, tailB, RBRACE);
        }
        PrefixDiverge(head + textB, restA, restB);
      } else {
        UndefinedParts(ms[0].value);
        var textA := AdapterText(ms[0].value).value;
        PrefixDiverge(head, textA, textB);
        SuffixDiverge(head + textA, head + textB, restA, restB);
      }
    }
  }

  lemma HeadsDiverge(a: Text, b: Text)
    requires a != [] && b != [] && a[0] != b[0]
    ensures Diverge(a, b)
  {
  }

  lemma LaterMember(ms: seq<Member>)
    requires ms != [] && Defined(ms[0].value) && Increasing(ms) && exists m :: m in ms && !Defined(m.value)
    ensures |ms| > 1 && Increasing(ms[1..]) && exists m :: m in ms[1..] && !Defined(m.value)
  {
    hide Defined;
    var m :| m in ms && !Defined(m.value);
    assert m in ms[1..];
  }

  /** The adapter writes the key of an undefined member where the canonical text has another key, or ends. */
  lemma OmittedParts(owner: Value, ms: seq<Member>)
    requires forall m | m in ms :: m.value < owner
    requires Increasing(ms) && ms != [] && ms[0].value.Undefined? && PrintMembers(owner, Present(ms[1..])).Some?
    ensures Diverge(AdapterMembers(owner, ms) + [RBRACE], PrintMembers(owner, Present(ms[1..])).value + [RBRACE])
  {
    hide Diverge, AdapterMembers, PrintMembers, Quote;
    var key, kept := ms[0].key, Present(ms[1..]);
    var a, b := AdapterMembers(owner, ms) + [RBRACE], PrintMembers(owner, kept).value + [RBRACE];
    AdapterStart(owner, ms);
    if kept == [] {
      EmptyPrint(owner);
      HeadsDiverge(a, b);
    } else {
      PrintStart(owner, kept);
      OtherKey(ms, kept[0]);
      QuotesDiverge(key, kept[0].key);
      var i, j := |Quote(key)|, |Quote(kept[0].key)|;
      SuffixDiverge(Quote(key), Quote(kept[0].key), a[i..], b[j..]);
      assert Quote(key) + a[i..] == a && Quote(kept[0].key) + b[j..] == b;
    }
  }

  lemma AdapterStart(owner: Value, ms: seq<Member>)
    requires ms != [] && forall m | m in ms :: m.value < owner
    ensures Quote(ms[0].key) <= AdapterMembers(owner, ms) + [RBRACE]
    ensures (AdapterMembers(owner, ms) + [RBRACE])[0] == QUOTE
  {
    hide AdapterText, Escaped;
  }

  lemma EmptyPrint(owner: Value)
    ensures PrintMembers(owner, []).value + [RBRACE] == [RBRACE]
  {
  }

  lemma PrintStart(owner: Value, ms: seq<Member>)
    requires ms != [] && (forall m | m in ms :: m.value < owner) && PrintMembers(owner, ms).Some?
    ensures Quote(ms[0].key) <= PrintMembers(owner, ms).value + [RBRACE]
  {
    hide Canonicalize, Quote;
  }

  lemma OtherKey(ms: seq<Member>, m: Member)
    requires ms != [] && Increasing(ms) && m in ms[1..]
    ensures m.key != ms[0].key
  {
    var j :| 0 <= j < |ms[1..]| && ms[1..][j] == m;
    assert Before(ms[0].key, ms[j + 1].key);
    BeforeIrreflexive(ms[0].key);
  }

  /** The two printers write the same text exactly when nothing is undefined at any depth. */
  lemma AdapterAgreesExactlyWhen(v: Value)
    requires Valid(v) && Encodable(v)
    ensures AdapterText(v) == Canonicalize(v) <==> Defined(v)
  {
    if Defined(v) {
      AdapterAgrees(v);
    } else {
      UndefinedParts(v);
    }
  }
}
