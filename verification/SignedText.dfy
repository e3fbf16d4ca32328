// The signed text, byte for byte: every member written out in its place.
module SignedText {
  import opened Outcomes
  import opened Utf16
  import opened Numerals
  import opened Json
  import opened JsonLaws
  import opened JsonMeaning
  import opened Payload
  import opened Transactions
  import opened Intents

  /** `parts.join(",")`. */
  function Join(parts: seq<Text>): (t: Text) {
    if parts == [] then []
    else if |parts| == 1 then parts[0]
    else parts[0] + Ascii(",") + Join(parts[1..])
  }

  function Braced(parts: seq<Text>): (t: Text) {
    Ascii("{") + Join(parts) + Ascii("}")
  }

  /** A member under a plain name. */
  function Named(name: string, text: Text): (t: Text) {
    Ascii("\"") + Ascii(name) + Ascii("\":") + text
  }

  // ---- Printing an object is joining its members ---------------------------------------------------------

  function Entry(m: Member): (t: Text)
    requires Canonicalize(m.value).Some?
  {
    Quote(m.key) + [COLON] + Canonicalize(m.value).value
  }

  function Entries(ms: seq<Member>): (ts: seq<Text>)
    requires forall m | m in ms :: Canonicalize(m.value).Some?
    ensures |ts| == |ms|
    ensures forall i :: 0 <= i < |ms| ==> ts[i] == Entry(ms[i])
  {
    if ms == [] then [] else [Entry(ms[0])] + Entries(ms[1..])
  }

  lemma {:induction false} MembersJoined(owner: Value, ms: seq<Member>)
    requires forall m | m in ms :: m.value < owner && Canonicalize(m.value).Some?
    ensures PrintMembers(owner, ms) == Some(Join(Entries(ms)))
    decreases |ms|
  {
    if ms != [] {
      assert Ascii(",") == [COMMA];
      hide Ascii, Canonicalize, Quote;
      MembersJoined(owner, ms[1..]);
      assert Entries(ms)[1..] == Entries(ms[1..]);
      assert ms[0] in ms;
      assert |ms| == 1 ==> ms[1..] == [];
    }
  }

  lemma ObjectJoined(ms: seq<Member>, sorted: seq<Member>)
    requires Ordered(ms) == sorted && forall m | m in sorted :: Canonicalize(m.value).Some?
    ensures Canonicalize(Obj(ms)) == Some(Braced(Entries(sorted)))
  {
    assert Ascii("{") == [LBRACE] && Ascii("}") == [RBRACE];
    hide Ascii, Ordered, Quote, Join;
    MembersJoined(Obj(ms), Ordered(ms));
  }

  /** Sorting by name: the same members, in increasing order, are what sorting gives. */
  lemma OrderedAs(ms: seq<Member>, sorted: seq<Member>)
    requires DistinctKeys(ms) && Increasing(sorted)
    requires forall m :: m in sorted <==> m in ms && !m.value.Undefined?
    ensures Ordered(ms) == sorted
  {
    hide Ordered;
    var ordered := Ordered(ms);
    OrderedIncreasing(ms);
    IncreasingUnique(ordered, sorted);
    forall i | 0 <= i < |sorted|
      ensures ordered[i] == sorted[i]
    {
      assert ordered[i] in ms && sorted[i] in ms;
    }
  }

  /** Neighbours in order are enough. */
  lemma {:induction false} NeighboursIncrease(ms: seq<Member>)
    requires forall i :: 0 < i < |ms| ==> Before(ms[i - 1].key, ms[i].key)
    ensures Increasing(ms)
  {
    if |ms| > 1 {
      NeighboursIncrease(ms[1..]);
      forall j | 0 < j < |ms|
        ensures Before(ms[0].key, ms[j].key)
      {
        assert ms[j].key == ms[1..][j - 1].key;
        if j > 1 {
          assert Before(ms[1..][0].key, ms[1..][j - 1].key);
          BeforeTransitive(ms[0].key, ms[1].key, ms[j].key);
        }
      }
      forall i, j | 0 < i < j < |ms|
        ensures Before(ms[i].key, ms[j].key)
      {
        assert ms[i] == ms[1..][i - 1] && ms[j] == ms[1..][j - 1];
      }
    }
  }

  /** Units that are written as they are. */
  predicate Plain(t: Text) {
    forall i :: 0 <= i < |t| ==> 0x20 <= t[i] < 0x7F && t[i] != 0x22 && t[i] != 0x5C
  }

  lemma {:induction false} PlainEscaped(t: Text)
    requires Plain(t)
    ensures Escaped(t) == t
  {
    if t != [] {
      PlainEscaped(t[1..]);
      assert t == [t[0]] + t[1..];
    }
  }

  /** Plain text is quoted as it is. */
  lemma PlainQuoted(t: Text)
    requires Plain(t)
    ensures Quote(t) == Ascii("\"") + t + Ascii("\"")
  {
    PlainEscaped(t);
    assert Ascii("\"") == [QUOTE];
  }

  lemma NamedEntry(name: string, v: Value, text: Text)
    requires Plain(Ascii(name)) && Canonicalize(v) == Some(text)
    ensures Entry(Member(Ascii(name), v)) == Named(name, text)
  {
    assert Ascii("\":") == Ascii("\"") + [COLON] by { assert Ascii("\"") == [QUOTE]; }
    hide Canonicalize, Ascii, Plain, Quote;
    PlainQuoted(Ascii(name));
    var q := Ascii("\"");
    assert (q + Ascii(name) + q) + [COLON] + text == q + Ascii(name) + (q + [COLON]) + text;
  }

  /** Every other value is written as the language writes it; undefined items of an array are null. */
  function ItemText(v: Value): (t: Text)
    requires v.Undefined? || Canonicalize(v).Some?
  {
    if v.Undefined? then Ascii("null") else Canonicalize(v).value
  }

  function ItemTexts(items: seq<Value>): (ts: seq<Text>)
    requires forall v | v in items :: v.Undefined? || Canonicalize(v).Some?
    ensures |ts| == |items|
    ensures forall i :: 0 <= i < |items| ==> ts[i] == ItemText(items[i])
  {
    if items == [] then [] else [ItemText(items[0])] + ItemTexts(items[1..])
  }

  lemma {:induction false} ItemsJoined(items: seq<Value>)
    requires forall v | v in items :: v.Undefined? || Canonicalize(v).Some?
    ensures PrintItems(items) == Some(Join(ItemTexts(items)))
    decreases |items|
  {
    if items != [] {
      assert Ascii(",") == [COMMA] && Ascii("null") == NULL;
      hide Ascii, Canonicalize;
      ItemsJoined(items[1..]);
      assert ItemTexts(items)[1..] == ItemTexts(items[1..]);
      assert items[0] in items;
      assert |items| == 1 ==> items[1..] == [];
    }
  }

  /** An array is its items between brackets, with commas between them. */
  lemma ArrayTextIs(items: seq<Value>)
    requires forall v | v in items :: v.Undefined? || Canonicalize(v).Some?
    ensures Canonicalize(Arr(items)) == Some(Ascii("[") + Join(ItemTexts(items)) + Ascii("]"))
  {
    assert Ascii("[") == [LBRACKET] && Ascii("]") == [RBRACKET];
    hide Ascii, Join;
    ItemsJoined(items);
  }

  lemma LiteralTexts()
    ensures Canonicalize(Null) == Some(Ascii("null"))
    ensures Canonicalize(Bool(true)) == Some(Ascii("true")) && Canonicalize(Bool(false)) == Some(Ascii("false"))
  {
    assert Ascii("null") == NULL && Ascii("true") == TRUE && Ascii("false") == FALSE;
  }

  /** A decimal numeral of n: no leading zeros, and a sign if it is negative. */
  ghost predicate IsNumeral(t: Text, n: int) {
    exists d :: t == (if n < 0 then Ascii("-") + d else d) && (d != [] && d[0] == '0' as int ==> |d| == 1)
      && Writes(d, 10, if n < 0 then -n else n)
  }

  lemma NumberTextIs(n: SafeInt)
    ensures Canonicalize(Num(n)).Some? && IsNumeral(Canonicalize(Num(n)).value, n)
  {
    var m: nat := if n < 0 then -n else n;
    assert Ascii("-") == [0x2D];
    hide Ascii, ValueOf, AllDigits;
    DecimalDigits(m);
    assert Writes(Decimal(m), 10, m);
  }

  // ---- The payload ------------------------------------------------------------------------------------------

  /** What is written for a body: an empty one as the empty string. */
  function BodyText(body: Value): (t: Option<Text>) {
    if body == Obj([]) || body == Arr([]) then Some(Ascii("\"\"")) else Canonicalize(body)
  }

  lemma BodyTextIs(body: Value)
    ensures BodyText(body) == Canonicalize(SignedBody(body))
  {
    assert Ascii("\"\"") == [QUOTE] + [] + [QUOTE];
  }

  lemma PayloadKeyOrder()
    ensures Before(KEY_BODY, KEY_HEADERS) && Before(KEY_HEADERS, KEY_INTENT_ID) && Before(KEY_INTENT_ID, KEY_METHOD)
    ensures Before(KEY_METHOD, KEY_TIMESTAMP) && Before(KEY_TIMESTAMP, KEY_URL) && Before(KEY_URL, KEY_VERSION)
  {
    assert KEY_BODY[0] == 'b' as int && KEY_HEADERS[0] == 'h' as int && KEY_INTENT_ID[0] == 'i' as int;
    assert KEY_METHOD[0] == 'm' as int && KEY_TIMESTAMP[0] == 't' as int && KEY_URL[0] == 'u' as int;
    assert KEY_VERSION[0] == 'v' as int;
  }

  /** The members beside the body, in their order. */
  function OtherMembers(intentId: Text, request: RequestDetails, appId: Text, timestamp: SafeInt): (ms: seq<Member>) {
    [ Member(KEY_HEADERS, Headers(appId)), Member(KEY_INTENT_ID, Str(intentId)),
      Member(KEY_METHOD, Str(request.verb)), Member(KEY_TIMESTAMP, Num(timestamp)),
      Member(KEY_URL, Str(request.url)), Member(KEY_VERSION, Num(1)) ]
  }

  lemma PayloadOrder(intentId: Text, request: RequestDetails, appId: Text, timestamp: SafeInt)
    ensures Ordered(PayloadValue(intentId, request, appId, timestamp).members)
         == (if request.body.Undefined? then [] else [Member(KEY_BODY, SignedBody(request.body))])
          + OtherMembers(intentId, request, appId, timestamp)
  {
    var v := PayloadValue(intentId, request, appId, timestamp);
    var ms := v.members;
    assert DistinctKeys(ms) by { KeysDiffer(); }
    PayloadKeyOrder();
    hide Ascii, Before, DistinctKeys, Increasing, Ordered;
    var sorted := (if request.body.Undefined? then [] else [ms[3]]) + [ms[4], ms[5], ms[1], ms[6], ms[2], ms[0]];
    NeighboursIncrease(sorted);
    OrderedAs(ms, sorted);
  }

  predicate PlainName(name: string) {
    forall c | c in name :: ' ' <= c <= '~' && c != '\"' && c != '\\'
  }

  /** A plain text as a string. */
  function Quoted(text: string): (t: Text) {
    Ascii("\"") + Ascii(text) + Ascii("\"")
  }

  lemma PlainAscii(name: string)
    requires PlainName(name)
    ensures Plain(Ascii(name)) && Canonicalize(Str(Ascii(name))) == Some(Quoted(name))
  {
    forall i | 0 <= i < |name|
      ensures 0x20 <= Ascii(name)[i] < 0x7F && Ascii(name)[i] != 0x22 && Ascii(name)[i] != 0x5C
    {
      assert name[i] in name;
    }
    PlainQuoted(Ascii(name));
  }

  lemma PlainNamed(name: string, v: Value, text: Text)
    requires PlainName(name) && Canonicalize(v) == Some(text)
    ensures Entry(Member(Ascii(name), v)) == Named(name, text)
  {
    hide Canonicalize, PlainName;
    PlainAscii(name);
    NamedEntry(name, v, text);
  }

  lemma EntriesConcat(a: seq<Member>, b: seq<Member>)
    requires forall m | m in a :: Canonicalize(m.value).Some?
    requires forall m | m in b :: Canonicalize(m.value).Some?
    ensures Entries(a + b) == Entries(a) + Entries(b)
  {
    hide Entry, Canonicalize, Entries;
  }

  lemma ScalarText()
    ensures forall s :: Canonicalize(Str(s)) == Some(Quote(s))
    ensures forall n: SafeInt :: Canonicalize(Num(n)) == Some(SignedDecimal(n))
    ensures Canonicalize(Num(1)) == Some(Ascii("1")) && Canonicalize(Num(2)) == Some(Ascii("2"))
  {
    assert SignedDecimal(1) == Decimal(1) == [0x31] && SignedDecimal(2) == Decimal(2) == [0x32];
    assert Ascii("1") == [0x31] && Ascii("2") == [0x32];
  }

  lemma HeadersText(appId: Text)
    ensures Canonicalize(Headers(appId)) == Some(Braced([Named("privy-app-id", Quote(appId))]))
  {
    hide Ascii, Named, Quote;
    var ms := [Member(Ascii("privy-app-id"), Str(appId))];
    OrderedFixed(ms);
    PlainNamed("privy-app-id", Str(appId), Quote(appId));
    ObjectJoined(ms, ms);
    assert Entries(ms) == [Named("privy-app-id", Quote(appId))];
  }

  lemma BodyPrints(body: Value)
    requires Signable(body) && !body.Undefined?
    ensures BodyText(body).Some?
  {
    PrintsIffEncodable(body);
  }

  lemma PlainPayloadNames()
    ensures PlainName("headers") && PlainName("intent_id") && PlainName("method") && PlainName("timestamp")
    ensures PlainName("url") && PlainName("version")
  {
  }

  lemma OtherEntries(intentId: Text, request: RequestDetails, appId: Text, timestamp: SafeInt)
    ensures var ms := OtherMembers(intentId, request, appId, timestamp);
            && (forall m | m in ms :: Canonicalize(m.value).Some?)
            && Entries(ms) ==
              [ Named("headers", Braced([Named("privy-app-id", Quote(appId))])),
                Named("intent_id", Quote(intentId)),
                Named("method", Quote(request.verb)),
                Named("timestamp", SignedDecimal(timestamp)),
                Named("url", Quote(request.url)),
                Named("version", Ascii("1")) ]
  {
    hide Ascii, Named, Quote, Headers, Braced, SignedDecimal, Entry, Entries, Canonicalize, PlainName;
    ScalarText();
    HeadersText(appId);
    PlainPayloadNames();
    PlainNamed("headers", Headers(appId), Braced([Named("privy-app-id", Quote(appId))]));
    PlainNamed("intent_id", Str(intentId), Quote(intentId));
    PlainNamed("method", Str(request.verb), Quote(request.verb));
    PlainNamed("timestamp", Num(timestamp), SignedDecimal(timestamp));
    PlainNamed("url", Str(request.url), Quote(request.url));
    PlainNamed("version", Num(1), Ascii("1"));
  }

  /**
   * The text an approver signs, for every intent, request, application and time: these members, in this
   * order, with nothing between them but commas. An absent body is left out.
   */
  lemma PayloadTextIs(intentId: Text, request: RequestDetails, appId: Text, timestamp: SafeInt)
    requires Signable(request.body)
    ensures request.body.Undefined? || BodyText(request.body).Some?
    ensures PayloadText(intentId, request, appId, timestamp) == Some(Braced(
      (if request.body.Undefined? then [] else [Named("body", BodyText(request.body).value)])
      + [ Named("headers", Braced([Named("privy-app-id", Quote(appId))])),
          Named("intent_id", Quote(intentId)),
          Named("method", Quote(request.verb)),
          Named("timestamp", SignedDecimal(timestamp)),
          Named("url", Quote(request.url)),
          Named("version", Ascii("1")) ]))
  {
    hide Canonicalize, Ascii, Named, Quote, Ordered, BodyText, SignedBody, Headers, Join, Signable, SignedDecimal;
    var v := PayloadValue(intentId, request, appId, timestamp);
    var body := if request.body.Undefined? then [] else [Member(KEY_BODY, SignedBody(request.body))];
    if !request.body.Undefined? {
      BodyPrints(request.body);
      BodyTextIs(request.body);
      PlainNamed("body", SignedBody(request.body), BodyText(request.body).value);
      assert Entries(body) == [Named("body", BodyText(request.body).value)];
    }
    OtherEntries(intentId, request, appId, timestamp);
    PayloadOrder(intentId, request, appId, timestamp);
    EntriesConcat(body, OtherMembers(intentId, request, appId, timestamp));
    ObjectJoined(v.members, body + OtherMembers(intentId, request, appId, timestamp));
  }

  // ---- The transaction in it ------------------------------------------------------------------------------------

  /** A hexadecimal quantity as a string. */
  function HexString(n: nat): (t: Text) {
    Ascii("\"") + Hexadecimal(n) + Ascii("\"")
  }

  lemma TransactionKeyOrder()
    ensures Before(CHAIN_ID, DATA) && Before(DATA, GAS_LIMIT) && Before(GAS_LIMIT, MAX_FEE)
    ensures Before(MAX_FEE, MAX_PRIORITY_FEE) && Before(MAX_PRIORITY_FEE, NONCE) && Before(NONCE, TO)
    ensures Before(TO, TYPE) && Before(TYPE, VALUE)
  {
    assert CHAIN_ID[0] == 'c' as int && DATA[0] == 'd' as int && GAS_LIMIT[0] == 'g' as int;
    assert NONCE[0] == 'n' as int && VALUE[0] == 'v' as int;
    assert MAX_FEE[0] == MAX_PRIORITY_FEE[0] == 'm' as int && TO[0] == TYPE[0] == 't' as int;
    assert PartsAt(MAX_FEE, MAX_PRIORITY_FEE, 4) by {
      assert MAX_FEE[4] == 'f' as int && MAX_PRIORITY_FEE[4] == 'p' as int;
    }
    assert PartsAt(TO, TYPE, 1);
    BeforeIsPrecedes(MAX_FEE, MAX_PRIORITY_FEE);
    BeforeIsPrecedes(TO, TYPE);
  }

  /** How nine members that come as Privy is sent them are sorted. */
  lemma NineSorted(ms: seq<Member>)
    requires |ms| == 9 && DistinctKeys(ms) && forall i :: 0 <= i < 9 ==> !ms[i].value.Undefined?
    requires Before(ms[3].key, ms[1].key) && Before(ms[1].key, ms[5].key) && Before(ms[5].key, ms[6].key)
    requires Before(ms[6].key, ms[7].key) && Before(ms[7].key, ms[4].key) && Before(ms[4].key, ms[0].key)
    requires Before(ms[0].key, ms[8].key) && Before(ms[8].key, ms[2].key)
    ensures Ordered(ms) == [ms[3], ms[1], ms[5], ms[6], ms[7], ms[4], ms[0], ms[8], ms[2]]
  {
    hide Before, DistinctKeys, Increasing, Ordered;
    var sorted := [ms[3], ms[1], ms[5], ms[6], ms[7], ms[4], ms[0], ms[8], ms[2]];
    NeighboursIncrease(sorted);
    forall m
      ensures m in sorted <==> m in ms
    {
      if m in ms {
        var i :| 0 <= i < 9 && ms[i] == m;
        assert i == 0 || i == 1 || i == 2 || i == 3 || i == 4 || i == 5 || i == 6 || i == 7 || i == 8;
      }
    }
    OrderedAs(ms, sorted);
  }

  function TransactionMembers(tx: Pinned): (ms: seq<Member>) {
    [ Member(CHAIN_ID, Num(tx.chainId)), Member(DATA, Str(tx.data)),
      Member(GAS_LIMIT, Str(Hexadecimal(tx.gas))), Member(MAX_FEE, Str(Hexadecimal(tx.maxFeePerGas))),
      Member(MAX_PRIORITY_FEE, Str(Hexadecimal(tx.maxPriorityFeePerGas))),
      Member(NONCE, Str(Hexadecimal(tx.nonce))), Member(TO, Str(tx.to)), Member(TYPE, Num(2)),
      Member(VALUE, Str(Hexadecimal(0))) ]
  }

  lemma TransactionOrder(tx: Pinned)
    ensures Ordered(ToPrivyTransaction(tx)) == TransactionMembers(tx)
  {
    hide Ascii, Before, DistinctKeys, Increasing, Ordered, Hexadecimal, Valid;
    PrivyFieldsDistinct(tx);
    TransactionKeyOrder();
    NineSorted(ToPrivyTransaction(tx));
  }

  /** A hexadecimal quantity is quoted as it is. */
  lemma HexText(n: nat)
    ensures Canonicalize(Str(Hexadecimal(n))) == Some(HexString(n))
  {
    hide Numeral;
    NumeralLower(n, 16);
    PlainQuoted(Hexadecimal(n));
  }

  lemma HexEntry(name: string, n: nat)
    requires PlainName(name)
    ensures Entry(Member(Ascii(name), Str(Hexadecimal(n)))) == Named(name, HexString(n))
  {
    hide Ascii, Named, Quote, Entry, Canonicalize, Hexadecimal, HexString, PlainName;
    HexText(n);
    PlainNamed(name, Str(Hexadecimal(n)), HexString(n));
  }

  lemma PlainNames()
    ensures PlainName("gas_limit") && PlainName("max_fee_per_gas") && PlainName("max_priority_fee_per_gas")
    ensures PlainName("nonce") && PlainName("value") && PlainName("chain_id") && PlainName("data")
    ensures PlainName("to") && PlainName("type")
  {
  }

  lemma PlainMethodNames()
    ensures PlainName("method") && PlainName("params") && PlainName("transaction") && PlainName("eth_signTransaction")
  {
  }

  /** The nine members of the transaction, as they are written. */
  function TransactionParts(tx: Pinned): (parts: seq<Text>) {
    [ Named("chain_id", SignedDecimal(tx.chainId)), Named("data", Quote(tx.data)),
      Named("gas_limit", HexString(tx.gas)), Named("max_fee_per_gas", HexString(tx.maxFeePerGas)),
      Named("max_priority_fee_per_gas", HexString(tx.maxPriorityFeePerGas)), Named("nonce", HexString(tx.nonce)),
      Named("to", Quote(tx.to)), Named("type", Ascii("2")), Named("value", HexString(0)) ]
  }

  lemma TransactionEntries(tx: Pinned)
    ensures var ms := TransactionMembers(tx);
            && (forall m | m in ms :: Canonicalize(m.value).Some?)
            && Entries(ms) == TransactionParts(tx)
  {
    hide Ascii, Named, Quote, SignedDecimal, Entry, Entries, Canonicalize, Hexadecimal, HexString, PlainName;
    PlainNames();
    ScalarText();
    HexEntry("gas_limit", tx.gas);
    HexEntry("max_fee_per_gas", tx.maxFeePerGas);
    HexEntry("max_priority_fee_per_gas", tx.maxPriorityFeePerGas);
    HexEntry("nonce", tx.nonce);
    HexEntry("value", 0);
    PlainNamed("chain_id", Num(tx.chainId), SignedDecimal(tx.chainId));
    PlainNamed("data", Str(tx.data), Quote(tx.data));
    PlainNamed("to", Str(tx.to), Quote(tx.to));
    PlainNamed("type", Num(2), Ascii("2"));
  }

  lemma OneMember(m: Member, text: Text)
    requires Canonicalize(m.value).Some? && Entry(m) == text && !m.value.Undefined?
    ensures Canonicalize(Obj([m])) == Some(Braced([text]))
  {
    hide Canonicalize, Entry, Braced;
    OrderedFixed([m]);
    ObjectJoined([m], [m]);
    assert Entries([m]) == [text];
  }

  lemma TwoInOrder(m: Member, n: Member)
    requires Canonicalize(m.value).Some? && Canonicalize(n.value).Some? && Before(m.key, n.key)
    requires !m.value.Undefined? && !n.value.Undefined?
    ensures Canonicalize(Obj([m, n])) == Some(Braced([Entry(m), Entry(n)]))
  {
    hide Canonicalize, Entry, Braced, Before;
    OrderedFixed([m, n]);
    ObjectJoined([m, n], [m, n]);
    assert Entries([m, n]) == [Entry(m), Entry(n)];
  }

  lemma MethodText()
    ensures Canonicalize(Str(SIGN_TRANSACTION)) == Some(Quoted("eth_signTransaction"))
    ensures Before(KEY_METHOD, PARAMS)
  {
    assert KEY_METHOD[0] == 'm' as int && PARAMS[0] == 'p' as int;
    PlainMethodNames();
    PlainAscii("eth_signTransaction");
  }

  /** The text of the body that `propose` asks Privy to sign: the method, then the transaction, sorted. */
  lemma ProposedTextIs(tx: Pinned)
    ensures Canonicalize(ProposedBody(tx)) == Some(Braced([
      Named("method", Quoted("eth_signTransaction")),
      Named("params", Braced([Named("transaction", Braced(TransactionParts(tx)))]))]))
  {
    hide Named, Braced, Join, TransactionParts, TransactionMembers, ToPrivyTransaction, Entry, PlainName;
    hide Ordered, Increasing;
    PlainMethodNames();
    var sent, params := Obj(ToPrivyTransaction(tx)), [Member(TRANSACTION, Obj(ToPrivyTransaction(tx)))];
    TransactionOrder(tx);
    TransactionEntries(tx);
    ObjectJoined(ToPrivyTransaction(tx), TransactionMembers(tx));
    PlainNamed("transaction", sent, Braced(TransactionParts(tx)));
    OneMember(Member(TRANSACTION, sent), Named("transaction", Braced(TransactionParts(tx))));
    PlainNamed("params", Obj(params), Braced([Named("transaction", Braced(TransactionParts(tx)))]));
    MethodText();
    PlainNamed("method", Str(SIGN_TRANSACTION), Quoted("eth_signTransaction"));
    TwoInOrder(Member(KEY_METHOD, Str(SIGN_TRANSACTION)), Member(PARAMS, Obj(params)));
  }

  /** However Privy orders the members, that is the text its copy is signed as. */
  lemma RecordedTextIs(body: Value, tx: Pinned)
    requires Valid(body) && SameJson(body, ProposedBody(tx))
    ensures BodyText(body) == Some(Braced([
      Named("method", Quoted("eth_signTransaction")),
      Named("params", Braced([Named("transaction", Braced(TransactionParts(tx)))]))]))
  {
    hide Canonicalize, Normal, SameJson, Valid, ProposedBody, Braced, Named, Quoted, TransactionParts;
    ProposedTextIs(tx);
    ProposedReads(tx);
    NotEmpty(body, tx);
    SameGivesNormal(body, ProposedBody(tx));
    NormalPrintsAlike(body);
    NormalPrintsAlike(ProposedBody(tx));
  }

  lemma NotEmpty(body: Value, tx: Pinned)
    requires SameJson(body, ProposedBody(tx))
    ensures body != Obj([]) && body != Arr([])
  {
    hide ToPrivyTransaction;
    var ms := ProposedBody(tx).members;
    assert ms[0] in ms && ms[0].key in PresentKeys(ms);
  }
}
