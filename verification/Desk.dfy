// The approver desk: what it reads out of the bytes it is about to sign.
module Desk {
  import opened Outcomes
  import opened Utf16
  import opened Numerals
  import opened Json
  import opened JsonLaws
  import opened JsonMeaning
  import opened Payload
  import opened Transactions
  import opened Intents
  import opened Store
  import opened Protocol
  import opened ProtocolSafety
  import opened WaiverTheorems
  import SignedText

  const OBJECT_TEXT := Ascii("[object Object]")
  const UNDEFINED_TEXT := Ascii("undefined")

  /** `String(value)`, of a value JSON.parse returned or of undefined. */
  function StringOf(v: Value): (t: Text) {
    match v
    case Str(s) => s
    case Num(n) => SignedDecimal(n)
    case Bool(b) => if b then TRUE else FALSE
    case Null => NULL
    case Arr(items) => Joined(items)
    case Obj(_) => OBJECT_TEXT
    case _ => UNDEFINED_TEXT
  }

  /** `items.join(",")`, in which null and undefined leave nothing. */
  function Joined(items: seq<Value>): (t: Text) {
    if items == [] then []
    else
      var head := if Nullish(items[0]) then [] else StringOf(items[0]);
      if |items| == 1 then head else head + [COMMA] + Joined(items[1..])
  }

  /** `BigInt(value)`; none where it throws. */
  function BigIntOfValue(v: Value): (n: Option<int>) {
    match v
    case Num(n) => Some(n)
    case Bool(b) => Some(if b then 1 else 0)
    case Str(s) => BigIntOf(s)
    case Arr(_) => BigIntOf(StringOf(v))
    case _ => None
  }

  /** The texts of the other values are the literals of the language. */
  lemma StringIs(items: seq<Value>, ms: seq<Member>)
    ensures StringOf(Bool(true)) == Ascii("true") && StringOf(Bool(false)) == Ascii("false")
    ensures StringOf(Null) == Ascii("null") && StringOf(Undefined) == Ascii("undefined")
    ensures StringOf(Obj(ms)) == Ascii("[object Object]")
    ensures StringOf(Arr(items)) == SignedText.Join(Parts(items))
  {
    JoinedIs(items);
  }

  /** What each item of an array leaves in its text. */
  function Parts(items: seq<Value>): (ts: seq<Text>)
    ensures |ts| == |items|
    ensures forall i :: 0 <= i < |items| ==> ts[i] == if Nullish(items[i]) then [] else StringOf(items[i])
  {
    if items == [] then [] else [if Nullish(items[0]) then [] else StringOf(items[0])] + Parts(items[1..])
  }

  lemma {:induction false} JoinedIs(items: seq<Value>)
    ensures Joined(items) == SignedText.Join(Parts(items))
    decreases |items|
  {
    assert Ascii(",") == [COMMA];
    hide StringOf, Nullish, Ascii;
    if items != [] {
      JoinedIs(items[1..]);
      assert Parts(items)[1..] == Parts(items[1..]);
    }
  }

  /** Only these convert to a whole number: numbers, booleans, and the text of strings and arrays. */
  lemma NumberIs(v: Value, n: int)
    ensures BigIntOfValue(v) == Some(n) <==>
      || (v.Num? && v.n == n)
      || (v == Bool(true) && n == 1) || (v == Bool(false) && n == 0)
      || ((v.Str? || v.Arr?) && exists s :: Trims(StringOf(v), s) && Denotes(s, n))
  {
    hide BigIntOf, StringOf, Trims, Denotes;
    assert v.Str? ==> StringOf(v) == v.s by { assert forall s :: StringOf(Str(s)) == s by { StringOfText(); } }
    BigIntOfExactly(StringOf(v), n);
  }

  lemma StringOfText()
    ensures forall s :: StringOf(Str(s)) == s
  {
  }

  predicate SameText(v: Value, t: Text) {
    Lower(StringOf(v)) == Lower(t)
  }

  /** What the desk demands of a transaction before it signs. */
  predicate ShowsCall(tx: Value, call: CallView) {
    && SameText(Get(tx, TO), call.to)
    && SameText(Get(tx, DATA), call.data)
    && BigIntOfValue(Get(tx, CHAIN_ID)) == Some(call.chainId)
    && BigIntOfValue(Get(tx, NONCE)) == Some(call.nonce)
    && (Nullish(Get(tx, VALUE)) || BigIntOfValue(Get(tx, VALUE)) == Some(0))
  }

  datatype Check =
    | SignsTransaction | BoundToProposal | TargetMatches | CalldataMatches
    | ChainIsArc | NonceMatches | MovesNoValue | Readable

  /** The payload, parsed, passes every check of the desk. */
  predicate Passes(intentId: Text, call: CallView, payload: Value) {
    && !payload.Null?
    && Get(Get(payload, KEY_BODY), KEY_METHOD) == Str(SIGN_TRANSACTION)
    && Get(payload, KEY_INTENT_ID) == Str(intentId)
    && ShowsCall(TransactionOf(Get(payload, KEY_BODY)), call)
  }

  /** The checks by the names the payload has them under. */
  lemma PassesMeans(intentId: Text, call: CallView, payload: Value)
    ensures Passes(intentId, call, payload) <==>
      var body := Get(payload, Ascii("body"));
      var tx := Get(Get(body, Ascii("params")), Ascii("transaction"));
      && payload != Null
      && Get(body, Ascii("method")) == Str(Ascii("eth_signTransaction"))
      && Get(payload, Ascii("intent_id")) == Str(intentId)
      && SameLetters(StringOf(Get(tx, Ascii("to"))), call.to) && SameLetters(StringOf(Get(tx, Ascii("data"))), call.data)
      && BigIntOfValue(Get(tx, Ascii("chain_id"))) == Some(call.chainId)
      && BigIntOfValue(Get(tx, Ascii("nonce"))) == Some(call.nonce)
      && (Get(tx, Ascii("value")) in {Undefined, Null} || BigIntOfValue(Get(tx, Ascii("value"))) == Some(0))
  {
    hide Get, Lower, SameLetters, StringOf, BigIntOfValue, Ascii;
    var tx := TransactionOf(Get(payload, KEY_BODY));
    LowerAlike(StringOf(Get(tx, TO)), call.to);
    LowerAlike(StringOf(Get(tx, DATA)), call.data);
  }

  /** What a check named so finds. */
  predicate Finds(check: Check, intentId: Text, call: CallView, payload: Value) {
    var body := Get(payload, KEY_BODY);
    var tx := TransactionOf(body);
    match check
    case SignsTransaction => Get(body, KEY_METHOD) == Str(SIGN_TRANSACTION)
    case BoundToProposal => Get(payload, KEY_INTENT_ID) == Str(intentId)
    case TargetMatches => SameText(Get(tx, TO), call.to)
    case CalldataMatches => SameText(Get(tx, DATA), call.data)
    case ChainIsArc => BigIntOfValue(Get(tx, CHAIN_ID)) == Some(call.chainId)
    case NonceMatches => BigIntOfValue(Get(tx, NONCE)) == Some(call.nonce)
    case MovesNoValue => Nullish(Get(tx, VALUE)) || BigIntOfValue(Get(tx, VALUE)) == Some(0)
    case Readable => false
  }

  ghost predicate Told(checks: seq<(Check, bool)>, intentId: Text, call: CallView, payload: Value) {
    forall i :: 0 <= i < |checks| ==> checks[i].1 == Finds(checks[i].0, intentId, call, payload)
  }

  /** `inspectPayload`: pushes one check after another; a throw adds a failed one. */
  method InspectPayload(intentId: Text, call: CallView, text: Text) returns (checks: seq<(Check, bool)>, ok: bool)
    ensures ok <==> Parse(text).Some? && Passes(intentId, call, Parse(text).value)
    ensures ok <==> forall i :: 0 <= i < |checks| ==> checks[i].1
    ensures Parse(text).Some? ==> Told(checks, intentId, call, Parse(text).value)
    ensures Parse(text).None? ==> checks == [(Readable, false)]
  {
    hide Parse, Lower, SameText, BigIntOfValue, Get, TransactionOf, StringOf, Nullish, Told, Passes, Finds;
    var parsed := Parse(text);
    if parsed.None? || parsed.value.Null? {
      checks := [(Readable, false)];
      NullFails(intentId, call);
      assert !checks[0].1;
      return checks, false;
    }
    var payload := parsed.value;
    var body := Get(payload, KEY_BODY);
    var tx := TransactionOf(body);
    FindsThese(intentId, call, payload);
    checks := [
      (SignsTransaction, Get(body, KEY_METHOD) == Str(SIGN_TRANSACTION)),
      (BoundToProposal, Get(payload, KEY_INTENT_ID) == Str(intentId)),
      (TargetMatches, SameText(Get(tx, TO), call.to)),
      (CalldataMatches, SameText(Get(tx, DATA), call.data))];
    FirstFour(checks, intentId, call, payload);
    var chainId := BigIntOfValue(Get(tx, CHAIN_ID));
    if chainId.None? {
      Unreadable(checks, intentId, call, payload);
      return checks + [(Readable, false)], false;
    }
    OneMore(checks, ChainIsArc, intentId, call, payload);
    checks := checks + [(ChainIsArc, chainId.value == call.chainId)];
    var nonce := BigIntOfValue(Get(tx, NONCE));
    if nonce.None? {
      Unreadable(checks, intentId, call, payload);
      return checks + [(Readable, false)], false;
    }
    OneMore(checks, NonceMatches, intentId, call, payload);
    checks := checks + [(NonceMatches, nonce.value == call.nonce)];
    var value := if Nullish(Get(tx, VALUE)) then Some(0) else BigIntOfValue(Get(tx, VALUE));
    if value.None? {
      Unreadable(checks, intentId, call, payload);
      return checks + [(Readable, false)], false;
    }
    OneMore(checks, MovesNoValue, intentId, call, payload);
    checks := checks + [(MovesNoValue, value.value == 0)];
    AllSeven(checks, intentId, call, payload);
    ok := AllHold(checks);
  }

  lemma FindsThese(intentId: Text, call: CallView, payload: Value)
    requires !payload.Null?
    ensures var tx := TransactionOf(Get(payload, KEY_BODY));
            && (Finds(SignsTransaction, intentId, call, payload)
                <==> Get(Get(payload, KEY_BODY), KEY_METHOD) == Str(SIGN_TRANSACTION))
            && (Finds(BoundToProposal, intentId, call, payload) <==> Get(payload, KEY_INTENT_ID) == Str(intentId))
            && (Finds(TargetMatches, intentId, call, payload) <==> SameText(Get(tx, TO), call.to))
            && (Finds(CalldataMatches, intentId, call, payload) <==> SameText(Get(tx, DATA), call.data))
            && (Finds(ChainIsArc, intentId, call, payload) <==> BigIntOfValue(Get(tx, CHAIN_ID)) == Some(call.chainId))
            && (Finds(NonceMatches, intentId, call, payload) <==> BigIntOfValue(Get(tx, NONCE)) == Some(call.nonce))
            && (Finds(MovesNoValue, intentId, call, payload)
                <==> Nullish(Get(tx, VALUE)) || BigIntOfValue(Get(tx, VALUE)) == Some(0))
            && (Passes(intentId, call, payload) <==> AllFind(intentId, call, payload))
  {
    hide SameText, BigIntOfValue, Get, TransactionOf, Nullish;
  }

  predicate AllFind(intentId: Text, call: CallView, payload: Value) {
    && Finds(SignsTransaction, intentId, call, payload) && Finds(BoundToProposal, intentId, call, payload)
    && Finds(TargetMatches, intentId, call, payload) && Finds(CalldataMatches, intentId, call, payload)
    && Finds(ChainIsArc, intentId, call, payload) && Finds(NonceMatches, intentId, call, payload)
    && Finds(MovesNoValue, intentId, call, payload)
  }

  /** Reading a member of null throws at once. */
  lemma NullFails(intentId: Text, call: CallView)
    ensures Told([(Readable, false)], intentId, call, Null) && !Passes(intentId, call, Null)
  {
  }

  /** A throw: the failed check is told truly, and the payload does not pass. */
  lemma Unreadable(checks: seq<(Check, bool)>, intentId: Text, call: CallView, payload: Value)
    requires Told(checks, intentId, call, payload)
    ensures Told(checks + [(Readable, false)], intentId, call, payload)
    ensures !(checks + [(Readable, false)])[|checks|].1
  {
    hide BigIntOfValue, SameText;
  }

  lemma OneMore(checks: seq<(Check, bool)>, check: Check, intentId: Text, call: CallView, payload: Value)
    requires Told(checks, intentId, call, payload)
    ensures Told(checks + [(check, Finds(check, intentId, call, payload))], intentId, call, payload)
  {
    hide Finds;
  }

  lemma FirstFour(checks: seq<(Check, bool)>, intentId: Text, call: CallView, payload: Value)
    requires |checks| == 4
    requires forall i | 0 <= i < 4 :: checks[i].1 == Finds(checks[i].0, intentId, call, payload)
    ensures Told(checks, intentId, call, payload)
  {
  }

  /** With all seven told, they all hold exactly when the payload passes. */
  lemma AllSeven(checks: seq<(Check, bool)>, intentId: Text, call: CallView, payload: Value)
    requires !payload.Null? && Told(checks, intentId, call, payload)
    requires |checks| == 7 && checks[0].0 == SignsTransaction && checks[1].0 == BoundToProposal
    requires checks[2].0 == TargetMatches && checks[3].0 == CalldataMatches && checks[4].0 == ChainIsArc
    requires checks[5].0 == NonceMatches && checks[6].0 == MovesNoValue
    ensures (forall i :: 0 <= i < |checks| ==> checks[i].1) <==> Passes(intentId, call, payload)
  {
    hide Finds, Passes;
    FindsThese(intentId, call, payload);
    if AllFind(intentId, call, payload) {
      forall i | 0 <= i < 7
        ensures checks[i].1
      {
        assert i == 0 || i == 1 || i == 2 || i == 3 || i == 4 || i == 5 || i == 6;
      }
    } else {
      assert !(checks[0].1 && checks[1].1 && checks[2].1 && checks[3].1 && checks[4].1 && checks[5].1 && checks[6].1);
    }
  }

  /** `checks.every(([, ok]) => ok)`. */
  method AllHold(checks: seq<(Check, bool)>) returns (ok: bool)
    ensures ok <==> forall i :: 0 <= i < |checks| ==> checks[i].1
  {
    for i := 0 to |checks|
      invariant forall j :: 0 <= j < i ==> checks[j].1
    {
      if !checks[i].1 { return false; }
    }
    return true;
  }

  // ---- Reading canonical text reads the request ------------------------------------------------------

  lemma {:induction false} NormalString(v: Value)
    ensures StringOf(Normal(v)) == StringOf(v)
    decreases v
  {
    if v.Arr? {
      NormalJoined(v.items);
    }
  }

  lemma {:induction false} NormalJoined(items: seq<Value>)
    ensures Joined(NormalItems(items)) == Joined(items)
    decreases items
  {
    if items != [] {
      NormalString(items[0]);
      NormalNull(items[0]);
      NormalJoined(items[1..]);
      assert NormalItems(items)[1..] == NormalItems(items[1..]);
    }
  }

  lemma NormalScalar(v: Value)
    ensures StringOf(Normal(v)) == StringOf(v) && BigIntOfValue(Normal(v)) == BigIntOfValue(v)
    ensures Nullish(Normal(v)) <==> Nullish(v)
    ensures forall s :: Normal(v) == Str(s) <==> v == Str(s)
  {
    NormalString(v);
  }

  lemma FieldRead(tx: Value, key: Text)
    requires Valid(tx)
    ensures StringOf(Get(Normal(tx), key)) == StringOf(Get(tx, key))
    ensures BigIntOfValue(Get(Normal(tx), key)) == BigIntOfValue(Get(tx, key))
    ensures Nullish(Get(Normal(tx), key)) <==> Nullish(Get(tx, key))
  {
    hide BigIntOfValue, StringOf;
    NormalGet(tx, key);
    NormalScalar(Get(tx, key));
  }

  lemma CallRead(tx: Value, call: CallView)
    requires Valid(tx)
    ensures ShowsCall(Normal(tx), call) <==> ShowsCall(tx, call)
  {
    hide BigIntOfValue, StringOf, Normal, Valid, Get, Lower;
    FieldRead(tx, TO);
    FieldRead(tx, DATA);
    FieldRead(tx, CHAIN_ID);
    FieldRead(tx, NONCE);
    FieldRead(tx, VALUE);
  }

  /** Signing an empty body as text changes nothing the desk reads. */
  lemma SignedBodyRead(body: Value, key: Text)
    ensures Get(SignedBody(body), key) == Get(body, key)
  {
  }

  /**
   * The desk reads the very request: the text signed for an intent passes exactly when it is that
   * proposal's intent and the recorded request makes the call shown.
   */
  lemma DeskReadsTheRequest(signed: Text, request: RequestDetails, appId: Text, now: SafeInt,
                            intentId: Text, call: CallView)
    requires Signable(request.body)
    ensures PayloadText(signed, request, appId, now).Some?
    ensures Parse(PayloadText(signed, request, appId, now).value).Some?
    ensures Passes(intentId, call, Parse(PayloadText(signed, request, appId, now).value).value)
       <==> && signed == intentId
            && Get(request.body, KEY_METHOD) == Str(SIGN_TRANSACTION)
            && ShowsCall(TransactionOf(request.body), call)
  {
    hide ShowsCall, Parse, PayloadText, Valid, Encodable;
    var v := PayloadValue(signed, request, appId, now);
    PayloadReadsBack(signed, request, appId, now);
    PayloadValid(signed, request, appId, now);
    PayloadMembers(signed, request, appId, now);
    PayloadNormalMembers(v);
    var body := SignedBody(request.body);
    SignedBodyRead(request.body, KEY_METHOD);
    SignedBodyRead(request.body, PARAMS);
    ValidGet(v, KEY_BODY);
    BodyRead(body);
    CallRead(TransactionOf(body), call);
  }

  lemma PayloadNormalMembers(v: Value)
    requires Valid(v) && v.Obj?
    ensures !Normal(v).Null?
    ensures Get(Normal(v), KEY_BODY) == Normal(Get(v, KEY_BODY))
    ensures Get(Normal(v), KEY_INTENT_ID) == Normal(Get(v, KEY_INTENT_ID))
  {
    NormalGet(v, KEY_BODY);
    NormalGet(v, KEY_INTENT_ID);
  }

  /** A request that records what was pinned makes the call the view shows. */
  lemma PinnedRequestShows(tx: Value, pinned: Pinned, call: CallView)
    requires FieldsPinned(tx, pinned) && Shows(call, pinned)
    ensures ShowsCall(tx, call)
  {
    hide Lower;
  }

  /** What Privy recorded for a stored action is signable and makes the call its view shows. */
  lemma StoredRequestShows(c: Config, w: World, id: Text)
    requires Reachable(c, w) && id in w.mem
    ensures id in w.intents && Signable(w.intents[id].request.body)
    ensures Get(w.intents[id].request.body, KEY_METHOD) == Str(SIGN_TRANSACTION)
    ensures ShowsCall(TransactionOf(w.intents[id].request.body), CallOf(w.mem[id]))
  {
    hide Reachable, InOrder, DiskBehind, SendsOk, PcOk, ForwardedOk, ShowsCall, FieldsPinned, Signable, Truthful;
    ReachableInv(c, w);
    assert EntryOk(GroundOf(w), id, w.mem[id]) && BirthOk(c, GroundOf(w), id);
    var tx := w.births[id].pinned;
    PinnedRoundTrip(tx);
    PinnedRequestShows(TransactionOf(w.intents[id].request.body), tx, CallOf(w.mem[id]));
  }

  /**
   * The desk never refuses an honest payload: in every reachable state, the text the service gives
   * out for a stored action passes every check against that action's view.
   */
  lemma HonestPayloadPasses(c: Config, w: World, id: Text, now: SafeInt)
    requires Reachable(c, w) && id in w.mem
    ensures id in w.intents && PayloadText(id, w.intents[id].request, c.appId, now).Some?
    ensures var text := PayloadText(id, w.intents[id].request, c.appId, now).value;
            Parse(text).Some? && Passes(id, CallOf(w.mem[id]), Parse(text).value)
  {
    hide *;
    StoredRequestShows(c, w, id);
    DeskReadsTheRequest(id, w.intents[id].request, c.appId, now, id, CallOf(w.mem[id]));
  }
}
