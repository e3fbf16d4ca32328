// The bytes an approver signs: the canonical JSON of the authorization payload, in UTF-8.
module Payload {
  import opened Outcomes
  import opened Utf16
  import opened Json
  import opened JsonLaws
  import opened JsonMeaning
  import CanonicalBytes
  import Utf8

  /** The request an intent records, as Privy returns it. */
  datatype RequestDetails = RequestDetails(verb: Text, url: Text, body: Value)

  const KEY_VERSION := Ascii("version")
  const KEY_METHOD := Ascii("method")
  const KEY_URL := Ascii("url")
  const KEY_BODY := Ascii("body")
  const KEY_HEADERS := Ascii("headers")
  const KEY_INTENT_ID := Ascii("intent_id")
  const KEY_TIMESTAMP := Ascii("timestamp")
  const KEY_APP_ID := Ascii("privy-app-id")

  /** `typeof body === "object"`, not null, with no own key: `{}` and `[]`. */
  predicate EmptyBody(body: Value) {
    (body.Arr? && body.items == []) || (body.Obj? && body.members == [])
  }

  /** An empty body is signed as the empty string. */
  function SignedBody(body: Value): (v: Value) {
    if EmptyBody(body) then Str([]) else body
  }

  function Headers(appId: Text): (v: Value) {
    Obj([Member(KEY_APP_ID, Str(appId))])
  }

  /** `intentAuthorizationInput`, with the body as `formatAuthorizationPayload` signs it. */
  function PayloadValue(intentId: Text, request: RequestDetails, appId: Text, timestamp: SafeInt): (v: Value) {
    Obj([
      Member(KEY_VERSION, Num(1)),
      Member(KEY_METHOD, Str(request.verb)),
      Member(KEY_URL, Str(request.url)),
      Member(KEY_BODY, SignedBody(request.body)),
      Member(KEY_HEADERS, Headers(appId)),
      Member(KEY_INTENT_ID, Str(intentId)),
      Member(KEY_TIMESTAMP, Num(timestamp))])
  }

  function PayloadText(intentId: Text, request: RequestDetails, appId: Text, timestamp: SafeInt): (t: Option<Text>) {
    Canonicalize(PayloadValue(intentId, request, appId, timestamp))
  }

  /** `formatAuthorizationPayload(intentAuthorizationInput(intent, appId, timestamp))`. */
  function PayloadBytes(intentId: Text, request: RequestDetails, appId: Text, timestamp: SafeInt)
    : (bytes: Option<seq<Utf8.Byte>>)
  {
    match PayloadText(intentId, request, appId, timestamp)
    case None => None
    case Some(t) => Some(Utf8.Encode(t))
  }

  /** A body the source can sign: absent, or something JSON can carry. */
  ghost predicate Signable(body: Value) {
    Valid(body) && (body.Undefined? || Encodable(body))
  }

  lemma KeysDiffer()
    ensures |{KEY_VERSION, KEY_METHOD, KEY_URL, KEY_BODY, KEY_HEADERS, KEY_INTENT_ID, KEY_TIMESTAMP}| == 7
    ensures forall id, request, appId, timestamp :: DistinctKeys(PayloadValue(id, request, appId, timestamp).members)
  {
    assert |KEY_VERSION| == 7 && |KEY_METHOD| == 6 && |KEY_URL| == 3 && |KEY_BODY| == 4;
    assert |KEY_HEADERS| == 7 && |KEY_INTENT_ID| == 9 && |KEY_TIMESTAMP| == 9;
    assert KEY_VERSION[0] == 'v' as int && KEY_HEADERS[0] == 'h' as int;
    assert KEY_INTENT_ID[0] == 'i' as int && KEY_TIMESTAMP[0] == 't' as int;
  }

  lemma PayloadValid(intentId: Text, request: RequestDetails, appId: Text, timestamp: SafeInt)
    requires Signable(request.body)
    ensures Valid(PayloadValue(intentId, request, appId, timestamp))
    ensures Encodable(PayloadValue(intentId, request, appId, timestamp))
  {
    var v := PayloadValue(intentId, request, appId, timestamp);
    KeysDiffer();
    HeadersValid(appId);
    forall m | m in v.members
      ensures Valid(m.value) && (m.value.Undefined? || Encodable(m.value))
    {
    }
  }

  lemma HeadersValid(appId: Text)
    ensures Valid(Headers(appId)) && Encodable(Headers(appId))
  {
  }

  /** Each member of the payload, read back by name. */
  lemma PayloadMembers(intentId: Text, request: RequestDetails, appId: Text, timestamp: SafeInt)
    ensures var v := PayloadValue(intentId, request, appId, timestamp);
            && Get(v, KEY_VERSION) == Num(1)
            && Get(v, KEY_METHOD) == Str(request.verb)
            && Get(v, KEY_URL) == Str(request.url)
            && Get(v, KEY_BODY) == SignedBody(request.body)
            && Get(v, KEY_HEADERS) == Headers(appId)
            && Get(v, KEY_INTENT_ID) == Str(intentId)
            && Get(v, KEY_TIMESTAMP) == Num(timestamp)
  {
    var ms := PayloadValue(intentId, request, appId, timestamp).members;
    KeysDiffer();
    forall i | 0 <= i < 7
      ensures Lookup(ms, ms[i].key) == ms[i].value
    {
      assert ms[i] in ms;
      LookupFinds(ms, ms[i]);
    }
    assert ms[0].key == KEY_VERSION && ms[1].key == KEY_METHOD && ms[2].key == KEY_URL && ms[3].key == KEY_BODY;
    assert ms[4].key == KEY_HEADERS && ms[5].key == KEY_INTENT_ID && ms[6].key == KEY_TIMESTAMP;
  }

  /** Signed text is always produced, decodes from its bytes, and parses back to the payload. */
  lemma PayloadReadsBack(intentId: Text, request: RequestDetails, appId: Text, timestamp: SafeInt)
    requires Signable(request.body)
    ensures PayloadText(intentId, request, appId, timestamp).Some?
    ensures var t := PayloadText(intentId, request, appId, timestamp).value;
            && PayloadBytes(intentId, request, appId, timestamp) == Some(Utf8.Encode(t))
            && Utf8.Decode(Utf8.Encode(t)) == Some(t)
            && Parse(t) == Some(Normal(PayloadValue(intentId, request, appId, timestamp)))
  {
    var v := PayloadValue(intentId, request, appId, timestamp);
    PayloadValid(intentId, request, appId, timestamp);
    RoundTrip(v);
    CanonicalBytes.BytesInvert(v);
  }

  /**
   * What a signed text says, member by member: version 1, the request's method and URL, its body in
   * canonical form (an empty one as the empty string), the application in the one header, the intent and
   * the time. An absent body is not a member.
   */
  ghost predicate Says(text: Text, intentId: Text, request: RequestDetails, appId: Text, timestamp: SafeInt) {
    && Parse(text).Some?
    && var v := Parse(text).value;
    && v.Obj? && DistinctKeys(v.members)
    && Keys(v.members) == SaidKeys() - (if request.body.Undefined? then {Ascii("body")} else {})
    && Get(v, Ascii("version")) == Num(1)
    && Get(v, Ascii("method")) == Str(request.verb)
    && Get(v, Ascii("url")) == Str(request.url)
    && Get(v, Ascii("body")) == Normal(if request.body == Obj([]) || request.body == Arr([]) then Str([]) else request.body)
    && Get(v, Ascii("headers")) == Obj([Member(Ascii("privy-app-id"), Str(appId))])
    && Get(v, Ascii("intent_id")) == Str(intentId)
    && Get(v, Ascii("timestamp")) == Num(timestamp)
  }

  ghost function SaidKeys(): (keys: set<Text>) {
    {Ascii("version"), Ascii("method"), Ascii("url"), Ascii("body"), Ascii("headers"), Ascii("intent_id"), Ascii("timestamp")}
  }

  /** The payload says exactly that. */
  lemma PayloadSays(intentId: Text, request: RequestDetails, appId: Text, timestamp: SafeInt)
    requires Signable(request.body)
    ensures PayloadText(intentId, request, appId, timestamp).Some?
    ensures Says(PayloadText(intentId, request, appId, timestamp).value, intentId, request, appId, timestamp)
  {
    hide Normal, Valid, Encodable, Parse, SignedBody, PayloadText, PayloadValue, Get, Headers;
    var v := PayloadValue(intentId, request, appId, timestamp);
    PayloadReadsBack(intentId, request, appId, timestamp);
    PayloadValid(intentId, request, appId, timestamp);
    PayloadMembers(intentId, request, appId, timestamp);
    PayloadKeys(intentId, request, appId, timestamp);
    NormalGet(v, KEY_VERSION);
    NormalGet(v, KEY_METHOD);
    NormalGet(v, KEY_URL);
    NormalGet(v, KEY_BODY);
    NormalGet(v, KEY_HEADERS);
    NormalGet(v, KEY_INTENT_ID);
    NormalGet(v, KEY_TIMESTAMP);
    NormalScalars();
    NormalHeaders(appId);
    SignedBodyIs(request.body);
  }

  lemma NormalScalars()
    ensures forall s :: Normal(Str(s)) == Str(s)
    ensures forall n :: Normal(Num(n)) == Num(n)
  {
  }

  lemma NormalHeaders(appId: Text)
    ensures Normal(Headers(appId)) == Obj([Member(Ascii("privy-app-id"), Str(appId))])
  {
    var v, ms := Headers(appId), [Member(KEY_APP_ID, Str(appId))];
    OrderedFixed(ms);
    NormalMembersAt(v, ms, 0);
    assert NormalMembers(v, ms) == [Member(KEY_APP_ID, Str(appId))];
  }

  lemma SignedBodyIs(body: Value)
    ensures SignedBody(body) == if body == Obj([]) || body == Arr([]) then Str([]) else body
  {
  }

  /** The keys of the payload that are written. */
  lemma PayloadKeys(intentId: Text, request: RequestDetails, appId: Text, timestamp: SafeInt)
    requires Signable(request.body)
    ensures var v := PayloadValue(intentId, request, appId, timestamp);
            && Normal(v).Obj? && DistinctKeys(Normal(v).members)
            && Keys(Normal(v).members) == SaidKeys() - (if request.body.Undefined? then {Ascii("body")} else {})
  {
    hide Valid, Encodable, Ascii, PayloadValue, Normal, SaidKeys, Keys, DistinctKeys;
    var v := PayloadValue(intentId, request, appId, timestamp);
    PayloadValid(intentId, request, appId, timestamp);
    WrittenKeys(intentId, request, appId, timestamp);
    NormalKeys(v);
  }

  lemma WrittenKeys(intentId: Text, request: RequestDetails, appId: Text, timestamp: SafeInt)
    ensures var v := PayloadValue(intentId, request, appId, timestamp);
            v.Obj? && PresentKeys(v.members) == SaidKeys() - (if request.body.Undefined? then {Ascii("body")} else {})
  {
    var ms := PayloadValue(intentId, request, appId, timestamp).members;
    assert DistinctKeys(ms) by { KeysDiffer(); }
    hide Ascii, PresentKeys, DistinctKeys;
    var ks := [Ascii("version"), Ascii("method"), Ascii("url"), Ascii("body"), Ascii("headers"), Ascii("intent_id"),
               Ascii("timestamp")];
    SevenKeys(ms, ks, request.body.Undefined?);
  }

  lemma NormalKeys(v: Value)
    requires Valid(v) && v.Obj?
    ensures Normal(v).Obj? && DistinctKeys(Normal(v).members) && Keys(Normal(v).members) == PresentKeys(v.members)
  {
    hide Ordered;
    NormalOrdered(v);
    IncreasingDistinct(Normal(v).members);
    KeysByIndex(Normal(v).members, Ordered(v.members));
    assert Keys(Ordered(v.members)) == PresentKeys(v.members);
  }

  lemma SevenKeys(ms: seq<Member>, ks: seq<Text>, absent: bool)
    requires |ms| == 7 && |ks| == 7 && DistinctKeys(ms) && forall i :: 0 <= i < 7 ==> ms[i].key == ks[i]
    requires forall i :: 0 <= i < 7 ==> (ms[i].value.Undefined? <==> i == 3 && absent)
    ensures PresentKeys(ms) == {ks[0], ks[1], ks[2], ks[3], ks[4], ks[5], ks[6]} - (if absent then {ks[3]} else {})
  {
    var all := {ks[0], ks[1], ks[2], ks[3], ks[4], ks[5], ks[6]} - (if absent then {ks[3]} else {});
    forall key | key in PresentKeys(ms)
      ensures key in all
    {
      var m :| m in ms && !m.value.Undefined? && m.key == key;
      var i :| 0 <= i < 7 && ms[i] == m;
      assert absent ==> ms[i].key != ms[3].key;
    }
    forall i | 0 <= i < 7 && !(i == 3 && absent)
      ensures ks[i] in PresentKeys(ms)
    {
      assert ms[i] in ms;
    }
    forall key | key in all
      ensures key in PresentKeys(ms)
    {
      var i :| 0 <= i < 7 && ks[i] == key;
    }
  }

  /** Equal member by member, up to the order of keys inside the bodies. */
  ghost predicate SamePayload(id: Text, a: RequestDetails, appId: Text, t: SafeInt,
                              id': Text, b: RequestDetails, appId': Text, t': SafeInt) {
    && id == id' && appId == appId' && t == t'
    && a.verb == b.verb && a.url == b.url
    && SameJson(SignedBody(a.body), SignedBody(b.body))
  }

  /**
   * What a signature covers: two payloads have the same bytes exactly when the intent, the time,
   * the application, the method, the URL and the signed body are the same.
   */
  lemma SameBytesIffSamePayload(id: Text, a: RequestDetails, appId: Text, t: SafeInt,
                                id': Text, b: RequestDetails, appId': Text, t': SafeInt)
    requires Signable(a.body) && Signable(b.body)
    ensures PayloadBytes(id, a, appId, t) == PayloadBytes(id', b, appId', t')
       <==> SamePayload(id, a, appId, t, id', b, appId', t')
  {
    var v, w := PayloadValue(id, a, appId, t), PayloadValue(id', b, appId', t');
    PayloadReadsBack(id, a, appId, t);
    PayloadReadsBack(id', b, appId', t');
    PayloadValid(id, a, appId, t);
    PayloadValid(id', b, appId', t');
    SameTextIffSame(v, w);
    SameMembers(id, a, appId, t, id', b, appId', t');
  }

  lemma SameMembers(id: Text, a: RequestDetails, appId: Text, t: SafeInt,
                    id': Text, b: RequestDetails, appId': Text, t': SafeInt)
    requires Signable(a.body) && Signable(b.body)
    ensures Normal(PayloadValue(id, a, appId, t)) == Normal(PayloadValue(id', b, appId', t'))
       <==> SamePayload(id, a, appId, t, id', b, appId', t')
    ensures SameJson(PayloadValue(id, a, appId, t), PayloadValue(id', b, appId', t'))
       <==> SamePayload(id, a, appId, t, id', b, appId', t')
  {
    var v, w := PayloadValue(id, a, appId, t), PayloadValue(id', b, appId', t');
    PayloadValid(id, a, appId, t);
    PayloadValid(id', b, appId', t');
    if SameJson(v, w) { SameGivesNormal(v, w); }
    if Normal(v) == Normal(w) {
      NormalGivesSame(v, w);
      MembersFromNormal(id, a, appId, t, id', b, appId', t');
    }
    if SamePayload(id, a, appId, t, id', b, appId', t') {
      SameFromMembers(id, a, b, appId, t);
    }
  }

  lemma MembersFromNormal(id: Text, a: RequestDetails, appId: Text, t: SafeInt,
                          id': Text, b: RequestDetails, appId': Text, t': SafeInt)
    requires Signable(a.body) && Signable(b.body)
    requires Normal(PayloadValue(id, a, appId, t)) == Normal(PayloadValue(id', b, appId', t'))
    ensures SamePayload(id, a, appId, t, id', b, appId', t')
  {
    var v, w := PayloadValue(id, a, appId, t), PayloadValue(id', b, appId', t');
    PayloadValid(id, a, appId, t);
    PayloadValid(id', b, appId', t');
    PayloadMembers(id, a, appId, t);
    PayloadMembers(id', b, appId', t');
    SameScalars(v, w);
    SameMember(v, w, KEY_HEADERS);
    HeadersBind(appId, appId');
    SameMember(v, w, KEY_BODY);
    NormalGivesSame(SignedBody(a.body), SignedBody(b.body));
  }

  lemma SameScalars(v: Value, w: Value)
    requires Valid(v) && Valid(w) && Normal(v) == Normal(w)
    requires Get(v, KEY_METHOD).Str? && Get(w, KEY_METHOD).Str?
    requires Get(v, KEY_URL).Str? && Get(w, KEY_URL).Str?
    requires Get(v, KEY_INTENT_ID).Str? && Get(w, KEY_INTENT_ID).Str?
    requires Get(v, KEY_TIMESTAMP).Num? && Get(w, KEY_TIMESTAMP).Num?
    ensures Get(v, KEY_METHOD) == Get(w, KEY_METHOD) && Get(v, KEY_URL) == Get(w, KEY_URL)
    ensures Get(v, KEY_INTENT_ID) == Get(w, KEY_INTENT_ID) && Get(v, KEY_TIMESTAMP) == Get(w, KEY_TIMESTAMP)
  {
    SameMember(v, w, KEY_METHOD);
    SameMember(v, w, KEY_URL);
    SameMember(v, w, KEY_INTENT_ID);
    SameMember(v, w, KEY_TIMESTAMP);
  }

  lemma SameMember(v: Value, w: Value, key: Text)
    requires Valid(v) && Valid(w) && Normal(v) == Normal(w)
    ensures Normal(Get(v, key)) == Normal(Get(w, key))
  {
    NormalGet(v, key);
    NormalGet(w, key);
  }

  lemma HeadersBind(appId: Text, appId': Text)
    ensures Normal(Headers(appId)) == Normal(Headers(appId')) ==> appId == appId'
  {
    HeadersValid(appId);
    HeadersValid(appId');
    NormalGet(Headers(appId), KEY_APP_ID);
    NormalGet(Headers(appId'), KEY_APP_ID);
  }

  lemma SameFromMembers(id: Text, a: RequestDetails, b: RequestDetails, appId: Text, t: SafeInt)
    requires Signable(a.body) && Signable(b.body)
    requires a.verb == b.verb && a.url == b.url && SameJson(SignedBody(a.body), SignedBody(b.body))
    ensures Normal(PayloadValue(id, a, appId, t)) == Normal(PayloadValue(id, b, appId, t))
    ensures SameJson(PayloadValue(id, a, appId, t), PayloadValue(id, b, appId, t))
  {
    var v, w := PayloadValue(id, a, appId, t), PayloadValue(id, b, appId, t);
    PayloadValid(id, a, appId, t);
    PayloadValid(id, b, appId, t);
    assert w.members == v.members[3 := Member(KEY_BODY, SignedBody(b.body))];
    SameByPosition(v, w, 3);
    SameGivesNormal(v, w);
  }

  /** Objects that list the same keys and differ in one member are the same if that member is. */
  lemma SameByPosition(v: Value, w: Value, k: nat)
    requires v.Obj? && w.Obj? && Valid(v) && Valid(w) && |v.members| == |w.members| && k < |v.members|
    requires w.members == v.members[k := Member(v.members[k].key, w.members[k].value)]
    requires SameJson(v.members[k].value, w.members[k].value)
    ensures SameJson(v, w)
  {
    var ms, ns := v.members, w.members;
    assert ms[k].value.Undefined? <==> ns[k].value.Undefined?;
    forall i | 0 <= i < |ms|
      ensures SameJson(ms[i].value, Lookup(ns, ms[i].key))
      ensures ms[i].value.Undefined? <==> ns[i].value.Undefined?
    {
      assert ms[i] in ms && ns[i] in ns;
      LookupFinds(ns, ns[i]);
      SameReflexive(ms[i].value);
    }
    assert PresentKeys(ms) == PresentKeys(ns) by {
      forall i | 0 <= i < |ms| && !ms[i].value.Undefined?
        ensures ms[i].key in PresentKeys(ns) && ns[i].key in PresentKeys(ms)
      {
        assert ms[i] in ms && ns[i] in ns;
      }
    }
  }

  lemma SameReflexive(v: Value)
    requires Valid(v)
    ensures SameJson(v, v)
  {
    NormalGivesSame(v, v);
  }

  /** Bodies the printer cannot tell apart although they are different values: the three empty ones. */
  predicate Collapsed(body: Value) {
    EmptyBody(body) || body == Str([])
  }

  /** No undefined member on the outside, as in anything JSON.parse returns. */
  predicate Parsed(body: Value) {
    body.Obj? ==> forall m | m in body.members :: !m.value.Undefined?
  }

  /** The one collapse: on parsed bodies, signing confuses `{}`, `[]` and `""`, and nothing else. */
  lemma OnlyEmptyBodiesCollapse(a: Value, b: Value)
    requires Parsed(a) && Parsed(b) && Valid(a) && Valid(b)
    ensures SameJson(SignedBody(a), SignedBody(b)) <==> SameJson(a, b) || (Collapsed(a) && Collapsed(b))
  {
    SomeKey(a);
    SomeKey(b);
  }

  lemma SomeKey(body: Value)
    requires Parsed(body)
    ensures body.Obj? && body.members != [] ==> PresentKeys(body.members) != {}
  {
    if body.Obj? && body.members != [] {
      assert body.members[0] in body.members;
      assert body.members[0].key in PresentKeys(body.members);
    }
  }

  /** With an undefined member the empty-body rule no longer sees an empty object. */
  lemma UndefinedMemberIsNotEmpty(key: Text)
    ensures var a, b := Obj([]), Obj([Member(key, Undefined)]);
            SameJson(a, b) && !SameJson(SignedBody(a), SignedBody(b))
  {
  }
}
