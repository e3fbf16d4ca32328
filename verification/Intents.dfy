// Privy's side: intents, and whether one records exactly the transaction that was pinned.
module Intents {
  import opened Outcomes
  import opened Utf16
  import opened Numerals
  import opened Json
  import opened JsonLaws
  import opened JsonMeaning
  import opened Payload
  import opened Transactions

  datatype Status = Pending | Granted | Processing | Executed | Failed | Expired | Rejected | Dismissed

  /** The statuses in which a proposal still holds the nonce it pinned. */
  predicate Open(s: Status) {
    s.Pending? || s.Granted? || s.Processing? || s.Executed?
  }

  /** A quorum member that is a key. Keys are compared after normalisation, so equal text is one key. */
  datatype KeyMember = KeyMember(publicKey: Text, signedAt: Option<int>)

  datatype Intent = Intent(
    id: Text, status: Status, request: RequestDetails, members: seq<KeyMember>, threshold: nat,
    createdAt: int, expiresAt: int, signed: Option<SignedTx>)

  function MemberKeys(i: Intent): (keys: set<Text>) {
    set m | m in i.members :: m.publicKey
  }

  const POST := Ascii("POST")
  const PARAMS := Ascii("params")
  const TRANSACTION := Ascii("transaction")
  const SIGN_TRANSACTION := Ascii("eth_signTransaction")

  /** `body?.params?.transaction`. */
  function TransactionOf(body: Value): (tx: Value) {
    Get(Get(body, PARAMS), TRANSACTION)
  }

  /** `BigInt(actual)`, for the numbers and strings a quantity may be recorded as. */
  function QuantityOf(v: Value): (n: Option<int>) {
    match v
    case Num(n) => Some(n)
    case Str(s) => BigIntOf(s)
    case _ => None
  }

  predicate TextIs(v: Value, expected: Text) {
    v.Str? && Lower(v.s) == Lower(expected)
  }

  const QUANTITY_FIELDS: set<Text> := {CHAIN_ID, NONCE, GAS_LIMIT, MAX_FEE, MAX_PRIORITY_FEE, VALUE, TYPE}

  /** `sameField`: quantities by value, text without regard to case. */
  predicate SameField(field: Text, actual: Value, expected: Value) {
    if field in QUANTITY_FIELDS then QuantityOf(actual).Some? && QuantityOf(actual) == QuantityOf(expected)
    else expected.Str? && TextIs(actual, expected.s)
  }

  /** Every field that reaches the chain has the pinned value, whatever its spelling. */
  predicate FieldsPinned(recorded: Value, tx: Pinned) {
    && TextIs(Get(recorded, TO), tx.to)
    && TextIs(Get(recorded, DATA), tx.data)
    && QuantityOf(Get(recorded, VALUE)) == Some(0)
    && QuantityOf(Get(recorded, CHAIN_ID)) == Some(tx.chainId)
    && QuantityOf(Get(recorded, NONCE)) == Some(tx.nonce)
    && QuantityOf(Get(recorded, GAS_LIMIT)) == Some(tx.gas)
    && QuantityOf(Get(recorded, MAX_FEE)) == Some(tx.maxFeePerGas)
    && QuantityOf(Get(recorded, MAX_PRIORITY_FEE)) == Some(tx.maxPriorityFeePerGas)
    && QuantityOf(Get(recorded, TYPE)) == Some(2)
  }

  /** The recorded request asks the wallet to sign the pinned transaction. */
  predicate RecordsPinned(request: RequestDetails, rpcPath: Text, tx: Pinned) {
    && request.verb == POST
    && EndsWith(request.url, rpcPath)
    && Get(request.body, KEY_METHOD) == Str(SIGN_TRANSACTION)
    && FieldsPinned(TransactionOf(request.body), tx)
  }

  datatype Problem = HttpMethod(verb: Text) | Url(url: Text) | RpcMethod(value: Value) | Field(name: Text, value: Value)

  /** The member reads as this text, but for case. */
  predicate ReadsText(v: Value, t: Text) {
    v.Str? && SameLetters(v.s, t)
  }

  /** The member reads as this number, written as one or as any text `BigInt` takes for it. */
  ghost predicate ReadsNumber(v: Value, n: int) {
    (v.Num? && v.n == n) || (v.Str? && exists t :: Trims(v.s, t) && Denotes(t, n))
  }

  /** A transaction, as a request holds it, with every field as pinned. */
  ghost predicate HoldsPinned(t: Value, tx: Pinned) {
    && ReadsText(Get(t, Ascii("to")), tx.to) && ReadsText(Get(t, Ascii("data")), tx.data)
    && ReadsNumber(Get(t, Ascii("value")), 0) && ReadsNumber(Get(t, Ascii("type")), 2)
    && ReadsNumber(Get(t, Ascii("chain_id")), tx.chainId) && ReadsNumber(Get(t, Ascii("nonce")), tx.nonce)
    && ReadsNumber(Get(t, Ascii("gas_limit")), tx.gas)
    && ReadsNumber(Get(t, Ascii("max_fee_per_gas")), tx.maxFeePerGas)
    && ReadsNumber(Get(t, Ascii("max_priority_fee_per_gas")), tx.maxPriorityFeePerGas)
  }

  /** The request posts `eth_signTransaction` to a URL that ends in the wallet's path, with what was pinned. */
  ghost predicate AsksToSign(request: RequestDetails, rpcPath: Text, tx: Pinned) {
    && request.verb == Ascii("POST")
    && (exists before :: request.url == before + rpcPath)
    && Get(request.body, Ascii("method")) == Str(Ascii("eth_signTransaction"))
    && HoldsPinned(Get(Get(request.body, Ascii("params")), Ascii("transaction")), tx)
  }

  lemma FieldNames()
    ensures TO !in QUANTITY_FIELDS && DATA !in QUANTITY_FIELDS
  {
    assert |TO| == 2 && |DATA| == 4 && |CHAIN_ID| == 8 && |NONCE| == 5 && |GAS_LIMIT| == 9 && |MAX_FEE| == 15;
    assert |MAX_PRIORITY_FEE| == 24 && |VALUE| == 5 && |TYPE| == 4;
    assert DATA[0] == 'd' as int && TYPE[0] == 't' as int;
  }

  /** What one field of `toPrivyTransaction(pinned)` is compared for. */
  predicate FieldPinned(recorded: Value, tx: Pinned, i: nat)
    requires i < 9
  {
    var field := ToPrivyTransaction(tx)[i];
    SameField(field.key, Get(recorded, field.key), field.value)
  }

  /** A quantity Privy was sent as hexadecimal is compared as the number it stands for. */
  lemma HexField(recorded: Value, tx: Pinned, i: nat, name: Text, n: nat)
    requires i < 9 && name in QUANTITY_FIELDS && ToPrivyTransaction(tx)[i] == Member(name, Str(Hexadecimal(n)))
    ensures FieldPinned(recorded, tx, i) <==> QuantityOf(Get(recorded, name)) == Some(n)
  {
    BigIntOfHexadecimal(n);
  }

  lemma TextFields(recorded: Value, tx: Pinned)
    ensures FieldPinned(recorded, tx, 0) <==> TextIs(Get(recorded, TO), tx.to)
    ensures FieldPinned(recorded, tx, 1) <==> TextIs(Get(recorded, DATA), tx.data)
  {
    FieldNames();
  }

  lemma FixedFields(recorded: Value, tx: Pinned)
    ensures FieldPinned(recorded, tx, 2) <==> QuantityOf(Get(recorded, VALUE)) == Some(0)
    ensures FieldPinned(recorded, tx, 3) <==> QuantityOf(Get(recorded, CHAIN_ID)) == Some(tx.chainId)
    ensures FieldPinned(recorded, tx, 8) <==> QuantityOf(Get(recorded, TYPE)) == Some(2)
  {
    HexField(recorded, tx, 2, VALUE, 0);
  }

  lemma HexFields(recorded: Value, tx: Pinned)
    ensures FieldPinned(recorded, tx, 4) <==> QuantityOf(Get(recorded, NONCE)) == Some(tx.nonce)
    ensures FieldPinned(recorded, tx, 5) <==> QuantityOf(Get(recorded, GAS_LIMIT)) == Some(tx.gas)
    ensures FieldPinned(recorded, tx, 6) <==> QuantityOf(Get(recorded, MAX_FEE)) == Some(tx.maxFeePerGas)
    ensures FieldPinned(recorded, tx, 7) <==> QuantityOf(Get(recorded, MAX_PRIORITY_FEE)) == Some(tx.maxPriorityFeePerGas)
  {
    HexField(recorded, tx, 4, NONCE, tx.nonce);
    HexField(recorded, tx, 5, GAS_LIMIT, tx.gas);
    HexField(recorded, tx, 6, MAX_FEE, tx.maxFeePerGas);
    HexField(recorded, tx, 7, MAX_PRIORITY_FEE, tx.maxPriorityFeePerGas);
  }

  /** The loop over `toPrivyTransaction(pinned)` compares exactly the fields that matter. */
  lemma FieldsCompared(recorded: Value, tx: Pinned)
    ensures (forall i :: 0 <= i < 9 ==> FieldPinned(recorded, tx, i)) <==> FieldsPinned(recorded, tx)
  {
    TextFields(recorded, tx);
    FixedFields(recorded, tx);
    HexFields(recorded, tx);
    if FieldsPinned(recorded, tx) {
      forall i | 0 <= i < 9
        ensures FieldPinned(recorded, tx, i)
      {
        assert i == 0 || i == 1 || i == 2 || i == 3 || i == 4 || i == 5 || i == 6 || i == 7 || i == 8;
      }
    }
  }

  lemma ReadsAs(v: Value)
    ensures forall t :: TextIs(v, t) <==> ReadsText(v, t)
    ensures forall n :: QuantityOf(v) == Some(n) <==> ReadsNumber(v, n)
  {
    hide Lower, SameLetters, BigIntOf, Denotes, Trims;
    if v.Str? {
      forall t { LowerAlike(v.s, t); }
      forall n { BigIntOfExactly(v.s, n); }
    }
  }

  lemma HoldsAre(t: Value, tx: Pinned)
    ensures FieldsPinned(t, tx) <==> HoldsPinned(t, tx)
  {
    hide Get, TextIs, QuantityOf, ReadsText, ReadsNumber, Ascii;
    forall key { ReadsAs(Get(t, key)); }
  }

  /** The check by code is the check by names and values. */
  lemma RecordsMeansAsks(request: RequestDetails, rpcPath: Text, tx: Pinned)
    ensures RecordsPinned(request, rpcPath, tx) <==> AsksToSign(request, rpcPath, tx)
  {
    hide Get, FieldsPinned, HoldsPinned, EndsWith, Ascii;
    EndsWithMeans(request.url, rpcPath);
    HoldsAre(TransactionOf(request.body), tx);
  }

  /** This field of the recorded transaction does not read as pinned. */
  ghost predicate Misreads(name: Text, v: Value, tx: Pinned) {
    || (name == Ascii("to") && !ReadsText(v, tx.to))
    || (name == Ascii("data") && !ReadsText(v, tx.data))
    || (name == Ascii("value") && !ReadsNumber(v, 0))
    || (name == Ascii("chain_id") && !ReadsNumber(v, tx.chainId))
    || (name == Ascii("nonce") && !ReadsNumber(v, tx.nonce))
    || (name == Ascii("gas_limit") && !ReadsNumber(v, tx.gas))
    || (name == Ascii("max_fee_per_gas") && !ReadsNumber(v, tx.maxFeePerGas))
    || (name == Ascii("max_priority_fee_per_gas") && !ReadsNumber(v, tx.maxPriorityFeePerGas))
    || (name == Ascii("type") && !ReadsNumber(v, 2))
  }

  /** What is wrong with a request, as the service names it. */
  ghost predicate IsProblem(p: Problem, request: RequestDetails, rpcPath: Text, tx: Pinned) {
    match p
    case HttpMethod(verb) => verb == request.verb && verb != Ascii("POST")
    case Url(url) => url == request.url && forall before :: url != before + rpcPath
    case RpcMethod(v) => v == Get(request.body, Ascii("method")) && v != Str(Ascii("eth_signTransaction"))
    case Field(name, v) =>
      v == Get(Get(Get(request.body, Ascii("params")), Ascii("transaction")), name) && Misreads(name, v, tx)
  }

  /** One of the first k comparisons fails, and p says so. */
  ghost predicate FoundBy(p: Problem, recorded: Value, tx: Pinned, k: nat)
    requires k <= 9
  {
    exists i :: 0 <= i < k && FoundAt(p, recorded, tx, i)
  }

  predicate FoundAt(p: Problem, recorded: Value, tx: Pinned, i: nat)
    requires i < 9
  {
    var name := ToPrivyTransaction(tx)[i].key;
    !FieldPinned(recorded, tx, i) && p == Field(name, Get(recorded, name))
  }

  lemma FoundNine(p: Problem, recorded: Value, tx: Pinned)
    ensures FoundBy(p, recorded, tx, 9) <==>
      || FoundAt(p, recorded, tx, 0) || FoundAt(p, recorded, tx, 1) || FoundAt(p, recorded, tx, 2)
      || FoundAt(p, recorded, tx, 3) || FoundAt(p, recorded, tx, 4) || FoundAt(p, recorded, tx, 5)
      || FoundAt(p, recorded, tx, 6) || FoundAt(p, recorded, tx, 7) || FoundAt(p, recorded, tx, 8)
  {
    hide FoundAt;
    if FoundBy(p, recorded, tx, 9) {
      var i :| 0 <= i < 9 && FoundAt(p, recorded, tx, i);
      assert i == 0 || i == 1 || i == 2 || i == 3 || i == 4 || i == 5 || i == 6 || i == 7 || i == 8;
    }
  }

  lemma FoundTexts(recorded: Value, tx: Pinned, name: Text)
    ensures var v := Get(recorded, name); var p := Field(name, v);
            && (FoundAt(p, recorded, tx, 0) <==> name == Ascii("to") && !ReadsText(v, tx.to))
            && (FoundAt(p, recorded, tx, 1) <==> name == Ascii("data") && !ReadsText(v, tx.data))
  {
    hide FieldPinned, TextIs, ReadsText, Ascii, Get, Hexadecimal;
    TextFields(recorded, tx);
    ReadsAs(Get(recorded, name));
  }

  lemma FoundFixed(recorded: Value, tx: Pinned, name: Text)
    ensures var v := Get(recorded, name); var p := Field(name, v);
            && (FoundAt(p, recorded, tx, 2) <==> name == Ascii("value") && !ReadsNumber(v, 0))
            && (FoundAt(p, recorded, tx, 3) <==> name == Ascii("chain_id") && !ReadsNumber(v, tx.chainId))
            && (FoundAt(p, recorded, tx, 8) <==> name == Ascii("type") && !ReadsNumber(v, 2))
  {
    hide FieldPinned, QuantityOf, ReadsNumber, Ascii, Get, Hexadecimal;
    FixedFields(recorded, tx);
    ReadsAs(Get(recorded, name));
  }

  lemma FoundHex(recorded: Value, tx: Pinned, name: Text)
    ensures var v := Get(recorded, name); var p := Field(name, v);
            && (FoundAt(p, recorded, tx, 4) <==> name == Ascii("nonce") && !ReadsNumber(v, tx.nonce))
            && (FoundAt(p, recorded, tx, 5) <==> name == Ascii("gas_limit") && !ReadsNumber(v, tx.gas))
            && (FoundAt(p, recorded, tx, 6) <==> name == Ascii("max_fee_per_gas") && !ReadsNumber(v, tx.maxFeePerGas))
            && (FoundAt(p, recorded, tx, 7) <==>
                name == Ascii("max_priority_fee_per_gas") && !ReadsNumber(v, tx.maxPriorityFeePerGas))
  {
    hide FieldPinned, QuantityOf, ReadsNumber, Ascii, Get, Hexadecimal;
    HexFields(recorded, tx);
    ReadsAs(Get(recorded, name));
  }

  lemma MisreadFields(recorded: Value, tx: Pinned, name: Text)
    ensures FoundBy(Field(name, Get(recorded, name)), recorded, tx, 9) <==> Misreads(name, Get(recorded, name), tx)
  {
    hide FoundAt, FoundBy, ReadsText, ReadsNumber, Ascii, Get;
    FoundNine(Field(name, Get(recorded, name)), recorded, tx);
    FoundTexts(recorded, tx, name);
    FoundFixed(recorded, tx, name);
    FoundHex(recorded, tx, name);
  }

  /** The problems of a request are its verb, its URL and its method, and the fields that misread. */
  lemma ProblemsAre(request: RequestDetails, rpcPath: Text, tx: Pinned, p: Problem)
    ensures IsProblem(p, request, rpcPath, tx) <==>
      || (request.verb != POST && p == HttpMethod(request.verb))
      || (!EndsWith(request.url, rpcPath) && p == Url(request.url))
      || (Get(request.body, KEY_METHOD) != Str(SIGN_TRANSACTION) && p == RpcMethod(Get(request.body, KEY_METHOD)))
      || FoundBy(p, TransactionOf(request.body), tx, 9)
  {
    hide Get, EndsWith, Ascii, FieldPinned, ToPrivyTransaction, Misreads;
    EndsWithMeans(request.url, rpcPath);
    if p.Field? { MisreadFields(TransactionOf(request.body), tx, p.name); }
  }

  /** There is none exactly when the request records what was pinned. */
  lemma NoProblems(request: RequestDetails, rpcPath: Text, tx: Pinned)
    ensures (forall p :: !IsProblem(p, request, rpcPath, tx)) <==> RecordsPinned(request, rpcPath, tx)
  {
    hide Get, EndsWith, Ascii, FieldPinned, FieldsPinned, IsProblem, TransactionOf;
    var recorded := TransactionOf(request.body);
    forall p { ProblemsAre(request, rpcPath, tx, p); }
    FieldsCompared(recorded, tx);
    if forall p :: !IsProblem(p, request, rpcPath, tx) {
      assert !IsProblem(HttpMethod(request.verb), request, rpcPath, tx) && !IsProblem(Url(request.url), request, rpcPath, tx);
      assert !IsProblem(RpcMethod(Get(request.body, KEY_METHOD)), request, rpcPath, tx);
      forall i | 0 <= i < 9
        ensures FieldPinned(recorded, tx, i)
      {
        var name := ToPrivyTransaction(tx)[i].key;
        var p := Field(name, Get(recorded, name));
        assert !IsProblem(p, request, rpcPath, tx) && !FoundAt(p, recorded, tx, i);
      }
    }
  }

  lemma FoundNext(recorded: Value, tx: Pinned, i: nat)
    requires i < 9
    ensures forall p :: FoundBy(p, recorded, tx, i + 1) <==> FoundBy(p, recorded, tx, i) || FoundAt(p, recorded, tx, i)
  {
    hide FoundAt;
  }

  /** `assertIntentMatches` lists exactly what is wrong: nothing if the request asks to sign what was pinned. */
  method IntentProblems(request: RequestDetails, rpcPath: Text, tx: Pinned) returns (problems: seq<Problem>)
    ensures problems == [] <==> RecordsPinned(request, rpcPath, tx)
    ensures problems == [] <==> AsksToSign(request, rpcPath, tx)
    ensures forall p :: p in problems <==> IsProblem(p, request, rpcPath, tx)
  {
    hide Get, TransactionOf, EndsWith, FieldsPinned, SameField, AsksToSign, IsProblem;
    problems := [];
    if request.verb != POST { problems := problems + [HttpMethod(request.verb)]; }
    if !EndsWith(request.url, rpcPath) { problems := problems + [Url(request.url)]; }
    var rpcMethod := Get(request.body, KEY_METHOD);
    if rpcMethod != Str(SIGN_TRANSACTION) { problems := problems + [RpcMethod(rpcMethod)]; }
    var recorded := TransactionOf(request.body);
    var fields := ToPrivyTransaction(tx);
    ghost var before := problems;
    for i := 0 to |fields|
      invariant forall p :: p in problems <==> p in before || FoundBy(p, recorded, tx, i)
    {
      var field := fields[i];
      assert FieldPinned(recorded, tx, i) <==> SameField(field.key, Get(recorded, field.key), field.value);
      if !SameField(field.key, Get(recorded, field.key), field.value) {
        problems := problems + [Field(field.key, Get(recorded, field.key))];
      }
      FoundNext(recorded, tx, i);
    }
    forall p
      ensures p in problems <==> IsProblem(p, request, rpcPath, tx)
    {
      ProblemsAre(request, rpcPath, tx, p);
    }
    RecordsMeansAsks(request, rpcPath, tx);
    NoProblems(request, rpcPath, tx);
    assert problems != [] ==> IsProblem(problems[0], request, rpcPath, tx);
  }

  // ---- An honest recording ---------------------------------------------------------------------------

  lemma NormalText(v: Value)
    ensures forall s :: Normal(v) == Str(s) <==> v == Str(s)
    ensures forall t :: TextIs(Normal(v), t) <==> TextIs(v, t)
    ensures QuantityOf(Normal(v)) == QuantityOf(v)
  {
  }

  lemma BodyRead(body: Value)
    requires Valid(body)
    ensures TransactionOf(Normal(body)) == Normal(TransactionOf(body)) && Valid(TransactionOf(body))
    ensures Get(Normal(body), KEY_METHOD) == Str(SIGN_TRANSACTION) <==> Get(body, KEY_METHOD) == Str(SIGN_TRANSACTION)
  {
    hide Normal, Valid, Get, SIGN_TRANSACTION;
    NormalGet(body, KEY_METHOD);
    NormalText(Get(body, KEY_METHOD));
    NormalGet(body, PARAMS);
    ValidGet(body, PARAMS);
    NormalGet(Get(body, PARAMS), TRANSACTION);
    ValidGet(Get(body, PARAMS), TRANSACTION);
  }

  lemma FieldsRead(recorded: Value, tx: Pinned)
    requires Valid(recorded)
    ensures FieldsPinned(Normal(recorded), tx) <==> FieldsPinned(recorded, tx)
  {
    hide Normal, Valid, Get, TextIs, QuantityOf;
    forall key: Text
      ensures forall t :: TextIs(Get(Normal(recorded), key), t) <==> TextIs(Get(recorded, key), t)
      ensures QuantityOf(Get(Normal(recorded), key)) == QuantityOf(Get(recorded, key))
    {
      NormalGet(recorded, key);
      NormalText(Get(recorded, key));
    }
  }

  /** The request `propose` makes of Privy: sign this transaction. */
  function ProposedBody(tx: Pinned): (body: Value) {
    Obj([
      Member(KEY_METHOD, Str(SIGN_TRANSACTION)),
      Member(PARAMS, Obj([Member(TRANSACTION, Obj(ToPrivyTransaction(tx)))]))])
  }

  lemma PrivyFieldsDistinct(tx: Pinned)
    ensures DistinctKeys(ToPrivyTransaction(tx)) && Valid(Obj(ToPrivyTransaction(tx)))
  {
    assert |TO| == 2 && |DATA| == 4 && |VALUE| == 5 && |CHAIN_ID| == 8 && |NONCE| == 5 && |GAS_LIMIT| == 9;
    assert |MAX_FEE| == 15 && |MAX_PRIORITY_FEE| == 24 && |TYPE| == 4;
    assert DATA[0] == 'd' as int && TYPE[0] == 't' as int && VALUE[0] == 'v' as int && NONCE[0] == 'n' as int;
    hide TO, DATA, VALUE, CHAIN_ID, NONCE, GAS_LIMIT, MAX_FEE, MAX_PRIORITY_FEE, TYPE, Hexadecimal;
    var ms := ToPrivyTransaction(tx);
    assert DistinctKeys(ms);
    forall m | m in ms
      ensures Valid(m.value)
    {
    }
  }

  /** A member written as a hexadecimal quantity. */
  ghost predicate HexMember(v: Value, n: nat) {
    v.Str? && IsHexOf(v.s, n)
  }

  lemma HexSent(n: nat)
    ensures HexMember(Str(Hexadecimal(n)), n)
  {
    HexadecimalIs(n);
  }

  /** The transaction Privy is sent: nine members, quantities in hexadecimal, no value, EIP-1559. */
  ghost predicate SendsPinned(sent: Value, tx: Pinned) {
    && sent.Obj? && |sent.members| == 9 && DistinctKeys(sent.members)
    && Get(sent, Ascii("to")) == Str(tx.to) && Get(sent, Ascii("data")) == Str(tx.data)
    && HexMember(Get(sent, Ascii("value")), 0)
    && Get(sent, Ascii("chain_id")) == Num(tx.chainId) && Get(sent, Ascii("type")) == Num(2)
    && HexMember(Get(sent, Ascii("nonce")), tx.nonce) && HexMember(Get(sent, Ascii("gas_limit")), tx.gas)
    && HexMember(Get(sent, Ascii("max_fee_per_gas")), tx.maxFeePerGas)
    && HexMember(Get(sent, Ascii("max_priority_fee_per_gas")), tx.maxPriorityFeePerGas)
  }

  lemma SentField(tx: Pinned, i: nat)
    requires i < 9
    ensures var field := ToPrivyTransaction(tx)[i]; Get(Obj(ToPrivyTransaction(tx)), field.key) == field.value
  {
    var ms := ToPrivyTransaction(tx);
    PrivyFieldsDistinct(tx);
    assert |ms| == 9;
    hide ToPrivyTransaction;
    LookupFinds(ms, ms[i]);
  }

  lemma SentAsPinned(tx: Pinned)
    ensures SendsPinned(Obj(ToPrivyTransaction(tx)), tx)
  {
    hide DistinctKeys, Ascii, Hexadecimal, HexMember, Get;
    PrivyFieldsDistinct(tx);
    HexSent(0);
    HexSent(tx.nonce);
    HexSent(tx.gas);
    HexSent(tx.maxFeePerGas);
    HexSent(tx.maxPriorityFeePerGas);
    SentField(tx, 0);
    SentField(tx, 1);
    SentField(tx, 2);
    SentField(tx, 3);
    SentField(tx, 4);
    SentField(tx, 5);
    SentField(tx, 6);
    SentField(tx, 7);
    SentField(tx, 8);
  }

  /** What is sent is what will be compared for. */
  lemma ProposedFields(tx: Pinned)
    ensures FieldsPinned(Obj(ToPrivyTransaction(tx)), tx)
  {
    var sent := Obj(ToPrivyTransaction(tx));
    PrivyFieldsDistinct(tx);
    assert |sent.members| == 9;
    hide ToPrivyTransaction, Hexadecimal, BigIntOf, DistinctKeys, Valid, Lower, SameField;
    forall i | 0 <= i < 9
      ensures FieldPinned(sent, tx, i)
    {
      LookupFinds(sent.members, sent.members[i]);
      SameAsItself(tx, i);
    }
    FieldsCompared(sent, tx);
  }

  lemma SameAsItself(tx: Pinned, i: nat)
    requires i < 9
    ensures var field := ToPrivyTransaction(tx)[i]; SameField(field.key, field.value, field.value)
  {
    hide Hexadecimal, BigIntOf, Lower;
    FieldNames();
    assert i == 0 || i == 1 || i == 2 || i == 3 || i == 4 || i == 5 || i == 6 || i == 7 || i == 8;
    BigIntOfHexadecimal(0);
    BigIntOfHexadecimal(tx.nonce);
    BigIntOfHexadecimal(tx.gas);
    BigIntOfHexadecimal(tx.maxFeePerGas);
    BigIntOfHexadecimal(tx.maxPriorityFeePerGas);
  }

  lemma TwoMembers(j: Text, v: Value, k: Text, w: Value)
    requires j != k && Valid(v) && Valid(w)
    ensures Valid(Obj([Member(j, v), Member(k, w)]))
    ensures Get(Obj([Member(j, v), Member(k, w)]), j) == v && Get(Obj([Member(j, v), Member(k, w)]), k) == w
  {
    var ms := [Member(j, v), Member(k, w)];
    LookupFinds(ms, ms[0]);
    LookupFinds(ms, ms[1]);
  }

  lemma ProposedReads(tx: Pinned)
    ensures Valid(ProposedBody(tx))
    ensures Get(ProposedBody(tx), KEY_METHOD) == Str(SIGN_TRANSACTION)
    ensures TransactionOf(ProposedBody(tx)) == Obj(ToPrivyTransaction(tx))
  {
    assert KEY_METHOD != PARAMS by { assert KEY_METHOD[0] == 'm' as int && PARAMS[0] == 'p' as int; }
    PrivyFieldsDistinct(tx);
    hide ToPrivyTransaction, KEY_METHOD, PARAMS, TRANSACTION, SIGN_TRANSACTION;
    var params := Obj([Member(TRANSACTION, Obj(ToPrivyTransaction(tx)))]);
    LookupFinds(params.members, params.members[0]);
    TwoMembers(KEY_METHOD, Str(SIGN_TRANSACTION), PARAMS, params);
  }

  lemma ObjectEncodable(ms: seq<Member>)
    requires forall m | m in ms :: Encodable(m.value)
    ensures Encodable(Obj(ms))
  {
  }

  lemma ScalarEncodable(v: Value)
    requires v.Str? || v.Num?
    ensures Encodable(v)
  {
  }

  lemma FieldsEncodable(tx: Pinned)
    ensures forall m | m in ToPrivyTransaction(tx) :: Encodable(m.value)
  {
    hide TO, DATA, VALUE, CHAIN_ID, NONCE, GAS_LIMIT, MAX_FEE, MAX_PRIORITY_FEE, TYPE, Hexadecimal, Encodable;
    forall m | m in ToPrivyTransaction(tx)
      ensures Encodable(m.value)
    {
      ScalarEncodable(m.value);
    }
  }

  /** And it is something an approver can be asked to sign. */
  lemma ProposedSignable(tx: Pinned)
    ensures Signable(ProposedBody(tx))
  {
    hide ToPrivyTransaction, Encodable, Valid, KEY_METHOD, PARAMS, TRANSACTION, SIGN_TRANSACTION;
    ProposedReads(tx);
    FieldsEncodable(tx);
    ObjectEncodable(ToPrivyTransaction(tx));
    var params := [Member(TRANSACTION, Obj(ToPrivyTransaction(tx)))];
    ObjectEncodable(params);
    ScalarEncodable(Str(SIGN_TRANSACTION));
    ObjectEncodable([Member(KEY_METHOD, Str(SIGN_TRANSACTION)), Member(PARAMS, Obj(params))]);
  }

  /**
   * An honest recording is never refused: whatever order Privy keeps the members in, a request that
   * is the JSON value that was proposed, at this wallet's path, records what was pinned.
   */
  lemma HonestRecordingMatches(request: RequestDetails, rpcPath: Text, tx: Pinned)
    requires request.verb == POST && EndsWith(request.url, rpcPath)
    requires Valid(request.body) && SameJson(request.body, ProposedBody(tx))
    ensures RecordsPinned(request, rpcPath, tx)
  {
    hide Normal, SameJson, Valid, FieldsPinned, ToPrivyTransaction, Get;
    var body, sent := request.body, ProposedBody(tx);
    ProposedReads(tx);
    ProposedFields(tx);
    SameGivesNormal(body, sent);
    BodyRead(body);
    BodyRead(sent);
    FieldsRead(TransactionOf(body), tx);
    FieldsRead(TransactionOf(sent), tx);
  }
}
