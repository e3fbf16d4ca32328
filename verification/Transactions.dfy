// What is pinned at proposal, what Privy is asked to sign, and what it returns.
module Transactions {
  import opened Outcomes
  import opened Utf16
  import opened Numerals
  import opened Json

  type Address = Text
  type Hex = Text

  const ARC_TESTNET: SafeInt := 5_042_002

  /** Every field the signed transaction must carry. */
  datatype Pinned = Pinned(
    chainId: SafeInt, from: Address, to: Address, data: Hex,
    nonce: nat, gas: nat, maxFeePerGas: nat, maxPriorityFeePerGas: nat)

  /** The same record as the store keeps it: quantities that may not fit a double are text. */
  datatype SerializedPinned = SerializedPinned(
    chainId: SafeInt, from: Address, to: Address, data: Hex,
    nonce: nat, gas: Text, maxFeePerGas: Text, maxPriorityFeePerGas: Text)

  predicate SameAddress(a: Address, b: Address) {
    Lower(a) == Lower(b)
  }

  /** Addresses are the same whatever the case of their letters, which may carry a checksum. */
  lemma SameAddressIs(a: Address, b: Address)
    ensures SameAddress(a, b) <==> SameLetters(a, b)
  {
    LowerAlike(a, b);
  }

  function SerializePinned(tx: Pinned): (s: SerializedPinned) {
    SerializedPinned(tx.chainId, tx.from, tx.to, tx.data, tx.nonce,
                     Decimal(tx.gas), Decimal(tx.maxFeePerGas), Decimal(tx.maxPriorityFeePerGas))
  }

  function Quantity(t: Text): (n: Option<nat>) {
    match BigIntOf(t)
    case Some(n) => if n >= 0 then Some(n) else None
    case None => None
  }

  /** `deserializePinned`; none where `BigInt` would throw. */
  function DeserializePinned(s: SerializedPinned): (tx: Option<Pinned>) {
    var gas :- Quantity(s.gas);
    var maxFee :- Quantity(s.maxFeePerGas);
    var maxPriority :- Quantity(s.maxPriorityFeePerGas);
    Some(Pinned(s.chainId, s.from, s.to, s.data, s.nonce, gas, maxFee, maxPriority))
  }

  /** What is stored is what was pinned, its large quantities as decimal text. */
  lemma PinnedRoundTrip(tx: Pinned)
    ensures DeserializePinned(SerializePinned(tx)) == Some(tx)
    ensures var s := SerializePinned(tx);
            && Writes(s.gas, 10, tx.gas) && Writes(s.maxFeePerGas, 10, tx.maxFeePerGas)
            && Writes(s.maxPriorityFeePerGas, 10, tx.maxPriorityFeePerGas)
  {
    hide Decimal, BigIntOf, AllDigits, ValueOf;
    BigIntOfDecimal(tx.gas);
    BigIntOfDecimal(tx.maxFeePerGas);
    BigIntOfDecimal(tx.maxPriorityFeePerGas);
    DecimalDigits(tx.gas);
    DecimalDigits(tx.maxFeePerGas);
    DecimalDigits(tx.maxPriorityFeePerGas);
  }

  const TO := Ascii("to")
  const DATA := Ascii("data")
  const VALUE := Ascii("value")
  const CHAIN_ID := Ascii("chain_id")
  const NONCE := Ascii("nonce")
  const GAS_LIMIT := Ascii("gas_limit")
  const MAX_FEE := Ascii("max_fee_per_gas")
  const MAX_PRIORITY_FEE := Ascii("max_priority_fee_per_gas")
  const TYPE := Ascii("type")

  /** `toPrivyTransaction`: the object Privy is asked to sign. */
  function ToPrivyTransaction(tx: Pinned): (fields: seq<Member>) {
    [ Member(TO, Str(tx.to)),
      Member(DATA, Str(tx.data)),
      Member(VALUE, Str(Hexadecimal(0))),
      Member(CHAIN_ID, Num(tx.chainId)),
      Member(NONCE, Str(Hexadecimal(tx.nonce))),
      Member(GAS_LIMIT, Str(Hexadecimal(tx.gas))),
      Member(MAX_FEE, Str(Hexadecimal(tx.maxFeePerGas))),
      Member(MAX_PRIORITY_FEE, Str(Hexadecimal(tx.maxPriorityFeePerGas))),
      Member(TYPE, Num(2)) ]
  }

  // ---- The signed transaction --------------------------------------------------------------------

  /**
   * The bytes Privy returns, seen through the parser and the signer recovery: RLP drops a zero, so
   * any field may be absent. `salt` is whatever else the bytes hold, the signature included.
   */
  datatype SignedTx = SignedTx(
    eip1559: bool, chainId: nat, to: Option<Address>, data: Option<Hex>, value: Option<nat>, nonce: Option<nat>,
    gas: Option<nat>, maxFeePerGas: Option<nat>, maxPriorityFeePerGas: Option<nat>,
    signer: Address, salt: Text)

  /** Keccak-256, as an injective constructor. */
  datatype Hash = Keccak(raw: SignedTx)

  function OrZero(n: Option<nat>): (r: nat) {
    if n.Some? then n.value else 0
  }

  datatype Mismatch = ChainId | To | Data | Value | Nonce | Gas | MaxFeePerGas | MaxPriorityFeePerGas

  datatype SignatureError = NotEip1559 | Differs(mismatches: seq<Mismatch>) | WrongSigner(signer: Address)

  /** The signed transaction is the pinned one, signed by the wallet it was pinned for. */
  predicate SignedAsPinned(raw: SignedTx, tx: Pinned) {
    && raw.eip1559
    && raw.chainId == tx.chainId
    && raw.to.Some? && SameAddress(raw.to.value, tx.to)
    && Lower(if raw.data.Some? then raw.data.value else Ascii("0x")) == Lower(tx.data)
    && OrZero(raw.value) == 0
    && OrZero(raw.nonce) == tx.nonce
    && OrZero(raw.gas) == tx.gas
    && OrZero(raw.maxFeePerGas) == tx.maxFeePerGas
    && OrZero(raw.maxPriorityFeePerGas) == tx.maxPriorityFeePerGas
    && SameAddress(raw.signer, tx.from)
  }

  /** The field holds n, or it is absent because n is zero. */
  predicate Carries(field: Option<nat>, n: nat) {
    field == Some(n) || (field == None && n == 0)
  }

  /** What was pinned, read off the signed transaction field by field. */
  predicate CarriesPinned(raw: SignedTx, tx: Pinned) {
    && raw.eip1559 && raw.chainId == tx.chainId
    && raw.to.Some? && SameLetters(raw.to.value, tx.to)
    && SameLetters(if raw.data == None then Ascii("0x") else raw.data.value, tx.data)
    && Carries(raw.value, 0) && Carries(raw.nonce, tx.nonce) && Carries(raw.gas, tx.gas)
    && Carries(raw.maxFeePerGas, tx.maxFeePerGas) && Carries(raw.maxPriorityFeePerGas, tx.maxPriorityFeePerGas)
    && SameLetters(raw.signer, tx.from)
  }

  /** A zero field may be absent; addresses and calldata are compared without regard to case. */
  lemma SignedMeansCarried(raw: SignedTx, tx: Pinned)
    ensures SignedAsPinned(raw, tx) <==> CarriesPinned(raw, tx)
  {
    hide Lower, SameLetters, Ascii;
    var data := if raw.data.Some? then raw.data.value else Ascii("0x");
    LowerAlike(data, tx.data);
    LowerAlike(raw.signer, tx.from);
    if raw.to.Some? { LowerAlike(raw.to.value, tx.to); }
  }

  /** The signed transaction does not carry what was pinned in this field. */
  predicate Mismatched(raw: SignedTx, tx: Pinned, field: Mismatch) {
    match field
    case ChainId => raw.chainId != tx.chainId
    case To => raw.to.None? || !SameAddress(raw.to.value, tx.to)
    case Data => Lower(if raw.data.Some? then raw.data.value else Ascii("0x")) != Lower(tx.data)
    case Value => OrZero(raw.value) != 0
    case Nonce => OrZero(raw.nonce) != tx.nonce
    case Gas => OrZero(raw.gas) != tx.gas
    case MaxFeePerGas => OrZero(raw.maxFeePerGas) != tx.maxFeePerGas
    case MaxPriorityFeePerGas => OrZero(raw.maxPriorityFeePerGas) != tx.maxPriorityFeePerGas
  }

  /** Nothing differs exactly when the transaction is the pinned one, whoever signed it. */
  lemma NothingMismatched(raw: SignedTx, tx: Pinned)
    requires raw.eip1559
    ensures (forall m :: !Mismatched(raw, tx, m)) <==> SignedAsPinned(raw, tx.(from := raw.signer))
    ensures SignedAsPinned(raw, tx) <==> SignedAsPinned(raw, tx.(from := raw.signer)) && SameAddress(raw.signer, tx.from)
  {
    hide Lower, Ascii;
    if forall m :: !Mismatched(raw, tx, m) {
      assert !Mismatched(raw, tx, ChainId) && !Mismatched(raw, tx, To) && !Mismatched(raw, tx, Data);
      assert !Mismatched(raw, tx, Value) && !Mismatched(raw, tx, Nonce) && !Mismatched(raw, tx, Gas);
      assert !Mismatched(raw, tx, MaxFeePerGas) && !Mismatched(raw, tx, MaxPriorityFeePerGas);
    }
  }

  /** The order in which the fields are compared. */
  function Rank(field: Mismatch): (k: nat)
    ensures k < 8
  {
    match field
    case ChainId => 0
    case To => 1
    case Data => 2
    case Value => 3
    case Nonce => 4
    case Gas => 5
    case MaxFeePerGas => 6
    case MaxPriorityFeePerGas => 7
  }

  /** The first k comparisons are done, and exactly those that differ are noted. */
  ghost predicate Noted(mismatches: seq<Mismatch>, raw: SignedTx, tx: Pinned, k: nat) {
    forall m :: m in mismatches <==> Rank(m) < k && Mismatched(raw, tx, m)
  }

  lemma NothingNoted(raw: SignedTx, tx: Pinned)
    ensures Noted([], raw, tx, 0)
  {
  }

  lemma NoteNext(mismatches: seq<Mismatch>, raw: SignedTx, tx: Pinned, field: Mismatch)
    requires Noted(mismatches, raw, tx, Rank(field))
    ensures Noted(if Mismatched(raw, tx, field) then mismatches + [field] else mismatches, raw, tx, Rank(field) + 1)
  {
    hide Mismatched;
    forall m | Rank(m) == Rank(field)
      ensures m == field
    {
    }
  }

  lemma AllNoted(mismatches: seq<Mismatch>, raw: SignedTx, tx: Pinned)
    requires Noted(mismatches, raw, tx, 8) && raw.eip1559
    ensures forall m :: m in mismatches <==> Mismatched(raw, tx, m)
    ensures mismatches == [] <==> SignedAsPinned(raw, tx.(from := raw.signer))
    ensures SignedAsPinned(raw, tx) <==> SignedAsPinned(raw, tx.(from := raw.signer)) && SameAddress(raw.signer, tx.from)
  {
    hide Mismatched, SignedAsPinned;
    NothingMismatched(raw, tx);
    if mismatches != [] { assert mismatches[0] in mismatches; }
  }

  /**
   * `verifySignedTransaction`: accepts exactly the pinned transaction signed by its wallet, and
   * otherwise names exactly the fields that differ.
   */
  method VerifySignedTransaction(raw: SignedTx, expected: Pinned)
    returns (r: Result<(Address, Hash), SignatureError>)
    ensures r.Ok? <==> SignedAsPinned(raw, expected)
    ensures r.Ok? <==> CarriesPinned(raw, expected)
    ensures r.Ok? ==> r.value == (raw.signer, Keccak(raw))
    ensures r == Err(NotEip1559) <==> !raw.eip1559
    ensures r.Err? && r.error.Differs? ==> r.error.mismatches != []
    ensures r.Err? && r.error.Differs? ==> forall m :: m in r.error.mismatches <==> Mismatched(raw, expected, m)
    ensures r.Err? && r.error.WrongSigner? ==> SignedAsPinned(raw, expected.(from := raw.signer))
  {
    hide Noted, Lower, Ascii, SameAddress, CarriesPinned;
    SignedMeansCarried(raw, expected);
    if !raw.eip1559 {
      return Err(NotEip1559);
    }
    var mismatches: seq<Mismatch> := [];
    assert Noted(mismatches, raw, expected, 0) by { NothingNoted(raw, expected); }
    NoteNext(mismatches, raw, expected, ChainId);
    if raw.chainId != expected.chainId { mismatches := mismatches + [ChainId]; }
    NoteNext(mismatches, raw, expected, To);
    if raw.to.None? || !SameAddress(raw.to.value, expected.to) { mismatches := mismatches + [To]; }
    NoteNext(mismatches, raw, expected, Data);
    if Lower(if raw.data.Some? then raw.data.value else Ascii("0x")) != Lower(expected.data) {
      mismatches := mismatches + [Data];
    }
    NoteNext(mismatches, raw, expected, Value);
    if OrZero(raw.value) != 0 { mismatches := mismatches + [Value]; }
    NoteNext(mismatches, raw, expected, Nonce);
    if OrZero(raw.nonce) != expected.nonce { mismatches := mismatches + [Nonce]; }
    NoteNext(mismatches, raw, expected, Gas);
    if OrZero(raw.gas) != expected.gas { mismatches := mismatches + [Gas]; }
    NoteNext(mismatches, raw, expected, MaxFeePerGas);
    if OrZero(raw.maxFeePerGas) != expected.maxFeePerGas { mismatches := mismatches + [MaxFeePerGas]; }
    NoteNext(mismatches, raw, expected, MaxPriorityFeePerGas);
    if OrZero(raw.maxPriorityFeePerGas) != expected.maxPriorityFeePerGas {
      mismatches := mismatches + [MaxPriorityFeePerGas];
    }
    AllNoted(mismatches, raw, expected);
    if mismatches != [] {
      return Err(Differs(mismatches));
    }
    if !SameAddress(raw.signer, expected.from) {
      return Err(WrongSigner(raw.signer));
    }
    return Ok((raw.signer, Keccak(raw)));
  }
}
