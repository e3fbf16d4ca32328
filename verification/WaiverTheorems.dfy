// The promises of the quorum flow, over every reachable state and every run.
module WaiverTheorems {
  import opened Outcomes
  import opened Utf16
  import opened Json
  import opened Payload
  import opened Transactions
  import opened Intents
  import opened Store
  import opened Protocol
  import opened ProtocolSafety
  import Utf8

  // ---- One proposal at a time ----------------------------------------------------------------------

  /**
   * At most one stored action holds a nonce: not broadcast, and open at Privy. It holds for what
   * the process has and for what a restart would load.
   */
  lemma AtMostOneOpen(c: Config, w: World, store: Actions, a: Text, b: Text)
    requires Reachable(c, w) && (store == w.mem || store == w.disk)
    requires a in store && b in store && Holding(w, store[a]) && Holding(w, store[b])
    ensures a == b
  {
    hide Reachable, Inv, Holding;
    ReachableInv(c, w);
    OneHolds(c, w, store, a, b);
  }

  lemma OneHolds(c: Config, w: World, store: Actions, a: Text, b: Text)
    requires Inv(c, w) && (store == w.mem || store == w.disk)
    requires a in store && b in store && Holding(w, store[a]) && Holding(w, store[b])
    ensures a == b
  {
    hide RecordsPinned, SerializePinned, Truthful, DiskBehind, SendsOk, PcOk, ForwardedOk;
    var g := GroundOf(w);
    assert EntryOk(g, a, store[a]) && EntryOk(g, b, store[b]);
    assert !SettledBelow(g, store[a], g.births[b].pinned.nonce) && !SettledBelow(g, store[b], g.births[a].pinned.nonce);
  }

  /** Actions with a broadcast record were pinned at strictly increasing nonces, in proposal order. */
  lemma NoncesIncrease(c: Config, w: World, a: Text, b: Text)
    requires Reachable(c, w) && a in w.mem && b in w.mem
    requires w.mem[a].broadcast.Some? && w.mem[b].broadcast.Some?
    ensures a in w.births && b in w.births
    ensures w.births[a].order < w.births[b].order ==> w.mem[a].pinned.nonce < w.mem[b].pinned.nonce
    ensures a != b ==> w.births[a].order != w.births[b].order
  {
    hide Reachable, RecordsPinned, Truthful, DiskBehind, SendsOk, PcOk, ForwardedOk;
    ReachableInv(c, w);
    var g := GroundOf(w);
    assert EntryOk(g, a, w.mem[a]) && EntryOk(g, b, w.mem[b]);
    if g.births[a].order < g.births[b].order {
      assert SettledBelow(g, w.mem[a], g.births[b].pinned.nonce);
    }
  }

  // ---- Agreement -----------------------------------------------------------------------------------

  /** The call an approver is shown: `view(action, intent).call`. */
  datatype CallView = CallView(
    to: Address, data: Hex, chainId: SafeInt, nonce: nat, gasLimit: Text, maxFeePerGasWei: Text)

  function CallOf(a: StoredAction): (v: CallView) {
    CallView(a.pinned.to, a.pinned.data, a.pinned.chainId, a.pinned.nonce, a.pinned.gas, a.pinned.maxFeePerGas)
  }

  /** The view shows the pinned call, in the store's spelling. */
  ghost predicate Shows(v: CallView, tx: Pinned) {
    && v.to == tx.to && v.data == tx.data && v.chainId == tx.chainId && v.nonce == tx.nonce
    && Quantity(v.gasLimit) == Some(tx.gas) && Quantity(v.maxFeePerGasWei) == Some(tx.maxFeePerGas)
  }

  /**
   * End to end: behind a broadcast record stands one mined, successful transaction, and it, the
   * request the approvers signed and the call they were shown all carry what was pinned.
   */
  lemma EndToEndAgreement(c: Config, w: World, id: Text) returns (tx: Pinned, raw: SignedTx)
    requires Reachable(c, w) && id in w.mem && w.mem[id].broadcast.Some?
    ensures w.mem[id].broadcast.value.hash == Keccak(raw)
    ensures raw in w.mined && w.mined[raw].success && w.mem[id].broadcast.value.success
    ensures SignedAsPinned(raw, tx) && SameAddress(raw.signer, c.walletAddress)
    ensures w.mem[id].broadcast.value.signer == raw.signer
    ensures tx.chainId == ARC_TESTNET
    ensures id in w.intents && RecordsPinned(w.intents[id].request, c.rpcPath, tx)
    ensures Shows(CallOf(w.mem[id]), tx)
    ensures DeserializePinned(w.mem[id].pinned) == Some(tx)
  {
    hide Reachable, RecordsPinned, DiskBehind, SendsOk, PcOk, ForwardedOk, InOrder, Lower;
    ReachableInv(c, w);
    var g := GroundOf(w);
    assert EntryOk(g, id, w.mem[id]) && BirthOk(c, g, id);
    tx, raw := g.births[id].pinned, w.mem[id].broadcast.value.hash.raw;
    PinnedRoundTrip(tx);
  }

  /** Nothing is handed to Arc but the transaction pinned for that action, signed by the wallet. */
  lemma OnlyPinnedIsSent(c: Config, w: World, s: Send)
    requires Reachable(c, w) && s in w.sends
    ensures s.id in w.births && SignedAsPinned(s.raw, w.births[s.id].pinned)
    ensures SameAddress(s.raw.signer, c.walletAddress)
  {
    hide Reachable, RecordsPinned, DiskBehind, PcOk, ForwardedOk, StoreOk, Lower;
    ReachableInv(c, w);
    assert SignedFor(GroundOf(w), s.id, s.raw) && BirthOk(c, GroundOf(w), s.id);
  }

  // ---- Signatures ----------------------------------------------------------------------------------

  /** Every key that any intent at Privy names as a member. */
  ghost predicate MemberKey(w: World, key: Text) {
    exists id :: id in w.intents && key in MemberKeys(w.intents[id])
  }

  /** Among the keys in use, a signature fits one payload only. */
  ghost predicate SignaturesBind(c: Config, w: World) {
    forall k, k', p, p', s :: MemberKey(w, k) && MemberKey(w, k') && c.verify(k, p, s) && c.verify(k', p', s) ==> p == p'
  }

  /**
   * A signature forwarded to Privy verifies under a member key of that very intent, within 300
   * seconds of the clock, and under no member's key does it fit another intent or another time.
   */
  lemma ForwardedFitsOneIntent(c: Config, w: World, f: Forwarded, j: Text, key: Text, t: SafeInt)
    requires Reachable(c, w) && SignaturesBind(c, w) && f in w.forwarded
    requires j in w.intents && (j != f.id || t != f.timestamp) && MemberKey(w, key)
    ensures f.id in w.intents && f.key in MemberKeys(w.intents[f.id])
    ensures -SIGNATURE_WINDOW_MS <= f.now - f.timestamp <= SIGNATURE_WINDOW_MS
    ensures PayloadBytes(f.id, w.intents[f.id].request, c.appId, f.timestamp).Some?
    ensures c.verify(f.key, PayloadBytes(f.id, w.intents[f.id].request, c.appId, f.timestamp).value, f.signature)
    ensures PayloadBytes(j, w.intents[j].request, c.appId, t).Some?
    ensures !c.verify(key, PayloadBytes(j, w.intents[j].request, c.appId, t).value, f.signature)
  {
    hide Reachable, PayloadText, PayloadValue, StoreOk, DiskBehind, SendsOk, PcOk, RecordsPinned, MemberKeys;
    ReachableInv(c, w);
    assert ForwardOk(c, GroundOf(w), f);
    assert MemberKey(w, f.key);
    PayloadReadsBack(j, w.intents[j].request, c.appId, t);
    SameBytesIffSamePayload(f.id, w.intents[f.id].request, c.appId, f.timestamp, j, w.intents[j].request, c.appId, t);
  }

  // ---- Runs ----------------------------------------------------------------------------------------

  lemma EvolvesTransitive(i: Intent, j: Intent, k: Intent)
    requires Evolves(i, j) && Evolves(j, k)
    ensures Evolves(i, k)
  {
    hide MemberKeys;
  }

  lemma StepGrows(c: Config, l: Label, w: World, w': World)
    requires Inv(c, w) && Step(c, l, w, w')
    ensures Grows(GroundOf(w), GroundOf(w'))
  {
    hide StoreOk, DiskBehind, SendsOk, ForwardedOk, RecordsPinned, MayExecute, MayApprove, Signable, BirthOk;
    hide AllSettledBelow, RecordOf, SignedFor, SerializePinned, IntentsEvolve, ChainGrows, PendingNonce;
    GroundReflexive(c, w);
    if l.PrivyCreates? {
      CreatedEvolve(w.intents, l.intent);
    }
  }

  lemma GroundReflexive(c: Config, w: World)
    requires Inv(c, w)
    ensures IntentsNamed(w.intents)
    ensures IntentsEvolve(w.intents, w.intents) && ChainGrows(w.mined, w.mined)
  {
    hide StoreOk, DiskBehind, SendsOk, ForwardedOk, PcOk, BirthOk, Signable, NoncesUnique;
  }

  lemma CreatedEvolve(intents: map<Text, Intent>, i: Intent)
    requires IntentsNamed(intents) && i.id !in intents && Signable(i.request.body)
    ensures IntentsEvolve(intents, intents[i.id := i])
  {
    hide Signable, MemberKeys;
  }

  /** What a run never undoes. */
  ghost predicate Follows(w: World, w': World) {
    && Grows(GroundOf(w), GroundOf(w'))
    && w.sends <= w'.sends
    && forall id | id in w.disk && w.disk[id].broadcast.Some? ::
      && id in w'.disk && w'.disk[id].broadcast == w.disk[id].broadcast
      && (forall k :: |w.sends| <= k < |w'.sends| ==> w'.sends[k].id != id)
  }

  lemma StepFollows(c: Config, l: Label, w: World, w': World)
    requires Inv(c, w) && Step(c, l, w, w')
    ensures Follows(w, w')
  {
    hide GroundOk, StoreOk, SendsOk, ForwardedOk, MayExecute, MayApprove, RecordOf, SignedFor, Grows, PendingNonce;
    hide IntentsEvolve, ChainGrows, AllSettledBelow, SerializePinned, RecordsPinned, Signable;
    StepGrows(c, l, w, w');
  }

  lemma FollowsTransitive(w: World, v: World, u: World)
    requires Follows(w, v) && Follows(v, u)
    ensures Follows(w, u)
  {
    hide MemberKeys, IntentsNamed, NoncesUnique, Evolves;
    forall id | id in w.intents
      ensures id in u.intents && Evolves(w.intents[id], u.intents[id])
    {
      EvolvesTransitive(w.intents[id], v.intents[id], u.intents[id]);
    }
    forall id, k | id in w.disk && w.disk[id].broadcast.Some? && |w.sends| <= k < |u.sends|
      ensures u.sends[k].id != id
    {
      if k < |v.sends| {
        assert u.sends[k] == v.sends[k];
      }
    }
  }

  lemma FollowsReflexive(c: Config, w: World)
    requires Inv(c, w)
    ensures Follows(w, w)
  {
    hide StoreOk, SendsOk, ForwardedOk, PcOk, BirthOk, Signable;
  }

  lemma {:induction false} RunFollows(c: Config, run: seq<World>)
    requires Path(c, run) && Inv(c, run[0])
    ensures Follows(run[0], run[|run| - 1])
    decreases |run|
  {
    hide Inv, Step, Follows;
    if |run| == 1 {
      FollowsReflexive(c, run[0]);
    } else {
      assert Next(c, run[0], run[1]);
      var l :| Step(c, l, run[0], run[1]);
      StepKeeps(c, l, run[0], run[1]);
      StepFollows(c, l, run[0], run[1]);
      PathTail(c, run);
      RunFollows(c, run[1..]);
      FollowsTransitive(run[0], run[1], run[|run| - 1]);
    }
  }

  lemma LeadsFollows(c: Config, w: World, w': World)
    requires Inv(c, w) && Leads(c, w, w')
    ensures Follows(w, w') && Inv(c, w')
  {
    hide Inv, Next, Follows;
    var run :| Path(c, run) && run[0] == w && run[|run| - 1] == w';
    RunFollows(c, run);
    PathKeeps(c, run);
  }

  /**
   * Whenever an action has a broadcast record, before or after any crashes, it is the record of
   * one and the same transaction.
   */
  lemma RecordedHashNeverChanges(c: Config, w: World, w': World, id: Text)
    requires Reachable(c, w) && Leads(c, w, w')
    requires id in w.mem && w.mem[id].broadcast.Some?
    requires id in w'.mem && w'.mem[id].broadcast.Some?
    ensures w'.mem[id].broadcast.value.hash == w.mem[id].broadcast.value.hash
  {
    hide Reachable, Leads, GroundOk, DiskBehind, SendsOk, PcOk, ForwardedOk, InOrder, SignedAsPinned, SerializePinned;
    ReachableInv(c, w);
    LeadsFollows(c, w, w');
    var raw, raw' := w.mem[id].broadcast.value.hash.raw, w'.mem[id].broadcast.value.hash.raw;
    assert EntryOk(GroundOf(w), id, w.mem[id]) && EntryOk(GroundOf(w'), id, w'.mem[id]);
    SignedKept(GroundOf(w), GroundOf(w'), id, raw);
  }

  /** Once the record is in the file it stays there, and nothing is sent for the action again. */
  lemma NoSendOnceRecorded(c: Config, w: World, w': World, id: Text)
    requires Reachable(c, w) && Leads(c, w, w')
    requires id in w.disk && w.disk[id].broadcast.Some?
    ensures id in w'.disk && w'.disk[id].broadcast == w.disk[id].broadcast
    ensures forall k :: |w.sends| <= k < |w'.sends| ==> w'.sends[k].id != id
  {
    hide Reachable, Leads, Inv, Grows;
    ReachableInv(c, w);
    LeadsFollows(c, w, w');
  }

  /** The nonce pinned for a recorded action is consumed by that transaction and by no other. */
  lemma NonceConsumedOnce(c: Config, w: World, id: Text, r: SignedTx)
    requires Reachable(c, w) && id in w.mem && w.mem[id].broadcast.Some?
    requires r in w.mined && SameAddress(r.signer, c.walletAddress) && OrZero(r.nonce) == w.mem[id].pinned.nonce
    ensures Keccak(r) == w.mem[id].broadcast.value.hash
  {
    hide Reachable, RecordsPinned, DiskBehind, SendsOk, PcOk, ForwardedOk, InOrder, Lower;
    ReachableInv(c, w);
    var g := GroundOf(w);
    assert EntryOk(g, id, w.mem[id]) && BirthOk(c, g, id);
    var raw := w.mem[id].broadcast.value.hash.raw;
    assert raw in w.mined && SignedAsPinned(raw, g.births[id].pinned);
  }

  // ---- Records -------------------------------------------------------------------------------------

  lemma RecordHash(raw: SignedTx, receipt: Receipt, a: StoredAction)
    ensures RecordOf(raw, receipt, a).hash == Keccak(raw)
  {
    hide WaiverIn;
  }
}
