// What every reachable state of the waiver protocol keeps.
module ProtocolSafety {
  import opened Outcomes
  import opened Utf16
  import opened Payload
  import opened Transactions
  import opened Intents
  import opened Store
  import opened Protocol

  /** The part of a world that only ever grows: saves, Privy's intents, Arc's transactions. */
  datatype Ground = Ground(births: map<Text, Birth>, intents: map<Text, Intent>, mined: map<SignedTx, Receipt>)

  function GroundOf(w: World): (g: Ground) {
    Ground(w.births, w.intents, w.mined)
  }

  ghost predicate Grows(g: Ground, g': Ground) {
    && (forall id | id in g.births :: id in g'.births && g'.births[id] == g.births[id])
    && IntentsEvolve(g.intents, g'.intents)
    && ChainGrows(g.mined, g'.mined)
  }

  /** Privy signed exactly this transaction for this action, and it is the pinned one. */
  ghost predicate SignedFor(g: Ground, id: Text, raw: SignedTx) {
    && id in g.births && id in g.intents
    && g.intents[id].status.Executed? && g.intents[id].signed == Some(raw)
    && SignedAsPinned(raw, g.births[id].pinned)
  }

  /** The record is of that transaction, which is mined and succeeded. */
  ghost predicate Truthful(g: Ground, id: Text, r: BroadcastRecord) {
    && SignedFor(g, id, r.hash.raw) && r.hash.raw in g.mined
    && g.mined[r.hash.raw].success && r.success
    && r.signer == r.hash.raw.signer && r.blockNumber == g.mined[r.hash.raw].blockNumber
  }

  /** An action that will never use a nonce again, and left `n` and above free. */
  ghost predicate SettledBelow(g: Ground, a: StoredAction, n: nat) {
    if a.broadcast.Some? then a.intentId in g.births && g.births[a.intentId].pinned.nonce < n
    else a.intentId in g.intents && Closed(g.intents[a.intentId])
  }

  ghost predicate BirthOk(c: Config, g: Ground, id: Text)
    requires id in g.births
  {
    && id in g.intents && g.births[id].order < |g.births|
    && g.births[id].pinned.from == c.walletAddress && g.births[id].pinned.chainId == ARC_TESTNET
    && RecordsPinned(g.intents[id].request, c.rpcPath, g.births[id].pinned)
  }

  ghost predicate GroundOk(c: Config, g: Ground) {
    && IntentsNamed(g.intents) && NoncesUnique(g.mined)
    && (forall id | id in g.births :: BirthOk(c, g, id))
    && (forall a, b | a in g.births && b in g.births && g.births[a].order == g.births[b].order :: a == b)
  }

  ghost predicate EntryOk(g: Ground, id: Text, a: StoredAction) {
    && a.intentId == id && id in g.births
    && a.pinned == SerializePinned(g.births[id].pinned)
    && (a.broadcast.Some? ==> Truthful(g, id, a.broadcast.value))
  }

  ghost predicate EntriesOk(g: Ground, store: Actions) {
    forall id | id in store :: EntryOk(g, id, store[id])
  }

  /** Whatever was saved before another action is settled below the nonce that action pinned. */
  ghost predicate InOrder(g: Ground, store: Actions) {
    forall a, b | a in store && b in store && a in g.births && b in g.births && g.births[a].order < g.births[b].order ::
      SettledBelow(g, store[a], g.births[b].pinned.nonce)
  }

  ghost predicate StoreOk(g: Ground, store: Actions) {
    EntriesOk(g, store) && InOrder(g, store)
  }

  /** The file never knows more than the process. */
  ghost predicate DiskBehind(disk: Actions, mem: Actions) {
    forall id | id in disk ::
      && id in mem && mem[id].kind == disk[id].kind
      && (disk[id].broadcast.Some? ==> mem[id].broadcast == disk[id].broadcast)
  }

  ghost predicate SendsOk(g: Ground, sends: seq<Send>) {
    forall s | s in sends :: SignedFor(g, s.id, s.raw)
  }

  ghost predicate AllSettledBelow(g: Ground, store: Actions, n: nat) {
    forall id | id in store :: SettledBelow(g, store[id], n)
  }

  ghost predicate PcOk(c: Config, g: Ground, mem: Actions, pc: Pc) {
    match pc
    case Checking(_, todo) =>
      forall id | id in mem && id !in todo && mem[id].broadcast.None? :: id in g.intents && Closed(g.intents[id])
    case HasPinned(_, tx) =>
      tx.from == c.walletAddress && tx.chainId == ARC_TESTNET && AllSettledBelow(g, mem, tx.nonce)
    case HasIntent(_, tx, i) =>
      && tx.from == c.walletAddress && tx.chainId == ARC_TESTNET && AllSettledBelow(g, mem, tx.nonce)
      && i.id in g.intents && g.intents[i.id].request == i.request && i.id !in g.births
    case Sending(id, raw) => id in mem && mem[id].broadcast.None? && SignedFor(g, id, raw)
    case Waiting(id, raw) => id in mem && mem[id].broadcast.None? && SignedFor(g, id, raw)
    case _ => true
  }

  /** Verified under a member key of this very intent, in time. */
  ghost predicate ForwardOk(c: Config, g: Ground, f: Forwarded) {
    && f.id in g.births && f.id in g.intents
    && f.key in MemberKeys(g.intents[f.id])
    && -SIGNATURE_WINDOW_MS <= f.now - f.timestamp <= SIGNATURE_WINDOW_MS
    && PayloadBytes(f.id, g.intents[f.id].request, c.appId, f.timestamp).Some?
    && c.verify(f.key, PayloadBytes(f.id, g.intents[f.id].request, c.appId, f.timestamp).value, f.signature)
  }

  ghost predicate ForwardedOk(c: Config, g: Ground, forwarded: set<Forwarded>) {
    forall f | f in forwarded :: ForwardOk(c, g, f)
  }

  ghost predicate Inv(c: Config, w: World) {
    var g := GroundOf(w);
    && GroundOk(c, g) && StoreOk(g, w.mem) && StoreOk(g, w.disk) && DiskBehind(w.disk, w.mem)
    && SendsOk(g, w.sends) && PcOk(c, g, w.mem, w.pc) && ForwardedOk(c, g, w.forwarded)
  }

  lemma InitialInv(c: Config, w: World)
    requires Initial(w)
    ensures Inv(c, w)
  {
  }

  // ---- Growing changes nothing that was true -------------------------------------------------------

  lemma SignedKept(g: Ground, g': Ground, id: Text, raw: SignedTx)
    requires Grows(g, g') && SignedFor(g, id, raw)
    ensures SignedFor(g', id, raw)
  {
    hide SignedAsPinned;
  }

  lemma SettledKept(g: Ground, g': Ground, a: StoredAction, n: nat)
    requires Grows(g, g') && SettledBelow(g, a, n)
    ensures SettledBelow(g', a, n)
  {
    hide IntentsNamed, MemberKeys;
  }

  lemma StoreKept(g: Ground, g': Ground, store: Actions)
    requires Grows(g, g') && StoreOk(g, store)
    ensures StoreOk(g', store)
  {
    hide IntentsEvolve, ChainGrows, SettledBelow, SignedFor, SerializePinned;
    forall id | id in store
      ensures EntryOk(g', id, store[id])
    {
      assert EntryOk(g, id, store[id]);
      if store[id].broadcast.Some? {
        TruthfulKept(g, g', id, store[id].broadcast.value);
      }
    }
    forall a, b | a in store && b in store && a in g'.births && b in g'.births && g'.births[a].order < g'.births[b].order
      ensures SettledBelow(g', store[a], g'.births[b].pinned.nonce)
    {
      assert EntryOk(g, a, store[a]) && EntryOk(g, b, store[b]);
      SettledKept(g, g', store[a], g.births[b].pinned.nonce);
    }
  }

  lemma TruthfulKept(g: Ground, g': Ground, id: Text, r: BroadcastRecord)
    requires Grows(g, g') && Truthful(g, id, r)
    ensures Truthful(g', id, r)
  {
    hide SignedFor, IntentsEvolve;
    SignedKept(g, g', id, r.hash.raw);
  }

  lemma SendsKept(g: Ground, g': Ground, sends: seq<Send>)
    requires Grows(g, g') && SendsOk(g, sends)
    ensures SendsOk(g', sends)
  {
    hide Grows, SignedFor;
    forall s | s in sends
      ensures SignedFor(g', s.id, s.raw)
    {
      SignedKept(g, g', s.id, s.raw);
    }
  }

  lemma ForwardedKept(c: Config, g: Ground, g': Ground, forwarded: set<Forwarded>)
    requires Grows(g, g') && ForwardedOk(c, g, forwarded)
    ensures ForwardedOk(c, g', forwarded)
  {
    hide PayloadBytes, IntentsNamed, ChainGrows, MemberKeys;
    forall f | f in forwarded
      ensures ForwardOk(c, g', f)
    {
      assert ForwardOk(c, g, f);
      assert Evolves(g.intents[f.id], g'.intents[f.id]);
    }
  }

  lemma PcKept(c: Config, g: Ground, g': Ground, mem: Actions, pc: Pc)
    requires Grows(g, g') && PcOk(c, g, mem, pc)
    requires pc.HasIntent? ==> pc.intent.id !in g'.births
    ensures PcOk(c, g', mem, pc)
  {
    hide SignedFor, SettledBelow, IntentsNamed, ChainGrows, MemberKeys;
    if pc.Sending? || pc.Waiting? {
      SignedKept(g, g', pc.id, pc.raw);
    }
    if pc.HasPinned? || pc.HasIntent? {
      forall id | id in mem
        ensures SettledBelow(g', mem[id], pc.tx.nonce)
      {
        SettledKept(g, g', mem[id], pc.tx.nonce);
      }
    }
    if pc.Checking? {
      forall id | id in mem && id !in pc.todo && mem[id].broadcast.None?
        ensures id in g'.intents && Closed(g'.intents[id])
      {
        assert Evolves(g.intents[id], g'.intents[id]);
      }
    }
    if pc.HasIntent? {
      assert Evolves(g.intents[pc.intent.id], g'.intents[pc.intent.id]);
    }
  }

  /** Intents and blocks may change under any state the protocol is in. */
  lemma GroundKept(c: Config, g: Ground, g': Ground)
    requires Grows(g, g') && GroundOk(c, g) && g'.births == g.births
    ensures GroundOk(c, g')
  {
    hide RecordsPinned, MemberKeys;
    forall id | id in g'.births
      ensures BirthOk(c, g', id)
    {
      assert BirthOk(c, g, id) && Evolves(g.intents[id], g'.intents[id]);
    }
  }

  // ---- Each step keeps the invariant ---------------------------------------------------------------

  lemma EnvironmentKeeps(c: Config, w: World, w': World)
    requires Inv(c, w) && Step(c, Environment, w, w')
    ensures Inv(c, w')
  {
    hide GroundOk, StoreOk, DiskBehind, SendsOk, PcOk, ForwardedOk, IntentsEvolve, ChainGrows;
    var g, g' := GroundOf(w), GroundOf(w');
    assert Grows(g, g');
    GroundKept(c, g, g');
    StoreKept(g, g', w.mem);
    StoreKept(g, g', w.disk);
    SendsKept(g, g', w.sends);
    ForwardedKept(c, g, g', w.forwarded);
    assert w.pc.HasIntent? ==> w.pc.intent.id !in g'.births by { PcIntentUnborn(c, g, w.mem, w.pc); }
    PcKept(c, g, g', w.mem, w.pc);
  }

  lemma PcIntentUnborn(c: Config, g: Ground, mem: Actions, pc: Pc)
    requires PcOk(c, g, mem, pc)
    ensures pc.HasIntent? ==> pc.intent.id !in g.births
  {
    hide AllSettledBelow, SignedFor;
  }

  /** Steps that only move the running call along. */
  lemma CallKeeps(c: Config, l: Label, w: World, w': World)
    requires Inv(c, w) && Step(c, l, w, w')
    requires l.StartPropose? || l.CheckOne? || l.Pin? || l.StartExecute? || l.Abort?
    ensures Inv(c, w')
  {
    hide GroundOk, StoreOk, DiskBehind, SendsOk, PcOk, ForwardedOk, MayExecute, MayApprove, PendingNonce;
    hide IntentsEvolve, ChainGrows, RecordsPinned, SerializePinned, RecordOf;
    assert GroundOf(w') == GroundOf(w) && w' == w.(pc := w'.pc);
    CallPc(c, l, w, w');
  }

  lemma CallPc(c: Config, l: Label, w: World, w': World)
    requires Inv(c, w) && Step(c, l, w, w')
    requires l.StartPropose? || l.CheckOne? || l.Pin? || l.StartExecute? || l.Abort?
    ensures PcOk(c, GroundOf(w), w.mem, w'.pc)
  {
    hide GroundOk, StoreOk, DiskBehind, SendsOk, ForwardedOk, MayExecute, MayApprove, PendingNonce;
    hide IntentsEvolve, ChainGrows, RecordsPinned, RecordOf, SerializePinned, SignedFor;
    if l.Pin? {
      PinSettles(c, w, l.tx.nonce);
    }
    if l.StartExecute? {
      ExecutableSigned(c, w, l.id);
    }
  }

  /** With nothing holding a nonce, a pending nonce is above everything stored. */
  lemma PinSettles(c: Config, w: World, n: nat)
    requires Inv(c, w) && PendingNonce(c, w, n)
    requires w.pc.Checking? && w.pc.todo == {}
    ensures AllSettledBelow(GroundOf(w), w.mem, n)
  {
    hide GroundOk, InOrder, DiskBehind, SendsOk, ForwardedOk, RecordsPinned, SerializePinned;
    var g := GroundOf(w);
    forall id | id in w.mem
      ensures SettledBelow(g, w.mem[id], n)
    {
      assert EntryOk(g, id, w.mem[id]);
      if w.mem[id].broadcast.Some? {
        MinedBelow(c, w, id, n);
      }
    }
  }

  lemma MinedBelow(c: Config, w: World, id: Text, n: nat)
    requires Inv(c, w) && PendingNonce(c, w, n) && id in w.mem && w.mem[id].broadcast.Some?
    ensures id in w.births && w.births[id].pinned.nonce < n
  {
    hide InOrder, DiskBehind, SendsOk, ForwardedOk, PcOk, RecordsPinned, SerializePinned, Lower;
    var g := GroundOf(w);
    assert EntryOk(g, id, w.mem[id]) && BirthOk(c, g, id);
    var raw := w.mem[id].broadcast.value.hash.raw;
    assert raw in w.mined && SignedAsPinned(raw, g.births[id].pinned);
  }

  lemma ExecutableSigned(c: Config, w: World, id: Text)
    requires Inv(c, w) && MayExecute(c, w, id)
    ensures id in w.mem && w.mem[id].broadcast.None? && SignedFor(GroundOf(w), id, w.intents[id].signed.value)
  {
    hide InOrder, DiskBehind, SendsOk, ForwardedOk, PcOk;
    hide RecordsPinned, SerializePinned, DeserializePinned, SignedAsPinned;
    assert EntryOk(GroundOf(w), id, w.mem[id]);
    PinnedRoundTrip(w.births[id].pinned);
  }

  lemma PrivyCreatesKeeps(c: Config, w: World, w': World, i: Intent)
    requires Inv(c, w) && Step(c, PrivyCreates(i), w, w')
    ensures Inv(c, w')
  {
    hide StoreOk, DiskBehind, SendsOk, ForwardedOk, RecordsPinned, Signable, PcOk;
    var g, g' := GroundOf(w), GroundOf(w');
    assert Grows(g, g');
    GroundKept(c, g, g');
    StoreKept(g, g', w.mem);
    StoreKept(g, g', w.disk);
    SendsKept(g, g', w.sends);
    ForwardedKept(c, g, g', w.forwarded);
    PcKept(c, g, g', w.mem, w.pc);
    UnknownUnborn(c, g, i.id);
    IntentPc(c, g', w.mem, w.pc, i);
  }

  lemma UnknownUnborn(c: Config, g: Ground, id: Text)
    requires GroundOk(c, g) && id !in g.intents
    ensures id !in g.births
  {
    hide RecordsPinned;
  }

  lemma IntentPc(c: Config, g: Ground, mem: Actions, pc: Pc, i: Intent)
    requires pc.HasPinned? && PcOk(c, g, mem, pc) && i.id in g.intents && g.intents[i.id] == i && i.id !in g.births
    ensures PcOk(c, g, mem, HasIntent(pc.proposal, pc.tx, i))
  {
    hide AllSettledBelow;
  }

  lemma SaveKeeps(c: Config, w: World, w': World, now: int)
    requires Inv(c, w) && Step(c, SaveAction(now), w, w')
    ensures Inv(c, w')
  {
    hide GroundOk, StoreOk, DiskBehind, SendsOk, ForwardedOk, RecordsPinned, SerializePinned, AllSettledBelow, Grows;
    var id, tx := w.pc.intent.id, w.pc.tx;
    var g, g' := GroundOf(w), GroundOf(w');
    BirthKeeps(c, g, g', id, tx);
    StoreKept(g, g', w.mem);
    StoreKept(g, g', w.disk);
    SendsKept(g, g', w.sends);
    ForwardedKept(c, g, g', w.forwarded);
    PcSettledKept(g, g', w.mem, tx.nonce);
    SaveEntry(g, g', w.mem, id, w'.mem[id]);
    SaveDiskBehind(w.disk, w.mem, id, w'.mem[id]);
  }

  lemma SaveEntry(g: Ground, g': Ground, store: Actions, id: Text, a: StoredAction)
    requires StoreOk(g, store) && StoreOk(g', store) && id !in g.births
    requires id in g'.births && forall b | b in g.births :: b in g'.births && g'.births[b].order < g'.births[id].order
    requires a.intentId == id && a.pinned == SerializePinned(g'.births[id].pinned) && a.broadcast.None?
    requires AllSettledBelow(g', store, g'.births[id].pinned.nonce)
    ensures id !in store && StoreOk(g', store[id := a])
  {
    hide StoreOk, AllSettledBelow, SerializePinned;
    forall b | b in store
      ensures b in g.births
    {
      EntryBorn(g, store, b);
    }
    NewEntryKeeps(g', store, id, a);
  }

  lemma SaveDiskBehind(disk: Actions, mem: Actions, id: Text, a: StoredAction)
    requires DiskBehind(disk, mem) && id !in mem
    ensures DiskBehind(disk, mem[id := a])
  {
  }

  lemma EntryBorn(g: Ground, store: Actions, id: Text)
    requires StoreOk(g, store) && id in store
    ensures id in g.births && store[id].intentId == id
  {
    hide InOrder, Truthful, SerializePinned;
    assert EntryOk(g, id, store[id]);
  }

  lemma PcSettledKept(g: Ground, g': Ground, store: Actions, n: nat)
    requires Grows(g, g') && AllSettledBelow(g, store, n)
    ensures AllSettledBelow(g', store, n)
  {
    hide Grows, SettledBelow;
    forall id | id in store
      ensures SettledBelow(g', store[id], n)
    {
      SettledKept(g, g', store[id], n);
    }
  }

  lemma BirthKeeps(c: Config, g: Ground, g': Ground, id: Text, tx: Pinned)
    requires GroundOk(c, g) && id !in g.births && id in g.intents
    requires g' == g.(births := g.births[id := Birth(|g.births|, tx)])
    requires tx.from == c.walletAddress && tx.chainId == ARC_TESTNET
    requires RecordsPinned(g.intents[id].request, c.rpcPath, tx)
    ensures Grows(g, g') && GroundOk(c, g')
    ensures forall a | a in g.births :: g'.births[a].order < g'.births[id].order
  {
    hide RecordsPinned, NoncesUnique, IntentsNamed, MemberKeys, BirthOk;
    forall a | a in g.births
      ensures BirthOk(c, g', a) && g'.births[a].order < |g.births|
    {
      OlderBirth(c, g, g', id, tx, a);
    }
    assert BirthOk(c, g', id) by { NewBirth(c, g, g', id, tx); }
  }

  lemma OlderBirth(c: Config, g: Ground, g': Ground, id: Text, tx: Pinned, a: Text)
    requires a in g.births && BirthOk(c, g, a) && id !in g.births
    requires g' == g.(births := g.births[id := Birth(|g.births|, tx)])
    ensures BirthOk(c, g', a) && g'.births[a].order < |g.births|
  {
    hide RecordsPinned;
    assert g'.births.Keys == g.births.Keys + {id};
  }

  lemma NewBirth(c: Config, g: Ground, g': Ground, id: Text, tx: Pinned)
    requires id !in g.births && id in g.intents && tx.from == c.walletAddress && tx.chainId == ARC_TESTNET
    requires RecordsPinned(g.intents[id].request, c.rpcPath, tx)
    requires g' == g.(births := g.births[id := Birth(|g.births|, tx)])
    ensures BirthOk(c, g', id)
  {
    hide RecordsPinned;
    assert g'.births.Keys == g.births.Keys + {id};
  }

  /** Adding the latest-born action after everything before it is settled. */
  lemma NewEntryKeeps(g: Ground, store: Actions, id: Text, a: StoredAction)
    requires StoreOk(g, store) && id !in store && id in g.births
    requires EntryOk(g, id, a) && AllSettledBelow(g, store, g.births[id].pinned.nonce)
    requires forall b | b in store :: b in g.births && g.births[b].order < g.births[id].order
    ensures StoreOk(g, store[id := a])
  {
    hide EntryOk, SettledBelow;
    var store' := store[id := a];
    forall x, y | x in store' && y in store' && x in g.births && y in g.births && g.births[x].order < g.births[y].order
      ensures SettledBelow(g, store'[x], g.births[y].pinned.nonce)
    {
      assert x != id;
    }
  }

  lemma SendKeeps(c: Config, w: World, w': World)
    requires Inv(c, w) && Step(c, SendRaw, w, w')
    ensures Inv(c, w')
  {
    hide GroundOk, StoreOk, DiskBehind, ForwardedOk, SignedFor;
  }

  lemma ReceiveKeeps(c: Config, w: World, w': World)
    requires Inv(c, w) && Step(c, Receive, w, w')
    ensures Inv(c, w')
  {
    hide GroundOk, SendsOk, ForwardedOk, WaiverIn, SerializePinned, StoreOk, SignedFor;
    var g, id := GroundOf(w), w.pc.id;
    assert StoreOk(g, w'.mem) by {
      EntryBorn(g, w.mem, id);
      RecordKeeps(g, w.mem, id, RecordOf(w.pc.raw, w.mined[w.pc.raw], w.mem[id]));
    }
  }

  /** Recording a truthful broadcast of an action that still held its nonce. */
  lemma RecordKeeps(g: Ground, store: Actions, id: Text, r: BroadcastRecord)
    requires StoreOk(g, store) && id in store && store[id].broadcast.None? && Truthful(g, id, r)
    ensures StoreOk(g, store[id := store[id].(broadcast := Some(r))])
  {
    hide SerializePinned, SignedAsPinned;
    var store' := store[id := store[id].(broadcast := Some(r))];
    assert EntryOk(g, id, store[id]);
    assert !SettledBelow(g, store[id], 0);
    forall x, y | x in store' && y in store' && x in g.births && y in g.births && g.births[x].order < g.births[y].order
      ensures SettledBelow(g, store'[x], g.births[y].pinned.nonce)
    {
      assert SettledBelow(g, store[x], g.births[y].pinned.nonce);
    }
    forall x | x in store'
      ensures EntryOk(g, x, store'[x])
    {
      assert EntryOk(g, x, store[x]);
    }
  }

  lemma FlushKeeps(c: Config, l: Label, w: World, w': World)
    requires Inv(c, w) && Step(c, l, w, w')
    requires l.Rename? || l.FlushFails? || l.Crash?
    ensures Inv(c, w')
  {
    hide GroundOk, StoreOk, SendsOk, ForwardedOk;
  }

  lemma ApproveKeeps(c: Config, w: World, w': World, f: Forwarded)
    requires Inv(c, w) && Step(c, Approve(f), w, w')
    ensures Inv(c, w')
  {
    hide GroundOk, StoreOk, DiskBehind, SendsOk, PcOk, RecordsPinned, PayloadBytes, DeserializePinned, MemberKeys;
    EntryBorn(GroundOf(w), w.mem, f.id);
    assert ForwardOk(c, GroundOf(w'), f);
  }

  lemma StepKeeps(c: Config, l: Label, w: World, w': World)
    requires Inv(c, w) && Step(c, l, w, w')
    ensures Inv(c, w')
  {
    hide *;
    match l
    case StartPropose(_) => CallKeeps(c, l, w, w');
    case CheckOne(_) => CallKeeps(c, l, w, w');
    case Pin(_) => CallKeeps(c, l, w, w');
    case PrivyCreates(i) => PrivyCreatesKeeps(c, w, w', i);
    case SaveAction(now) => SaveKeeps(c, w, w', now);
    case Rename => FlushKeeps(c, l, w, w');
    case FlushFails => FlushKeeps(c, l, w, w');
    case StartExecute(_) => CallKeeps(c, l, w, w');
    case SendRaw => SendKeeps(c, w, w');
    case Receive => ReceiveKeeps(c, w, w');
    case Approve(f) => ApproveKeeps(c, w, w', f);
    case Abort => CallKeeps(c, l, w, w');
    case Crash => FlushKeeps(c, l, w, w');
    case Environment => EnvironmentKeeps(c, w, w');
  }

  lemma {:induction false} PathKeeps(c: Config, run: seq<World>)
    requires Path(c, run) && Inv(c, run[0])
    ensures Inv(c, run[|run| - 1])
    decreases |run|
  {
    hide Inv, Step;
    if |run| > 1 {
      assert Next(c, run[0], run[1]);
      var l :| Step(c, l, run[0], run[1]);
      StepKeeps(c, l, run[0], run[1]);
      PathTail(c, run);
      PathKeeps(c, run[1..]);
    }
  }

  lemma PathTail(c: Config, run: seq<World>)
    requires Path(c, run) && |run| > 1
    ensures Path(c, run[1..])
  {
    hide Next;
    forall i | 0 <= i < |run[1..]| - 1
      ensures Next(c, run[1..][i], run[1..][i + 1])
    {
      assert Next(c, run[i + 1], run[i + 2]);
    }
  }

  /** The invariant holds in every reachable state. */
  lemma ReachableInv(c: Config, w: World)
    requires Reachable(c, w)
    ensures Inv(c, w)
  {
    hide Next, Inv, Initial;
    var run :| Path(c, run) && Initial(run[0]) && run[|run| - 1] == w;
    InitialInv(c, run[0]);
    PathKeeps(c, run);
  }
}
