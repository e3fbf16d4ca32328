// QuorumAdminService: every call, as it changes the store, Privy and Arc, is a run of the protocol.
module QuorumService {
  import opened Outcomes
  import opened Utf16
  import opened Numerals
  import opened Json
  import opened Payload
  import opened Transactions
  import opened Intents
  import opened Store
  import opened JsonStore
  import opened Protocol
  import opened ProtocolSafety
  import Der
  import Utf8

  /** What Privy holds. */
  class PrivyServer {
    var intents: map<Text, Intent>

    constructor ()
      ensures intents == map[]
    {
      intents := map[];
    }
  }

  /** What Arc has mined. */
  class ArcNode {
    var mined: map<SignedTx, Receipt>

    constructor ()
      ensures mined == map[]
    {
      mined := map[];
    }

    /**
     * `waitForReceipt`. While it waits, a block may come with the transaction: `block` is the
     * receipt it would get. No receipt at all stands for a wait that ends in an error.
     */
    method WaitForReceipt(raw: SignedTx, block: Option<Receipt>) returns (receipt: Option<Receipt>)
      requires NoncesUnique(mined)
      requires block.Some? && raw !in mined ==> NonceFree(mined, raw)
      modifies this
      ensures mined == if raw !in old(mined) && block.Some? then old(mined)[raw := block.value] else old(mined)
      ensures ChainGrows(old(mined), mined)
      ensures receipt == if raw in mined then Some(mined[raw]) else None
    {
      if raw !in mined && block.Some? {
        mined := mined[raw := block.value];
      }
      receipt := if raw in mined then Some(mined[raw]) else None;
    }
  }

  /** Arc refuses a nonce its sender has used. */
  ghost predicate NonceFree(mined: map<SignedTx, Receipt>, raw: SignedTx) {
    forall r | r in mined :: !(SameAddress(r.signer, raw.signer) && OrZero(r.nonce) == OrZero(raw.nonce))
  }

  datatype ServiceError =
    | NoFacilityConfigured | BadDuration | NoReason | TooLong | WouldBeRefused(refusals: seq<WaiverRefusal>)
    | NotFound | PrivyUnavailable
    | OpenAction(id: Text)
    | NotPinned | DifferentRequest(problems: seq<Problem>)
    | NotPending | NotAMember | OutsideWindow | MalformedSignature | BadSignature
    | NotExecuted | NoSignedTransaction | DifferentTransaction(error: SignatureError)
    | SendFailed | NoReceipt | Reverted | NoFacility | WaiverMismatch
    | StoreFailed

  /** What Arc answers while a call is pinned. */
  datatype PinAnswers = PinAnswers(
    chainId: int, simulates: bool, nonce: nat, gasEstimate: nat, maxFeePerGas: nat, maxPriorityFeePerGas: nat)

  /** `pinAdminTransaction`: gas with a fifth of headroom, rounded down, and a doubled fee cap. */
  function PinAdminTransaction(from: Address, to: Address, data: Hex, a: PinAnswers): (tx: Option<Pinned>)
    ensures tx.Some? <==> a.chainId == ARC_TESTNET && a.simulates
    ensures tx.Some? ==> tx.value.nonce == a.nonce && 10 * tx.value.gas <= 12 * a.gasEstimate < 10 * tx.value.gas + 10
  {
    if a.chainId != ARC_TESTNET || !a.simulates then None
    else
      Some(Pinned(ARC_TESTNET, from, to, data, a.nonce,
                  a.gasEstimate * 12 / 10, a.maxFeePerGas * 2, a.maxPriorityFeePerGas))
  }

  /** What is pinned for a call: this wallet's, at the quoted nonce, with gas and fees made of the quotes. */
  ghost predicate PinsCall(s: SerializedPinned, wallet: Address, to: Address, data: Hex, a: PinAnswers) {
    && DeserializePinned(s).Some?
    && var tx := DeserializePinned(s).value;
    && tx.chainId == 5_042_002 && tx.from == wallet && tx.to == to && tx.data == data && tx.nonce == a.nonce
    && 10 * tx.gas <= 12 * a.gasEstimate < 10 * (tx.gas + 1)
    && tx.maxFeePerGas == 2 * a.maxFeePerGas && tx.maxPriorityFeePerGas == a.maxPriorityFeePerGas
  }

  lemma PinnedCall(wallet: Address, to: Address, data: Hex, a: PinAnswers)
    ensures var tx := PinAdminTransaction(wallet, to, data, a);
            tx.Some? ==> PinsCall(SerializePinned(tx.value), wallet, to, data, a)
  {
    var tx := PinAdminTransaction(wallet, to, data, a);
    if tx.Some? { PinnedRoundTrip(tx.value); }
  }

  lemma PinnedFor(wallet: Address, to: Address, data: Hex, a: PinAnswers)
    ensures var tx := PinAdminTransaction(wallet, to, data, a);
            tx.Some? ==> && tx.value.chainId == ARC_TESTNET && tx.value.from == wallet
                         && tx.value.to == to && tx.value.data == data && tx.value.nonce == a.nonce
  {
  }

  /** The cap leaves room for the tip, and gas is never below the estimate. */
  lemma PinnedIsPayable(s: SerializedPinned, wallet: Address, to: Address, data: Hex, a: PinAnswers)
    requires PinsCall(s, wallet, to, data, a)
    ensures var tx := DeserializePinned(s).value;
            && (a.maxPriorityFeePerGas <= a.maxFeePerGas ==> tx.maxPriorityFeePerGas <= tx.maxFeePerGas)
            && tx.maxFeePerGas >= a.maxFeePerGas && tx.gas >= a.gasEstimate
  {
    hide DeserializePinned;
  }

  datatype SendOutcome = Accepted | AlreadyKnown | NonceTooLow | Refused

  datatype Encoding = InDer | InP1363

  /** One approver's signature, as the page sends it. */
  datatype Approval = Approval(publicKey: Text, signature: Der.Bytes, encoding: Encoding, timestamp: SafeInt)

  /** What Arc says of the facility when a waiver is asked for. */
  datatype Readiness = Readiness(
    vaultFacilityId: Hex, admin: Address, activeWaiver: bool, compliant: bool, maxWaiverDuration: nat)

  datatype WaiverRefusal = OtherFacility | OtherAdmin | AlreadyActive | AlreadyCompliant

  /** `waiverRefusals`: every reason the contract would refuse a waiver of any duration. */
  function WaiverRefusals(facilityId: Hex, walletAddress: Address, r: Readiness): (refusals: seq<WaiverRefusal>)
    ensures refusals == [] <==>
      && Lower(r.vaultFacilityId) == Lower(facilityId) && SameAddress(r.admin, walletAddress)
      && !r.activeWaiver && !r.compliant
    ensures OtherFacility in refusals <==> !SameLetters(r.vaultFacilityId, facilityId)
    ensures OtherAdmin in refusals <==> !SameLetters(r.admin, walletAddress)
    ensures AlreadyActive in refusals <==> r.activeWaiver
    ensures AlreadyCompliant in refusals <==> r.compliant
  {
    LowerAlike(r.vaultFacilityId, facilityId);
    LowerAlike(r.admin, walletAddress);
    (if Lower(r.vaultFacilityId) != Lower(facilityId) then [OtherFacility] else [])
    + (if !SameAddress(r.admin, walletAddress) then [OtherAdmin] else [])
    + (if r.activeWaiver then [AlreadyActive] else [])
    + (if r.compliant then [AlreadyCompliant] else [])
  }

  // ---- The store as the protocol sees it -----------------------------------------------------------

  lemma ContentsFind(es: Entries, id: Text)
    ensures id in Contents(es) <==> Find(es, id).Some?
    ensures id in Contents(es) ==> Contents(es)[id] == Find(es, id).value
  {
  }

  lemma ContentsAll(es: Entries)
    requires Unique(es)
    ensures Unique(All(es)) && Contents(All(es)) == Contents(es)
  {
    AllUnique(es);
    LoadFixed(All(es));
    ReloadSame(es, []);
  }

  lemma ContentsRecorded(es: Entries, id: Text, r: BroadcastRecord)
    requires Unique(es) && id in Contents(es)
    ensures Contents(Recorded(es, id, r)) == Contents(es)[id := Contents(es)[id].(broadcast := Some(r))]
  {
    ContentsFind(es, id);
    PutContents(es, Find(es, id).value.(broadcast := Some(r)));
  }

  // ---- Runs, as ghost sequences --------------------------------------------------------------------

  lemma StepOn(c: Config, run: seq<World>, l: Label, w: World)
    requires Path(c, run) && Step(c, l, run[|run| - 1], w)
    ensures Path(c, run + [w])
  {
    hide Step;
    var longer := run + [w];
    forall i | 0 <= i < |longer| - 1
      ensures Next(c, longer[i], longer[i + 1])
    {
      if i < |run| - 1 {
        assert Next(c, run[i], run[i + 1]);
      }
    }
  }

  class QuorumAdminService {
    const config: Config
    const privy: PrivyServer
    const arc: ArcNode
    const store: JsonFileStore
    // History, which the proofs speak of and the code never reads.
    ghost var births: map<Text, Birth>
    ghost var sends: seq<Send>
    ghost var forwarded: set<Forwarded>

    /** The state of the protocol, with this process at `pc`. */
    ghost function At(pc: Pc): (w: World)
      reads this, privy, arc, store, store.disk
    {
      World(Contents(store.actions), Contents(store.disk.Saved()), pc,
            privy.intents, arc.mined, births, sends, forwarded)
    }

    ghost predicate Valid()
      reads this, privy, arc, store, store.disk
    {
      store.Valid() && Unique(store.disk.Saved()) && Inv(config, At(Idle))
    }

    /** A first process over an empty store. */
    constructor (config: Config, privy: PrivyServer, arc: ArcNode, store: JsonFileStore)
      requires store.Valid() && store.actions == [] && store.disk.Saved() == []
      requires IntentsNamed(privy.intents) && NoncesUnique(arc.mined)
      ensures Valid() && Initial(At(Idle))
      ensures this.config == config && this.privy == privy && this.arc == arc && this.store == store
    {
      this.config := config;
      this.privy := privy;
      this.arc := arc;
      this.store := store;
      births, sends, forwarded := map[], [], {};
      new;
      assert Contents(store.actions) == map[] && Contents(store.disk.Saved()) == map[];
      InitialInv(config, At(Idle));
    }

    /** The process after a crash of another: what the file holds, and the same outside world. */
    constructor Restarted(dead: QuorumAdminService)
      requires dead.Valid()
      ensures Valid() && config == dead.config && privy == dead.privy && arc == dead.arc
      ensures store.disk == dead.store.disk && store.actions == dead.store.disk.Saved()
      ensures Step(config, Crash, dead.At(Idle), At(Idle))
    {
      config := dead.config;
      privy := dead.privy;
      arc := dead.arc;
      births, sends, forwarded := dead.births, dead.sends, dead.forwarded;
      store := new JsonFileStore(dead.store.disk);
      new;
      assert store.actions == dead.store.disk.Saved();
      assert At(Idle) == dead.At(Idle).(mem := dead.At(Idle).disk);
      StepKeeps(config, Crash, dead.At(Idle), At(Idle));
    }

    /** Privy recorded a different request, and the error says how. */
    ghost predicate Complains(e: ServiceError, request: RequestDetails, tx: Pinned) {
      e.DifferentRequest? && forall p :: p in e.problems <==> IsProblem(p, request, config.rpcPath, tx)
    }

    /** The error of a proposal: the first thing that stops it. */
    ghost predicate WhyNotProposed(noneOpen: bool, tx: Option<Pinned>, reply: Option<Intent>, e: ServiceError) {
      if !noneOpen then e.OpenAction? || e == PrivyUnavailable
      else if tx.None? then e == NotPinned
      else if reply.None? then e == PrivyUnavailable
      else if !AsksToSign(reply.value.request, config.rpcPath, tx.value) then Complains(e, reply.value.request, tx.value)
      else e == StoreFailed
    }

    /** Every stored action is broadcast or closed at Privy, so no nonce is in flight. */
    ghost predicate NoneOpen()
      reads this, privy, store
    {
      forall id | id in Contents(store.actions) && Contents(store.actions)[id].broadcast.None? ::
        && id in privy.intents
        && var status := privy.intents[id].status;
        status.Failed? || status.Expired? || status.Rejected? || status.Dismissed?
    }

    lemma NoneOpenIs(unsent: set<Text>)
      requires forall id :: id in unsent <==> id in Contents(store.actions) && Contents(store.actions)[id].broadcast.None?
      ensures NoneOpen() <==> forall id | id in unsent :: id in privy.intents && Closed(privy.intents[id])
    {
      hide Contents;
    }

    /** `assertNoOpenAction`: asks Privy about every action not yet broadcast. */
    method AssertNoOpenAction(ghost p: Proposal) returns (r: Result<(), ServiceError>, ghost run: seq<World>)
      requires Valid()
      ensures r.Ok? <==> NoneOpen()
      ensures r.Err? ==> r.error.OpenAction? || r.error == PrivyUnavailable
      ensures r.Err? && r.error.OpenAction? ==>
        exists a :: a in store.actions && a.intentId == r.error.id && Holding(At(Idle), a)
      ensures Path(config, run) && run[0] == At(Idle)
      ensures run[|run| - 1] == At(if r.Ok? then Checking(p, {}) else Idle)
    {
      hide Inv, Step, Contents, NoneOpen, Path, Next, Open, All, Unique;
      var actions := All(store.actions);
      ghost var unsent := set id | id in Contents(store.actions) && Contents(store.actions)[id].broadcast.None?;
      ghost var todo := unsent;
      AllMembers(store.actions);
      NoneOpenIs(unsent);
      StartStep(config, At(Idle), p);
      run := Start(config, At(Idle));
      run := Extend(config, run, StartPropose(p), At(Checking(p, todo)));
      for i := 0 to |actions|
        invariant run != [] && Path(config, run) && run[0] == At(Idle) && run[|run| - 1] == At(Checking(p, todo))
        invariant todo <= unsent
        invariant forall id | id in unsent :: id in todo || (id in privy.intents && Closed(privy.intents[id]))
        invariant forall j :: 0 <= j < i ==> actions[j].intentId !in todo
      {
        var action := actions[i];
        Held(store.actions, action);
        if action.broadcast.None? {
          if action.intentId !in privy.intents {
            run := Abandon(config, run);
            return Err(PrivyUnavailable), run;
          }
          if Open(privy.intents[action.intentId].status) {
            run := Abandon(config, run);
            assert action in store.actions && Holding(At(Idle), action);
            return Err(OpenAction(action.intentId)), run;
          }
          if action.intentId in todo {
            CheckStep(config, At(Checking(p, todo)), action.intentId);
            todo := todo - {action.intentId};
            run := Extend(config, run, CheckOne(action.intentId), At(Checking(p, todo)));
          }
        }
      }
      AllHeld(store.actions, actions);
      assert todo == {};
      return Ok(()), run;
    }

    /** The end of `propose`: the action is built and saved. */
    method SaveProposed(p: Proposal, tx: Pinned, intent: Intent, now: int, fate: Fate, ghost begun: seq<World>)
      returns (r: Result<StoredAction, ServiceError>, ghost run: seq<World>)
      requires store.Valid() && Unique(store.disk.Saved()) && RecordsPinned(intent.request, config.rpcPath, tx)
      requires Path(config, begun) && Inv(config, begun[0]) && begun[|begun| - 1] == At(HasIntent(p, tx, intent))
      modifies this`births, store, store.disk
      ensures Valid()
      ensures Path(config, run) && run[0] == begun[0] && run[|run| - 1] == At(Idle)
      ensures store.actions == Store.Put(old(store.actions), NewAction(p, tx, intent.id, now))
      ensures store.disk.file == if fate.Completes? then Some(All(store.actions)) else old(store.disk.file)
      ensures r == if fate.Completes? then Ok(NewAction(p, tx, intent.id, now)) else Err(StoreFailed)
    {
      hide Inv, Step, Contents, Path, RecordsPinned, NewAction;
      var action := NewAction(p, tx, intent.id, now);
      NewActionNamed(p, tx, intent.id, now);
      PutContents(store.actions, action);
      SaveStep(config, At(HasIntent(p, tx, intent)), now);
      var flushed := store.Save(action, fate);
      births := births[intent.id := Birth(|births|, tx)];
      ContentsAll(store.actions);
      run := FinishFlush(config, begun, SaveAction(now), At(Idle), flushed);
      RunKeeps(config, run);
      return if flushed then Ok(action) else Err(StoreFailed), run;
    }

    /**
     * `propose`. An action is stored exactly when none is open, the call pins, and Privy recorded
     * the pinned transaction; in every other case the store is as it was.
     */
    method Propose(p: Proposal, answers: PinAnswers, reply: Option<Intent>, now: int, fate: Fate)
      returns (r: Result<StoredAction, ServiceError>, ghost run: seq<World>)
      requires Valid()
      requires PendingNonce(config, At(Idle), answers.nonce)
      requires reply.Some? ==> reply.value.id !in privy.intents && Signable(reply.value.request.body)
      modifies this, privy, store, store.disk
      ensures Valid()
      ensures Path(config, run) && run[0] == old(At(Idle)) && run[|run| - 1] == At(Idle)
      ensures var tx := PinAdminTransaction(config.walletAddress, p.to, p.data, answers);
              var stored := && old(NoneOpen()) && tx.Some? && reply.Some?
                            && RecordsPinned(reply.value.request, config.rpcPath, tx.value);
              && (r.Ok? <==> stored && fate.Completes?)
              && (stored ==> store.actions == Store.Put(old(store.actions), NewAction(p, tx.value, reply.value.id, now)))
              && (stored && fate.Completes? ==> store.disk.file == Some(All(store.actions)))
              && (r.Ok? ==> r.value == NewAction(p, tx.value, reply.value.id, now))
              && (!stored ==> store.actions == old(store.actions))
              && (!stored || !fate.Completes? ==> store.disk.file == old(store.disk.file))
      ensures r.Ok? ==> Proposes(r.value, reply.value.id, p, config.walletAddress, answers, now)
      ensures r.Err? ==> WhyNotProposed(old(NoneOpen()), PinAdminTransaction(config.walletAddress, p.to, p.data, answers),
                                        reply, r.error)
      ensures sends == old(sends) && forwarded == old(forwarded)
    {
      hide Inv, Step, Contents, Signable, RecordsPinned, NewAction, PendingNonce, Path, Proposes, NoneOpen;
      hide AsksToSign, IsProblem, PinsCall, DeserializePinned, SerializePinned, Next, PinAdminTransaction, All, Unique, Store.Put, Open;
      var none;
      none, run := AssertNoOpenAction(p);
      if none.Err? {
        return Err(none.error), run;
      }
      var pinned := PinAdminTransaction(config.walletAddress, p.to, p.data, answers);
      if pinned.None? {
        run := Abandon(config, run);
        return Err(NotPinned), run;
      }
      var tx := pinned.value;
      PinnedFor(config.walletAddress, p.to, p.data, answers);
      PendingAnywhere(config, At(Idle), At(Checking(p, {})), tx.nonce);
      PinStep(config, At(Checking(p, {})), tx);
      run := Extend(config, run, Pin(tx), At(HasPinned(p, tx)));
      if reply.None? {
        run := Abandon(config, run);
        return Err(PrivyUnavailable), run;
      }
      var intent := reply.value;
      CreateStep(config, At(HasPinned(p, tx)), intent);
      privy.intents := privy.intents[intent.id := intent];
      run := Extend(config, run, PrivyCreates(intent), At(HasIntent(p, tx, intent)));
      var problems := IntentProblems(intent.request, config.rpcPath, tx);
      if problems != [] {
        run := Abandon(config, run);
        RunKeeps(config, run);
        return Err(DifferentRequest(problems)), run;
      }
      r, run := SaveProposed(p, tx, intent, now, fate, run);
      NewActionIs(p, tx, intent.id, now, config.walletAddress, answers);
    }

    /**
     * `proposeWaiver`: a waiver the contract would refuse is never proposed. `data` is the encoded
     * call, and the reason is stored without surrounding space.
     */
    method ProposeWaiver(facility: Option<(Hex, Address)>, durationSeconds: int, reason: Text,
                         data: Hex, description: Text, readiness: Readiness,
                         answers: PinAnswers, reply: Option<Intent>, now: int, fate: Fate)
      returns (r: Result<StoredAction, ServiceError>, ghost run: seq<World>)
      requires Valid() && (facility.Some? <==> config.hasFacility)
      requires PendingNonce(config, At(Idle), answers.nonce)
      requires reply.Some? ==> reply.value.id !in privy.intents && Signable(reply.value.request.body)
      modifies this, privy, store, store.disk
      ensures Valid()
      ensures Path(config, run) && run[0] == old(At(Idle)) && run[|run| - 1] == At(Idle)
      ensures var acceptable := && facility.Some? && 0 < durationSeconds <= readiness.maxWaiverDuration
                                && !AllSpace(reason)
                                && WaiverRefusals(facility.value.0, config.walletAddress, readiness) == [];
              && (!acceptable ==> r.Err? && store.actions == old(store.actions) && privy.intents == old(privy.intents))
              && (acceptable ==>
                  var tx := PinAdminTransaction(config.walletAddress, facility.value.1, data, answers);
                  r.Ok? <==> old(NoneOpen()) && tx.Some? && reply.Some? && fate.Completes?
                             && RecordsPinned(reply.value.request, config.rpcPath, tx.value))
      ensures
        if facility.None? then r == Err(NoFacilityConfigured)
        else if durationSeconds <= 0 then r == Err(BadDuration)
        else if AllSpace(reason) then r == Err(NoReason)
        else if durationSeconds > readiness.maxWaiverDuration then r == Err(TooLong)
        else r.Err? && r.error.WouldBeRefused? <==>
          WaiverRefusals(facility.value.0, config.walletAddress, readiness) != []
      ensures r.Err? && r.error.WouldBeRefused? ==>
        facility.Some? && r.error.refusals == WaiverRefusals(facility.value.0, config.walletAddress, readiness)
      ensures r.Ok? ==>
        && r.value.kind.WaiverCreate? && r.value.reason.Some? && Trims(reason, r.value.reason.value)
        && r.value.description == description && r.value.proposedAt == now && r.value.broadcast.None?
        && PinsCall(r.value.pinned, config.walletAddress, facility.value.1, data, answers)
        && store.actions == Store.Put(old(store.actions), r.value)
    {
      hide Inv, Step, Contents, Next, PinsCall, Signable, RecordsPinned, PendingNonce;
      hide Lower, TrimStart, TrimEnd, Trims, AllSpace, Decimal;
      run := Start(config, At(Idle));
      if facility.None? { return Err(NoFacilityConfigured), run; }
      var stated := TrimStart(TrimEnd(reason));
      TrimmedIs(reason, stated);
      TrimmedEmpty(reason);
      if durationSeconds <= 0 { return Err(BadDuration), run; }
      if stated == [] { return Err(NoReason), run; }
      if durationSeconds > readiness.maxWaiverDuration { return Err(TooLong), run; }
      var refusals := WaiverRefusals(facility.value.0, config.walletAddress, readiness);
      if refusals != [] { return Err(WouldBeRefused(refusals)), run; }
      var proposal := Proposal(WaiverCreate, facility.value.1, data, description, Some(stated));
      r, run := Propose(proposal, answers, reply, now, fate);
    }

    /** `reject`: Privy decides what becomes of the intent. */
    method Reject(id: Text, reply: Option<Intent>) returns (r: Result<(), ServiceError>, ghost run: seq<World>)
      requires Valid()
      requires reply.Some? && id in privy.intents ==> Evolves(privy.intents[id], reply.value)
      requires reply.Some? ==> reply.value.id == id && Signable(reply.value.request.body)
      modifies privy
      ensures Valid()
      ensures Path(config, run) && run[0] == old(At(Idle)) && run[|run| - 1] == At(Idle)
      ensures Find(store.actions, id).None? ==> r == Err(NotFound) && privy.intents == old(privy.intents)
      ensures r.Ok? <==> Find(store.actions, id).Some? && id in old(privy.intents) && reply.Some?
      ensures r.Ok? ==> privy.intents == old(privy.intents)[id := reply.value]
      ensures r.Err? ==> privy.intents == old(privy.intents)
    {
      hide Step, Contents, Path, Signable, MemberKeys, StoreOk, SendsOk, ForwardedOk, PcOk, DiskBehind, BirthOk;
      run := Start(config, At(Idle));
      if Find(store.actions, id).None? {
        return Err(NotFound), run;
      }
      if id !in privy.intents || reply.None? {
        return Err(PrivyUnavailable), run;
      }
      ChangeStep(config, At(Idle), id, reply.value);
      privy.intents := privy.intents[id := reply.value];
      run := Extend(config, run, Environment, At(Idle));
      RunKeeps(config, run);
      return Ok(()), run;
    }

    /** Everything the service checks of an intent that approvals are asked for. */
    ghost predicate Approvable(id: Text)
      reads this, privy, store
    {
      && Find(store.actions, id).Some? && id in privy.intents && privy.intents[id].status.Pending?
      && DeserializePinned(Find(store.actions, id).value.pinned).Some?
      && RecordsPinned(privy.intents[id].request, config.rpcPath, DeserializePinned(Find(store.actions, id).value.pinned).value)
    }

    /** What is wrong with an action that is not, in the order it is looked at. */
    ghost predicate WhyNotApprovable(id: Text, e: ServiceError)
      reads this, privy, store
    {
      var a := Find(store.actions, id);
      if a.None? then e == NotFound
      else if id !in privy.intents then e == PrivyUnavailable
      else if !privy.intents[id].status.Pending? then e == NotPending
      else
        var tx := DeserializePinned(a.value.pinned);
        if tx.None? then e == StoreFailed
        else Complains(e, privy.intents[id].request, tx.value)
    }

    /** The checks `signingPayloadFor` and `approve` share. */
    method PendingIntent(id: Text) returns (r: Result<Intent, ServiceError>)
      ensures r.Ok? <==> Approvable(id)
      ensures r.Ok? ==> r.value == privy.intents[id]
      ensures r.Err? ==> WhyNotApprovable(id, r.error)
    {
      hide RecordsPinned, DeserializePinned, AsksToSign, IsProblem;
      var action := Find(store.actions, id);
      if action.None? { return Err(NotFound); }
      if id !in privy.intents { return Err(PrivyUnavailable); }
      var intent := privy.intents[id];
      if !intent.status.Pending? { return Err(NotPending); }
      var tx := DeserializePinned(action.value.pinned);
      if tx.None? { return Err(StoreFailed); }
      var problems := IntentProblems(intent.request, config.rpcPath, tx.value);
      if problems != [] { return Err(DifferentRequest(problems)); }
      return Ok(intent);
    }

    /** `signingPayloadFor`: the text to sign now, for a pending intent that records what was pinned. */
    method SigningPayloadFor(id: Text, now: SafeInt) returns (r: Result<Text, ServiceError>)
      requires Valid()
      ensures r.Ok? <==> Approvable(id)
      ensures r.Ok? ==> PayloadText(id, privy.intents[id].request, config.appId, now) == Some(r.value)
      ensures r.Ok? ==> Says(r.value, id, privy.intents[id].request, config.appId, now)
      ensures r.Err? ==> WhyNotApprovable(id, r.error)
    {
      hide RecordsPinned, DeserializePinned, StoreOk, SendsOk, ForwardedOk, PcOk, DiskBehind, PayloadText, Says;
      hide AsksToSign, IsProblem;
      var intent := PendingIntent(id);
      if intent.Err? { return Err(intent.error); }
      PayloadSays(id, intent.value.request, config.appId, now);
      var text := PayloadText(id, intent.value.request, config.appId, now);
      return Ok(text.value);
    }

    /** The signature as Privy takes it: DER, whatever the page sent. */
    function DerOf(approval: Approval): (der: Option<seq<int>>) {
      if approval.encoding.InDer? then Some(approval.signature)
      else if |approval.signature| == 64 then Some(Der.Sequence(approval.signature))
      else None
    }

    /** The conversion itself: DER stays as it is, and what becomes of P1363 decodes to it. */
    method ToDer(approval: Approval) returns (der: Option<seq<int>>)
      ensures der == DerOf(approval)
      ensures approval.encoding.InDer? ==> der == Some(approval.signature)
      ensures approval.encoding.InP1363? ==> (der.Some? <==> |approval.signature| == 64)
      ensures approval.encoding.InP1363? && der.Some? ==> Der.Decode(der.value) == Some(approval.signature)
    {
      hide Der.Sequence, Der.Decode;
      der := Some(approval.signature);
      if approval.encoding.InP1363? {
        der := Der.P1363ToDer(approval.signature);
        if der.Some? { Der.DerRoundTrip(approval.signature); }
      }
    }

    /**
     * `approve`. A signature reaches Privy exactly when the intent is pending and records what was
     * pinned, the key is a member, the time is within 300 seconds of the clock, and the signature
     * verifies over this intent's payload at that time.
     */
    method Approve(id: Text, approval: Approval, now: int)
      returns (r: Result<seq<int>, ServiceError>, ghost run: seq<World>)
      requires Valid()
      modifies this
      ensures Valid()
      ensures Path(config, run) && run[0] == old(At(Idle)) && run[|run| - 1] == At(Idle)
      ensures r.Ok? <==>
        && Approvable(id)
        && approval.publicKey in MemberKeys(privy.intents[id])
        && -SIGNATURE_WINDOW_MS <= now - approval.timestamp <= SIGNATURE_WINDOW_MS
        && DerOf(approval).Some?
        && PayloadBytes(id, privy.intents[id].request, config.appId, approval.timestamp).Some?
        && config.verify(approval.publicKey,
                         PayloadBytes(id, privy.intents[id].request, config.appId, approval.timestamp).value,
                         DerOf(approval).value)
      ensures r.Ok? ==> Some(r.value) == DerOf(approval)
      ensures r.Ok? && approval.encoding.InDer? ==> r.value == approval.signature
      ensures r.Ok? && approval.encoding.InP1363? ==> Der.Decode(r.value) == Some(approval.signature)
      ensures r.Ok? ==> -300_000 <= now - approval.timestamp <= 300_000
      ensures r.Ok? ==> exists text ::
        && Says(text, id, privy.intents[id].request, config.appId, approval.timestamp)
        && config.verify(approval.publicKey, Utf8.Encode(text), r.value)
      ensures r.Err? ==>
        if !Approvable(id) then WhyNotApprovable(id, r.error)
        else if approval.publicKey !in MemberKeys(privy.intents[id]) then r == Err(NotAMember)
        else if !(-300_000 <= now - approval.timestamp <= 300_000) then r == Err(OutsideWindow)
        else if approval.encoding.InP1363? && |approval.signature| != 64 then r == Err(MalformedSignature)
        else r == Err(BadSignature)
      ensures forwarded == if r.Ok?
                           then old(forwarded) + {Forwarded(id, approval.publicKey, r.value, approval.timestamp, now)}
                           else old(forwarded)
      ensures births == old(births) && sends == old(sends)
    {
      hide RecordsPinned, DeserializePinned, Inv, Step, Path, Contents, Next;
      hide PayloadBytes, Der.Sequence, Der.Decode, DerOf, Says, WhyNotApprovable;
      run := Start(config, At(Idle));
      var pending := PendingIntent(id);
      if pending.Err? { return Err(pending.error), run; }
      var intent := pending.value;
      var member := FindMemberKey(intent.members, approval.publicKey);
      if !member { return Err(NotAMember), run; }
      var distance := now - approval.timestamp;
      if (if distance < 0 then -distance else distance) > SIGNATURE_WINDOW_MS { return Err(OutsideWindow), run; }
      var der := ToDer(approval);
      if der.None? { return Err(MalformedSignature), run; }
      var bytes := PayloadBytes(id, intent.request, config.appId, approval.timestamp);
      if bytes.None? || !config.verify(approval.publicKey, bytes.value, der.value) {
        return Err(BadSignature), run;
      }
      VerifiedText(id, intent.request, bytes.value, approval.timestamp);
      ghost var f := Forwarded(id, approval.publicKey, der.value, approval.timestamp, now);
      ContentsFind(store.actions, id);
      ApproveStep(config, At(Idle), f);
      forwarded := forwarded + {f};
      run := Extend(config, run, Protocol.Approve(f), At(Idle));
      RunKeeps(config, run);
      return Ok(der.value), run;
    }

    /** What a signature is verified over is the encoding of a text that says what the request is. */
    lemma VerifiedText(id: Text, request: RequestDetails, bytes: seq<Utf8.Byte>, timestamp: SafeInt)
      requires Valid() && id in privy.intents && privy.intents[id].request == request
      requires PayloadBytes(id, request, config.appId, timestamp) == Some(bytes)
      ensures exists text :: Says(text, id, request, config.appId, timestamp) && Utf8.Encode(text) == bytes
    {
      hide Says, PayloadText, StoreOk, SendsOk, ForwardedOk, PcOk, DiskBehind;
      PayloadSays(id, request, config.appId, timestamp);
    }

    /** `keyMembers(intent).find`. */
    method FindMemberKey(members: seq<KeyMember>, key: Text) returns (found: bool)
      ensures found <==> exists m :: m in members && m.publicKey == key
    {
      for i := 0 to |members|
        invariant forall j :: 0 <= j < i ==> members[j].publicKey != key
      {
        if members[i].publicKey == key { return true; }
      }
      return false;
    }

    /** What Privy has signed for an action. */
    function SignedOf(id: Text): (raw: Option<SignedTx>)
      reads privy
    {
      if id in privy.intents then privy.intents[id].signed else None
    }

    /** Unsent, signed by Privy, and signed as pinned. */
    ghost predicate Executable(id: Text)
      reads this, privy, arc, store, store.disk
    {
      MayExecute(config, At(Idle), id)
    }

    /** What stops an execution before anything is sent, in the order it is looked at. */
    ghost predicate WhyNotExecuted(id: Text, a: StoredAction, e: ServiceError)
      reads this, privy
    {
      if id !in privy.intents then e == PrivyUnavailable
      else if !privy.intents[id].status.Executed? then e == NotExecuted
      else if privy.intents[id].signed.None? then e == NoSignedTransaction
      else
        var tx := DeserializePinned(a.pinned);
        if tx.None? then e == StoreFailed
        else if !AsksToSign(privy.intents[id].request, config.rpcPath, tx.value) then
          Complains(e, privy.intents[id].request, tx.value)
        else e.DifferentTransaction? && !CarriesPinned(privy.intents[id].signed.value, tx.value)
    }

    /** Every check `execute` makes before it sends. */
    method ReadyToSend(id: Text) returns (r: Result<SignedTx, ServiceError>)
      requires Valid() && Find(store.actions, id).Some? && Find(store.actions, id).value.broadcast.None?
      ensures r.Ok? <==> Executable(id)
      ensures r.Ok? ==> SignedOf(id) == Some(r.value)
      ensures r.Err? ==> WhyNotExecuted(id, Find(store.actions, id).value, r.error)
    {
      hide Inv, RecordsPinned, SignedAsPinned, DeserializePinned, Contents, AsksToSign, IsProblem, CarriesPinned;
      ContentsFind(store.actions, id);
      var action := Find(store.actions, id).value;
      if id !in privy.intents { return Err(PrivyUnavailable); }
      var intent := privy.intents[id];
      if !intent.status.Executed? { return Err(NotExecuted); }
      if intent.signed.None? { return Err(NoSignedTransaction); }
      var tx := DeserializePinned(action.pinned);
      if tx.None? { return Err(StoreFailed); }
      var problems := IntentProblems(intent.request, config.rpcPath, tx.value);
      if problems != [] { return Err(DifferentRequest(problems)); }
      var verified := VerifySignedTransaction(intent.signed.value, tx.value);
      if verified.Err? { return Err(DifferentTransaction(verified.error)); }
      return Ok(intent.signed.value);
    }

    /** The hand-over to Arc, for the history: the call waits afterwards unless Arc refused. */
    ghost method NoteSend(id: Text, raw: SignedTx, sending: SendOutcome) returns (run: seq<World>)
      requires Valid() && Executable(id) && SignedOf(id) == Some(raw)
      modifies this`sends
      ensures sends == old(sends) + [Send(id, raw)]
      ensures Path(config, run) && run[0] == old(At(Idle))
      ensures run[|run| - 1] == At(if sending.Refused? then Idle else Waiting(id, raw))
    {
      hide Inv, Step, Contents, Path, MayExecute;
      run := Start(config, At(Idle));
      ExecutableSigned(config, At(Idle), id);
      ExecuteStep(config, At(Idle), id);
      run := Extend(config, run, StartExecute(id), At(Sending(id, raw)));
      SendStep(config, At(Sending(id, raw)), !sending.Refused?);
      sends := sends + [Send(id, raw)];
      run := Extend(config, run, SendRaw, At(if sending.Refused? then Idle else Waiting(id, raw)));
    }

    /**
     * `broadcastAndConfirm`: a transaction Arc already knows is not an error, the receipt is what
     * counts. It ends with the receipt of a success, and in an error otherwise.
     */
    method BroadcastAndConfirm(id: Text, raw: SignedTx, sending: SendOutcome, block: Option<Receipt>)
      returns (r: Result<Receipt, ServiceError>, ghost run: seq<World>)
      requires Valid() && Executable(id) && SignedOf(id) == Some(raw)
      requires block.Some? && raw !in arc.mined ==> NonceFree(arc.mined, raw)
      modifies this, arc
      ensures births == old(births) && forwarded == old(forwarded) && sends == old(sends) + [Send(id, raw)]
      ensures arc.mined == MinedAfter(old(arc.mined), raw, sending, block)
      ensures r.Ok? <==> !sending.Refused? && raw in arc.mined && arc.mined[raw].success
      ensures r.Ok? ==> r.value == arc.mined[raw]
      ensures r.Err? ==>
        r == Err(if sending.Refused? then SendFailed else if raw !in arc.mined then NoReceipt else Reverted)
      ensures Path(config, run) && run[0] == old(At(Idle))
      ensures run[|run| - 1] == At(if r.Ok? then Waiting(id, raw) else Idle)
      ensures r.Err? ==> Valid()
    {
      hide Inv, Step, Contents, NoncesUnique, Path, MayExecute, NonceFree, ChainGrows, IntentsNamed;
      InvNonces(config, At(Idle));
      run := NoteSend(id, raw, sending);
      if sending.Refused? {
        RunKeeps(config, run);
        return Err(SendFailed), run;
      }
      ghost var sent := At(Waiting(id, raw));
      var receipt := arc.WaitForReceipt(raw, block);
      MineStep(config, sent, At(Waiting(id, raw)));
      run := Extend(config, run, Environment, At(Waiting(id, raw)));
      if receipt.None? || !receipt.value.success {
        run := Abandon(config, run);
        RunKeeps(config, run);
        return Err(if receipt.None? then NoReceipt else Reverted), run;
      }
      return Ok(receipt.value), run;
    }

    /**
     * The send and the record after it. The one stop between a successful receipt and its record is
     * a waiver with no facility configured.
     */
    method SendAndRecord(id: Text, a: StoredAction, raw: SignedTx,
                         sending: SendOutcome, block: Option<Receipt>, fate: Fate)
      returns (r: Result<BroadcastRecord, ServiceError>, ghost run: seq<World>)
      requires Valid() && Executable(id) && SignedOf(id) == Some(raw) && Find(store.actions, id) == Some(a)
      requires block.Some? && raw !in arc.mined ==> NonceFree(arc.mined, raw)
      modifies this, arc, store, store.disk
      ensures Valid()
      ensures Path(config, run) && run[0] == old(At(Idle)) && run[|run| - 1] == At(Idle)
      ensures births == old(births) && forwarded == old(forwarded) && sends == old(sends) + [Send(id, raw)]
      ensures arc.mined == MinedAfter(old(arc.mined), raw, sending, block)
      ensures Settles(config, id, a, raw, sending, fate, arc.mined, old(store.actions), store.actions, r)
      ensures store.disk.file == if Recordable(config, a, raw, sending, arc.mined) && fate.Completes?
                                 then Some(All(store.actions)) else old(store.disk.file)
    {
      hide Inv, Contents, Path, RecordOf, MayExecute;
      var receipt;
      receipt, run := BroadcastAndConfirm(id, raw, sending, block);
      if receipt.Err? { return Err(receipt.error), run; }
      r, run := RecordReceipt(id, a, raw, receipt.value, fate, run);
    }

    /** What `execute` does with a successful receipt: the waiver's event, the record, then the checks. */
    method RecordReceipt(id: Text, a: StoredAction, raw: SignedTx, receipt: Receipt, fate: Fate, ghost begun: seq<World>)
      returns (r: Result<BroadcastRecord, ServiceError>, ghost run: seq<World>)
      requires store.Valid() && Unique(store.disk.Saved()) && Find(store.actions, id) == Some(a)
      requires raw in arc.mined && arc.mined[raw] == receipt && receipt.success
      requires Path(config, begun) && Inv(config, begun[0]) && begun[|begun| - 1] == At(Waiting(id, raw))
      modifies store, store.disk
      ensures Valid()
      ensures Path(config, run) && run[0] == begun[0] && run[|run| - 1] == At(Idle)
      ensures CannotRecord(config, a) ==>
        r == Err(NoFacility) && store.actions == old(store.actions) && store.disk.file == old(store.disk.file)
      ensures !CannotRecord(config, a) ==>
        && store.actions == Recorded(old(store.actions), id, RecordOf(raw, receipt, a))
        && (r.Ok? <==> fate.Completes? && WaiverChecks(a, receipt))
        && (r.Ok? ==> r.value == RecordOf(raw, receipt, a))
        && (r.Err? ==> r == Err(if fate.Completes? then WaiverMismatch else StoreFailed))
        && store.disk.file == if fate.Completes? then Some(All(store.actions)) else old(store.disk.file)
    {
      hide Inv, Step, Contents, Path, Next, RecordOf, WaiverIn, SameAddress, FromVault;
      ContentsFind(store.actions, id);
      if CannotRecord(config, a) {
        run := Abandon(config, begun);
        RunKeeps(config, run);
        return Err(NoFacility), run;
      }
      var record := RecordOf(raw, receipt, a);
      ReceiveStep(config, At(Waiting(id, raw)));
      ContentsRecorded(store.actions, id, record);
      var updated, flushed := store.RecordBroadcast(id, record, fate);
      ContentsAll(store.actions);
      run := FinishFlush(config, begun, Receive, At(Idle), flushed);
      RunKeeps(config, run);
      if !flushed { return Err(StoreFailed), run; }
      if !WaiverChecks(a, receipt) { return Err(WaiverMismatch), run; }
      return Ok(record), run;
    }

    /** `execute`: idempotent once recorded, and otherwise one send at most. */
    method Execute(id: Text, sending: SendOutcome, block: Option<Receipt>, fate: Fate)
      returns (r: Result<BroadcastRecord, ServiceError>, ghost run: seq<World>)
      requires Valid()
      requires block.Some? && SignedOf(id).Some? && SignedOf(id).value !in arc.mined ==>
        NonceFree(arc.mined, SignedOf(id).value)
      modifies this, arc, store, store.disk
      ensures Valid()
      ensures Path(config, run) && run[0] == old(At(Idle)) && run[|run| - 1] == At(Idle)
      ensures var a := Find(old(store.actions), id);
              && (a.None? ==> r == Err(NotFound))
              && (a.Some? && a.value.broadcast.Some? && id in privy.intents ==> r == Ok(a.value.broadcast.value))
              && (a.Some? && a.value.broadcast.Some? && id !in privy.intents ==> r == Err(PrivyUnavailable))
              && (a.Some? && a.value.broadcast.None? && r.Ok? ==> old(Executable(id)))
      ensures Find(old(store.actions), id).Some? && Find(old(store.actions), id).value.broadcast.None?
              && !old(Executable(id)) ==>
        r.Err? && WhyNotExecuted(id, Find(old(store.actions), id).value, r.error)
      ensures !old(Executable(id)) ==>
        && store.actions == old(store.actions) && store.disk.file == old(store.disk.file)
        && sends == old(sends) && arc.mined == old(arc.mined)
      ensures old(Executable(id)) ==>
        && Find(old(store.actions), id).Some? && SignedOf(id).Some?
        && var a, raw := Find(old(store.actions), id).value, SignedOf(id).value;
        && sends == old(sends) + [Send(id, raw)]
        && arc.mined == MinedAfter(old(arc.mined), raw, sending, block)
        && Settles(config, id, a, raw, sending, fate, arc.mined, old(store.actions), store.actions, r)
        && (!sending.Refused? && raw in arc.mined && arc.mined[raw].success && (a.kind.WaiverCreate? ==> config.hasFacility) ==>
              Recording(a, raw, arc.mined[raw], id, fate, old(store.actions), store.actions, r))
    {
      hide Inv, Contents, MayExecute, Path, RecordOf, Settles, MinedAfter, Recording, WhyNotExecuted;
      run := Start(config, At(Idle));
      ContentsFind(store.actions, id);
      var action := Find(store.actions, id);
      if action.None? {
        NotExecutable(config, At(Idle), id);
        return Err(NotFound), run;
      }
      if action.value.broadcast.Some? {
        NotExecutable(config, At(Idle), id);
        return if id in privy.intents then Ok(action.value.broadcast.value) else Err(PrivyUnavailable), run;
      }
      var ready := ReadyToSend(id);
      if ready.Err? { return Err(ready.error), run; }
      r, run := SendAndRecord(id, action.value, ready.value, sending, block, fate);
      SettlesRecording(config, id, action.value, ready.value, sending, fate, arc.mined, old(store.actions), store.actions, r);
    }
  }

  /**
   * The record is made: that action now has it and no other action changed; it holds what the receipt
   * shows; and the call succeeds exactly if the file was written and, for a waiver, the receipt carries
   * exactly one event of the approved vault, naming the facility and committing to the reason.
   */
  ghost predicate Recording(a: StoredAction, raw: SignedTx, receipt: Receipt, id: Text, fate: Fate,
                            before: Entries, after: Entries, r: Result<BroadcastRecord, ServiceError>)
  {
    && Find(after, id).Some? && Find(after, id).value.broadcast.Some?
    && var b := Find(after, id).value.broadcast.value;
    && Find(after, id).value == a.(broadcast := Some(b)) && RecordsReceipt(b, a, raw, receipt)
    && (forall k | k != id :: Find(after, k) == Find(before, k))
    && (r.Ok? <==> fate.Completes? && (a.kind.WaiverCreate? ==> OneEventSays(receipt, a.pinned.to, true, true)))
    && (r.Ok? ==> r.value == b)
  }

  lemma SettlesRecording(c: Config, id: Text, a: StoredAction, raw: SignedTx, sending: SendOutcome, fate: Fate,
                         mined: map<SignedTx, Receipt>, before: Entries, after: Entries,
                         r: Result<BroadcastRecord, ServiceError>)
    requires Unique(before) && Find(before, id) == Some(a)
    requires Settles(c, id, a, raw, sending, fate, mined, before, after, r)
    ensures !sending.Refused? && raw in mined && mined[raw].success && (a.kind.WaiverCreate? ==> c.hasFacility) ==>
      Recording(a, raw, mined[raw], id, fate, before, after, r)
  {
    hide RecordOf, WaiverIn, OneEventSays, RecordsReceipt;
    if raw in mined {
      RecordIs(raw, mined[raw], a);
      WaiverInIs(mined[raw], a.pinned.to);
      PutUnique(before, a.(broadcast := Some(RecordOf(raw, mined[raw], a))));
    }
  }

  lemma AllMembers(es: Entries)
    requires Unique(es)
    ensures forall e :: e in All(es) <==> e in es
  {
    AllIsStableSort(es, 0);
  }

  lemma Held(es: Entries, a: StoredAction)
    requires Unique(es) && a in es
    ensures a.intentId in Contents(es) && Contents(es)[a.intentId] == a
  {
    FindMember(es, a);
    ContentsFind(es, a.intentId);
  }

  lemma AllHeld(es: Entries, actions: Entries)
    requires forall e :: e in actions <==> e in es
    ensures forall id | id in Contents(es) :: exists j :: 0 <= j < |actions| && actions[j].intentId == id
  {
    forall id | id in Contents(es)
      ensures exists j :: 0 <= j < |actions| && actions[j].intentId == id
    {
      ContentsFind(es, id);
      var a := Find(es, id).value;
      var j :| 0 <= j < |actions| && actions[j] == a;
    }
  }

  lemma StartStep(c: Config, w: World, p: Proposal)
    requires w.pc.Idle?
    ensures Step(c, StartPropose(p), w, w.(pc := Checking(p, set id | id in w.mem && w.mem[id].broadcast.None?)))
  {
  }

  lemma AbortStep(c: Config, w: World)
    requires !w.pc.Flushing?
    ensures Step(c, Abort, w, w.(pc := Idle))
  {
  }

  lemma CheckStep(c: Config, w: World, id: Text)
    requires w.pc.Checking? && id in w.pc.todo && id in w.intents && Closed(w.intents[id])
    ensures Step(c, CheckOne(id), w, w.(pc := Checking(w.pc.proposal, w.pc.todo - {id})))
  {
  }

  lemma Start(c: Config, w: World) returns (run: seq<World>)
    ensures Path(c, run) && run == [w]
  {
    run := [w];
  }

  lemma Extend(c: Config, run: seq<World>, l: Label, w: World) returns (longer: seq<World>)
    requires Path(c, run) && Step(c, l, run[|run| - 1], w)
    ensures longer != [] && Path(c, longer) && longer[0] == run[0] && longer[|longer| - 1] == w
  {
    hide Step;
    StepOn(c, run, l, w);
    longer := run + [w];
  }

  /** The call ends in an error before it changed the store. */
  lemma Abandon(c: Config, run: seq<World>) returns (longer: seq<World>)
    requires Path(c, run) && !run[|run| - 1].pc.Flushing?
    ensures longer != [] && Path(c, longer) && longer[0] == run[0] && longer[|longer| - 1] == run[|run| - 1].(pc := Idle)
  {
    hide Step, Next;
    AbortStep(c, run[|run| - 1]);
    longer := Extend(c, run, Abort, run[|run| - 1].(pc := Idle));
  }

  /** The store changed in memory; the flush that follows completes or fails. */
  lemma FinishFlush(c: Config, run: seq<World>, l: Label, done: World, flushed: bool) returns (longer: seq<World>)
    requires Path(c, run)
    requires var last := run[|run| - 1];
             Step(c, l, last, done.(pc := Flushing, disk := last.disk))
    requires done.pc.Idle? && done.disk == if flushed then done.mem else run[|run| - 1].disk
    ensures longer != [] && Path(c, longer) && longer[0] == run[0] && longer[|longer| - 1] == done
  {
    hide Next, Step;
    var flushing := done.(pc := Flushing, disk := run[|run| - 1].disk);
    longer := Extend(c, run, l, flushing);
    FlushStep(c, flushing, done, flushed);
    longer := Extend(c, longer, if flushed then Rename else FlushFails, done);
  }

  lemma FlushStep(c: Config, flushing: World, done: World, flushed: bool)
    requires flushing.pc.Flushing? && done == flushing.(pc := Idle, disk := done.disk)
    requires done.disk == if flushed then flushing.mem else flushing.disk
    ensures Step(c, if flushed then Rename else FlushFails, flushing, done)
  {
  }

  lemma RunKeeps(c: Config, run: seq<World>)
    requires Path(c, run) && Inv(c, run[0])
    ensures Inv(c, run[|run| - 1])
  {
    PathKeeps(c, run);
  }

  lemma PendingAnywhere(c: Config, w: World, w': World, n: nat)
    requires PendingNonce(c, w, n) && w'.mined == w.mined
    ensures PendingNonce(c, w', n)
  {
    hide Lower;
  }

  lemma PinStep(c: Config, w: World, tx: Pinned)
    requires w.pc.Checking? && w.pc.todo == {} && PendingNonce(c, w, tx.nonce)
    requires tx.chainId == ARC_TESTNET && tx.from == c.walletAddress
    requires tx.to == w.pc.proposal.to && tx.data == w.pc.proposal.data
    ensures Step(c, Pin(tx), w, w.(pc := HasPinned(w.pc.proposal, tx)))
  {
    hide PendingNonce;
  }

  lemma CreateStep(c: Config, w: World, i: Intent)
    requires w.pc.HasPinned? && i.id !in w.intents && Signable(i.request.body)
    ensures Step(c, PrivyCreates(i), w, w.(pc := HasIntent(w.pc.proposal, w.pc.tx, i), intents := w.intents[i.id := i]))
  {
    hide Signable;
  }

  lemma SaveStep(c: Config, w: World, now: int)
    requires w.pc.HasIntent? && RecordsPinned(w.pc.intent.request, c.rpcPath, w.pc.tx)
    ensures var id := w.pc.intent.id;
            Step(c, SaveAction(now), w, w.(
              pc := Flushing, mem := w.mem[id := NewAction(w.pc.proposal, w.pc.tx, id, now)],
              births := w.births[id := Birth(|w.births|, w.pc.tx)]))
  {
    hide RecordsPinned, NewAction;
  }

  /** A stored proposal is what was asked for, pinned as quoted, and not yet sent. */
  ghost predicate Proposes(a: StoredAction, id: Text, p: Proposal, wallet: Address, answers: PinAnswers, now: int) {
    && a.intentId == id && a.kind == p.kind && a.description == p.description && a.reason == p.reason
    && a.proposedAt == now && a.broadcast == None && PinsCall(a.pinned, wallet, p.to, p.data, answers)
  }

  lemma NewActionNamed(p: Proposal, tx: Pinned, id: Text, now: int)
    ensures NewAction(p, tx, id, now).intentId == id
  {
  }

  lemma NewActionIs(p: Proposal, tx: Pinned, id: Text, now: int, wallet: Address, answers: PinAnswers)
    requires PinAdminTransaction(wallet, p.to, p.data, answers) == Some(tx)
    ensures Proposes(NewAction(p, tx, id, now), id, p, wallet, answers, now)
  {
    hide PinsCall, PinAdminTransaction;
    PinnedCall(wallet, p.to, p.data, answers);
  }

  lemma ChangeStep(c: Config, w: World, id: Text, i: Intent)
    requires w.pc.Idle? && IntentsNamed(w.intents) && NoncesUnique(w.mined)
    requires id in w.intents && Evolves(w.intents[id], i) && Signable(i.request.body)
    ensures Step(c, Environment, w, w.(intents := w.intents[id := i]))
  {
    hide Signable, MemberKeys;
  }

  lemma ApproveStep(c: Config, w: World, f: Forwarded)
    requires w.pc.Idle? && MayApprove(c, w, f)
    ensures Step(c, Approve(f), w, w.(forwarded := w.forwarded + {f}))
  {
    hide MayApprove;
  }

  /** Where a send leaves the chain: a block may come with the transaction, unless it is mined already. */
  function MinedAfter(mined: map<SignedTx, Receipt>, raw: SignedTx, sending: SendOutcome, block: Option<Receipt>)
    : (after: map<SignedTx, Receipt>)
  {
    if !sending.Refused? && raw !in mined && block.Some? then mined[raw := block.value] else mined
  }

  /** Arc accepted or had the transaction, its receipt is a success, and nothing stops the record. */
  predicate Recordable(c: Config, a: StoredAction, raw: SignedTx, sending: SendOutcome, mined: map<SignedTx, Receipt>) {
    !sending.Refused? && raw in mined && mined[raw].success && !CannotRecord(c, a)
  }

  /** How a send ends for the store and the caller, with this much mined. */
  predicate Settles(c: Config, id: Text, a: StoredAction, raw: SignedTx, sending: SendOutcome, fate: Fate,
                    mined: map<SignedTx, Receipt>, before: Entries, after: Entries, r: Result<BroadcastRecord, ServiceError>)
  {
    if Recordable(c, a, raw, sending, mined) then
      && after == Recorded(before, id, RecordOf(raw, mined[raw], a))
      && (r.Ok? <==> fate.Completes? && WaiverChecks(a, mined[raw]))
      && (r.Ok? ==> r.value == RecordOf(raw, mined[raw], a))
      && (r.Err? ==> r == Err(if fate.Completes? then WaiverMismatch else StoreFailed))
    else
      after == before && r == Err(
        if sending.Refused? then SendFailed
        else if raw !in mined then NoReceipt
        else if !mined[raw].success then Reverted
        else NoFacility)
  }

  /** What the receipt of a waiver must show: one event of the vault, for this facility and this reason. */
  predicate WaiverChecks(a: StoredAction, receipt: Receipt) {
    a.kind.WaiverCreate? ==>
      WaiverIn(receipt, a.pinned.to).Some?
      && WaiverIn(receipt, a.pinned.to).value.facilityMatches
      && WaiverIn(receipt, a.pinned.to).value.reasonCommitmentMatches
  }

  lemma NotExecutable(c: Config, w: World, id: Text)
    requires id !in w.mem || w.mem[id].broadcast.Some?
    ensures !MayExecute(c, w, id)
  {
    hide RecordsPinned, SignedAsPinned, DeserializePinned;
  }

  lemma InvNonces(c: Config, w: World)
    requires Inv(c, w)
    ensures NoncesUnique(w.mined) && IntentsNamed(w.intents)
  {
    hide NoncesUnique, IntentsNamed, StoreOk, SendsOk, ForwardedOk, PcOk, DiskBehind, BirthOk;
  }

  lemma ExecuteStep(c: Config, w: World, id: Text)
    requires w.pc.Idle? && MayExecute(c, w, id)
    ensures Step(c, StartExecute(id), w, w.(pc := Sending(id, w.intents[id].signed.value)))
  {
    hide MayExecute;
  }

  lemma SendStep(c: Config, w: World, waits: bool)
    requires w.pc.Sending?
    ensures Step(c, SendRaw, w, w.(
      pc := if waits then Waiting(w.pc.id, w.pc.raw) else Idle, sends := w.sends + [Send(w.pc.id, w.pc.raw)]))
  {
  }

  lemma MineStep(c: Config, w: World, w': World)
    requires w' == w.(mined := w'.mined) && IntentsNamed(w.intents) && ChainGrows(w.mined, w'.mined)
    ensures Step(c, Environment, w, w')
  {
    hide MemberKeys, ChainGrows, Signable;
  }

  lemma ReceiveStep(c: Config, w: World)
    requires w.pc.Waiting? && w.pc.raw in w.mined && w.mined[w.pc.raw].success
    requires w.pc.id in w.mem && !CannotRecord(c, w.mem[w.pc.id])
    ensures var a := w.mem[w.pc.id];
            Step(c, Receive, w, w.(
              pc := Flushing,
              mem := w.mem[w.pc.id := a.(broadcast := Some(RecordOf(w.pc.raw, w.mined[w.pc.raw], a)))]))
  {
    hide RecordOf;
  }
}
