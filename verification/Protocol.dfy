// The quorum waiver protocol as a state machine: one service with its store, Privy, Arc, and crashes.
module Protocol {
  import opened Outcomes
  import opened Utf16
  import opened Json
  import opened Payload
  import opened Transactions
  import opened Intents
  import opened Store
  import Utf8

  const SIGNATURE_WINDOW_MS := 300_000

  /** What the service is configured with, and the relation that P-256 verification is. */
  datatype Config = Config(
    rpcPath: Text, walletAddress: Address, appId: Text, hasFacility: bool,
    verify: (Text, seq<Utf8.Byte>, seq<int>) -> bool)

  /** An event of a receipt: the vault it came from, and whether it names what was approved. */
  datatype WaiverEvent = WaiverEvent(vault: Address, namesFacility: bool, commitsToReason: bool)

  datatype Receipt = Receipt(success: bool, blockNumber: nat, waivers: seq<WaiverEvent>)

  /** A call to pin and propose. */
  datatype Proposal = Proposal(kind: ActionKind, to: Address, data: Hex, description: Text, reason: Option<Text>)

  /** History: what was pinned when an action was saved, and as which save. */
  datatype Birth = Birth(order: nat, pinned: Pinned)

  /** History: a signed transaction handed to Arc for an action. */
  datatype Send = Send(id: Text, raw: SignedTx)

  /** History: a signature passed on to Privy. */
  datatype Forwarded = Forwarded(id: Text, key: Text, signature: seq<int>, timestamp: SafeInt, now: int)

  /** Where the one running call stands. */
  datatype Pc =
    | Idle
    | Checking(proposal: Proposal, todo: set<Text>)
    | HasPinned(proposal: Proposal, tx: Pinned)
    | HasIntent(proposal: Proposal, tx: Pinned, intent: Intent)
    | Flushing
    | Sending(id: Text, raw: SignedTx)
    | Waiting(id: Text, raw: SignedTx)

  type Actions = map<Text, StoredAction>

  datatype World = World(
    mem: Actions, disk: Actions, pc: Pc,
    intents: map<Text, Intent>, mined: map<SignedTx, Receipt>,
    births: map<Text, Birth>, sends: seq<Send>, forwarded: set<Forwarded>)

  predicate Closed(i: Intent) {
    !Open(i.status)
  }

  predicate Holding(w: World, a: StoredAction) {
    a.broadcast.None? && a.intentId in w.intents && Open(w.intents[a.intentId].status)
  }

  // ---- The environment ---------------------------------------------------------------------------

  /** Requests and keys never change, closed intents stay closed, a signed intent stays as signed. */
  ghost predicate Evolves(i: Intent, i': Intent) {
    && i'.id == i.id && i'.request == i.request && MemberKeys(i') == MemberKeys(i)
    && (Closed(i) ==> i'.status == i.status)
    && (i.status.Executed? ==> i'.status.Executed? && i'.signed == i.signed)
  }

  ghost predicate IntentsEvolve(before: map<Text, Intent>, after: map<Text, Intent>) {
    && (forall id | id in before :: id in after && Evolves(before[id], after[id]))
    && IntentsNamed(after)
  }

  ghost predicate IntentsNamed(intents: map<Text, Intent>) {
    forall id | id in intents :: intents[id].id == id && Signable(intents[id].request.body)
  }

  /** The chain takes each nonce of each sender once. */
  ghost predicate NoncesUnique(mined: map<SignedTx, Receipt>) {
    forall r, s | r in mined && s in mined && SameAddress(r.signer, s.signer) && OrZero(r.nonce) == OrZero(s.nonce) :: r == s
  }

  ghost predicate ChainGrows(before: map<SignedTx, Receipt>, after: map<SignedTx, Receipt>) {
    && (forall r | r in before :: r in after && after[r] == before[r])
    && NoncesUnique(after)
  }

  /** A pending nonce exceeds that of every mined transaction of the wallet. */
  ghost predicate PendingNonce(c: Config, w: World, n: nat) {
    forall r | r in w.mined && SameAddress(r.signer, c.walletAddress) :: OrZero(r.nonce) < n
  }

  // ---- The steps -----------------------------------------------------------------------------------

  /** One step per effect, so that a crash can fall between any two. */
  datatype Label =
    | StartPropose(proposal: Proposal)
    | CheckOne(id: Text)
    | Pin(tx: Pinned)
    | PrivyCreates(intent: Intent)
    | SaveAction(proposedAt: int)
    | Rename
    | FlushFails
    | StartExecute(id: Text)
    | SendRaw
    | Receive
    | Approve(f: Forwarded)
    | Abort
    | Crash
    | Environment

  function NewAction(p: Proposal, tx: Pinned, id: Text, proposedAt: int): (a: StoredAction) {
    StoredAction(id, p.kind, p.description, p.reason, SerializePinned(tx), proposedAt, None)
  }

  /** `waiverCreatedIn`: the record, if the receipt carries exactly one event from the vault. */
  function WaiverIn(receipt: Receipt, vault: Address): (r: Option<WaiverRecord>) {
    var events := FromVault(receipt.waivers, vault);
    if |events| == 1 then Some(WaiverRecord(events[0].namesFacility, events[0].commitsToReason)) else None
  }

  function FromVault(events: seq<WaiverEvent>, vault: Address): (r: seq<WaiverEvent>) {
    if events == [] then []
    else (if SameAddress(events[0].vault, vault) then [events[0]] else []) + FromVault(events[1..], vault)
  }

  /** This event is from the vault, and no other is. */
  ghost predicate OnlyFrom(events: seq<WaiverEvent>, vault: Address, i: nat) {
    && i < |events| && SameAddress(events[i].vault, vault)
    && forall j :: 0 <= j < |events| && j != i ==> !SameAddress(events[j].vault, vault)
  }

  lemma {:induction false} NoneFrom(events: seq<WaiverEvent>, vault: Address)
    ensures FromVault(events, vault) == [] <==> forall j :: 0 <= j < |events| ==> !SameAddress(events[j].vault, vault)
  {
    hide SameAddress;
    if events != [] {
      NoneFrom(events[1..], vault);
      assert forall j :: 0 < j < |events| ==> events[j] == events[1..][j - 1];
    }
  }

  lemma {:induction false} OneFrom(events: seq<WaiverEvent>, vault: Address)
    ensures forall i: nat | OnlyFrom(events, vault, i) :: FromVault(events, vault) == [events[i]]
    ensures |FromVault(events, vault)| == 1 ==> exists i: nat :: OnlyFrom(events, vault, i)
  {
    hide SameAddress;
    if events != [] {
      var rest := events[1..];
      OneFrom(rest, vault);
      NoneFrom(rest, vault);
      assert forall j :: 0 < j < |events| ==> events[j] == rest[j - 1];
      if SameAddress(events[0].vault, vault) {
        if |FromVault(events, vault)| == 1 { assert OnlyFrom(events, vault, 0); }
      } else {
        forall i: nat | OnlyFrom(events, vault, i)
          ensures FromVault(events, vault) == [events[i]]
        {
          assert OnlyFrom(rest, vault, i - 1);
        }
        if |FromVault(events, vault)| == 1 {
          var i: nat :| OnlyFrom(rest, vault, i);
          assert OnlyFrom(events, vault, i + 1);
        }
      }
    }
  }

  /** Exactly one event is from the vault, and it says so of facility and reason. */
  ghost predicate OneEventSays(receipt: Receipt, vault: Address, facility: bool, reason: bool) {
    exists i: nat :: OnlyFrom(receipt.waivers, vault, i)
      && receipt.waivers[i].namesFacility == facility && receipt.waivers[i].commitsToReason == reason
  }

  lemma WaiverInIs(receipt: Receipt, vault: Address)
    ensures forall f, r :: WaiverIn(receipt, vault) == Some(WaiverRecord(f, r)) <==> OneEventSays(receipt, vault, f, r)
  {
    hide SameAddress, FromVault;
    OneFrom(receipt.waivers, vault);
  }

  /** What is recorded of a mined transaction. */
  ghost predicate RecordsReceipt(b: BroadcastRecord, a: StoredAction, raw: SignedTx, receipt: Receipt) {
    && b.hash == Keccak(raw) && b.signer == raw.signer
    && b.blockNumber == receipt.blockNumber && b.success == receipt.success
    && (!a.kind.WaiverCreate? ==> b.waiverCreated == None)
    && (a.kind.WaiverCreate? ==> forall f, r ::
          b.waiverCreated == Some(WaiverRecord(f, r)) <==> OneEventSays(receipt, a.pinned.to, f, r))
  }

  lemma RecordIs(raw: SignedTx, receipt: Receipt, a: StoredAction)
    ensures RecordsReceipt(RecordOf(raw, receipt, a), a, raw, receipt)
  {
    hide WaiverIn, OneEventSays;
    WaiverInIs(receipt, a.pinned.to);
  }

  function RecordOf(raw: SignedTx, receipt: Receipt, a: StoredAction): (r: BroadcastRecord) {
    BroadcastRecord(Keccak(raw), raw.signer, receipt.blockNumber, receipt.success,
                    if a.kind.WaiverCreate? then WaiverIn(receipt, a.pinned.to) else None)
  }

  /** The one stop between a successful receipt and its record: a waiver with no facility configured. */
  predicate CannotRecord(c: Config, a: StoredAction) {
    a.kind.WaiverCreate? && !c.hasFacility
  }

  predicate MayExecute(c: Config, w: World, id: Text) {
    && id in w.mem && id in w.intents
    && w.mem[id].broadcast.None?
    && w.intents[id].status.Executed? && w.intents[id].signed.Some?
    && DeserializePinned(w.mem[id].pinned).Some?
    && var tx := DeserializePinned(w.mem[id].pinned).value;
    && RecordsPinned(w.intents[id].request, c.rpcPath, tx)
    && SignedAsPinned(w.intents[id].signed.value, tx)
  }

  ghost predicate MayApprove(c: Config, w: World, f: Forwarded) {
    && f.id in w.mem && f.id in w.intents
    && w.intents[f.id].status.Pending?
    && DeserializePinned(w.mem[f.id].pinned).Some?
    && RecordsPinned(w.intents[f.id].request, c.rpcPath, DeserializePinned(w.mem[f.id].pinned).value)
    && f.key in MemberKeys(w.intents[f.id])
    && -SIGNATURE_WINDOW_MS <= f.now - f.timestamp <= SIGNATURE_WINDOW_MS
    && var bytes := PayloadBytes(f.id, w.intents[f.id].request, c.appId, f.timestamp);
    bytes.Some? && c.verify(f.key, bytes.value, f.signature)
  }

  ghost predicate Step(c: Config, l: Label, w: World, w': World) {
    match l
    case StartPropose(p) =>
      w.pc.Idle? && w' == w.(pc := Checking(p, set id | id in w.mem && w.mem[id].broadcast.None?))
    case CheckOne(id) =>
      && w.pc.Checking? && id in w.pc.todo && id in w.intents && Closed(w.intents[id])
      && w' == w.(pc := Checking(w.pc.proposal, w.pc.todo - {id}))
    case Pin(tx) =>
      && w.pc.Checking? && w.pc.todo == {}
      && tx.chainId == ARC_TESTNET && tx.from == c.walletAddress
      && tx.to == w.pc.proposal.to && tx.data == w.pc.proposal.data
      && PendingNonce(c, w, tx.nonce)
      && w' == w.(pc := HasPinned(w.pc.proposal, tx))
    case PrivyCreates(i) =>
      && w.pc.HasPinned? && i.id !in w.intents && Signable(i.request.body)
      && w' == w.(pc := HasIntent(w.pc.proposal, w.pc.tx, i), intents := w.intents[i.id := i])
    case SaveAction(now) =>
      && w.pc.HasIntent? && RecordsPinned(w.pc.intent.request, c.rpcPath, w.pc.tx)
      && var id := w.pc.intent.id;
      w' == w.(
        pc := Flushing,
        mem := w.mem[id := NewAction(w.pc.proposal, w.pc.tx, id, now)],
        births := w.births[id := Birth(|w.births|, w.pc.tx)])
    case Rename => w.pc.Flushing? && w' == w.(pc := Idle, disk := w.mem)
    case FlushFails => w.pc.Flushing? && w' == w.(pc := Idle)
    case StartExecute(id) =>
      w.pc.Idle? && MayExecute(c, w, id) && w' == w.(pc := Sending(id, w.intents[id].signed.value))
    case SendRaw =>
      && w.pc.Sending?
      && (w'.pc == Waiting(w.pc.id, w.pc.raw) || w'.pc == Idle)
      && w' == w.(pc := w'.pc, sends := w.sends + [Send(w.pc.id, w.pc.raw)])
    case Receive =>
      && w.pc.Waiting? && w.pc.raw in w.mined && w.mined[w.pc.raw].success
      && w.pc.id in w.mem && !CannotRecord(c, w.mem[w.pc.id])
      && var a := w.mem[w.pc.id];
      w' == w.(
        pc := Flushing,
        mem := w.mem[w.pc.id := a.(broadcast := Some(RecordOf(w.pc.raw, w.mined[w.pc.raw], a)))])
    case Approve(f) =>
      w.pc.Idle? && MayApprove(c, w, f) && w' == w.(forwarded := w.forwarded + {f})
    case Abort => !w.pc.Flushing? && w' == w.(pc := Idle)
    case Crash => w' == w.(pc := Idle, mem := w.disk)
    case Environment =>
      && w' == w.(intents := w'.intents, mined := w'.mined)
      && IntentsEvolve(w.intents, w'.intents) && ChainGrows(w.mined, w'.mined)
  }

  ghost predicate Next(c: Config, w: World, w': World) {
    exists l :: Step(c, l, w, w')
  }

  /** A finite run: each world follows from the one before. */
  ghost predicate Path(c: Config, run: seq<World>) {
    run != [] && forall i :: 0 <= i < |run| - 1 ==> Next(c, run[i], run[i + 1])
  }

  /** A new store. What Privy and Arc hold already is arbitrary. */
  ghost predicate Initial(w: World) {
    && w.mem == map[] && w.disk == map[] && w.pc.Idle? && w.births == map[] && w.sends == [] && w.forwarded == {}
    && IntentsNamed(w.intents) && NoncesUnique(w.mined)
  }

  ghost predicate Reachable(c: Config, w: World) {
    exists run :: Path(c, run) && Initial(run[0]) && run[|run| - 1] == w
  }

  ghost predicate Leads(c: Config, w: World, w': World) {
    exists run :: Path(c, run) && run[0] == w && run[|run| - 1] == w'
  }
}
