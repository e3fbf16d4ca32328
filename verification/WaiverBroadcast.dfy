// `signa waiver broadcast`: the hash is journalled before the service is asked to execute.
module WaiverBroadcast {
  import opened Journals
  import opened Outcomes
  import opened Utf16
  import opened Transactions
  import opened Intents
  import opened Store
  import opened JsonStore
  import opened Protocol
  import opened ProtocolSafety
  import opened WaiverTheorems
  import opened QuorumService

  datatype Entry = Broadcast(hash: Hash) | Succeeded(hash: Hash) | Failed(hash: Hash)

  datatype CommandError =
    | NoneInFlight | MoreThanOne | Unavailable | NothingSigned
    | JournalUnwritable | Service(error: ServiceError) | Killed

  /**
   * `resolveProposal`: the proposal named, or the one in flight. With none named it finds one
   * exactly when an action holds the wallet's nonce, and it never finds more than one.
   */
  method ResolveProposal(service: QuorumAdminService, named: Option<Text>) returns (r: Result<Text, CommandError>)
    requires service.Valid()
    ensures named.Some? ==> (r.Ok? <==> Find(service.store.actions, named.value).Some? && named.value in service.privy.intents)
    ensures r.Ok? && named.Some? ==> r.value == named.value
    ensures named.None? && r.Ok? ==>
      exists a :: a in service.store.actions && a.intentId == r.value && Holding(service.At(Idle), a)
    ensures named.None? && r.Err? ==>
      r == Err(NoneInFlight) && forall a | a in service.store.actions :: !Holding(service.At(Idle), a)
    ensures r != Err(MoreThanOne)
  {
    hide Inv, Contents, Holding;
    if named.Some? {
      if Find(service.store.actions, named.value).Some? && named.value in service.privy.intents {
        return Ok(named.value);
      }
      return Err(Unavailable);
    }
    var actions := All(service.store.actions);
    AllMembers(service.store.actions);
    AllUnique(service.store.actions);
    var open: seq<StoredAction> := [];
    for i := 0 to |actions|
      invariant forall a | a in open :: a in actions[..i] && Holding(service.At(Idle), a)
      invariant forall j :: 0 <= j < i && Holding(service.At(Idle), actions[j]) ==> actions[j] in open
      invariant |open| <= 1
    {
      var action := actions[i];
      StoredKnown(service, action);
      if action.intentId !in service.privy.intents {
        return Err(Unavailable);
      }
      HoldingMeans(service.At(Idle), action);
      if action.broadcast.None? && Open(service.privy.intents[action.intentId].status) {
        FirstInFlight(service, actions, i, open);
        open := open + [action];
      }
    }
    if open == [] { return Err(NoneInFlight); }
    if |open| > 1 { return Err(MoreThanOne); }
    assert open[0] in open;
    return Ok(open[0].intentId);
  }

  /** Whatever is found in flight is the only one: nothing before it was. */
  lemma FirstInFlight(service: QuorumAdminService, actions: Entries, i: nat, open: seq<StoredAction>)
    requires service.Valid() && Unique(actions) && i < |actions|
    requires forall a :: a in actions <==> a in service.store.actions
    requires forall a | a in open :: a in actions[..i] && Holding(service.At(Idle), a)
    requires Holding(service.At(Idle), actions[i])
    ensures open == []
  {
    hide Inv, Contents, Holding;
    if open != [] {
      assert open[0] in open && open[0] in actions[..i];
      var j :| 0 <= j < i && actions[..i][j] == open[0];
      assert actions[i] in actions && actions[j] in actions;
      OneInFlight(service, open[0], actions[i]);
    }
  }

  /** Privy knows every stored action. */
  lemma StoredKnown(service: QuorumAdminService, a: StoredAction)
    requires service.Valid() && a in service.store.actions
    ensures a.intentId in service.privy.intents
  {
    hide InOrder, DiskBehind, SendsOk, ForwardedOk, PcOk, Truthful, RecordsPinned, SerializePinned, Contents;
    var w := service.At(Idle);
    Held(service.store.actions, a);
    assert EntryOk(GroundOf(w), a.intentId, w.mem[a.intentId]);
    assert BirthOk(service.config, GroundOf(w), a.intentId);
  }

  lemma HoldingMeans(w: World, a: StoredAction)
    ensures Holding(w, a) <==> a.broadcast.None? && a.intentId in w.intents && Open(w.intents[a.intentId].status)
  {
  }

  lemma OneInFlight(service: QuorumAdminService, a: StoredAction, b: StoredAction)
    requires service.Valid() && a in service.store.actions && b in service.store.actions
    requires Holding(service.At(Idle), a) && Holding(service.At(Idle), b)
    ensures a == b
  {
    hide Inv, Contents, Holding;
    var w := service.At(Idle);
    Held(service.store.actions, a);
    Held(service.store.actions, b);
    OneHolds(service.config, w, w.mem, a.intentId, b.intentId);
  }

  /** The hash of what Privy signed is the hash of any record of that action. */
  lemma RecordIsOfSigned(service: QuorumAdminService, a: StoredAction)
    requires service.Valid() && a in service.store.actions && a.broadcast.Some?
    ensures service.SignedOf(a.intentId).Some?
    ensures a.broadcast.value.hash == Keccak(service.SignedOf(a.intentId).value)
  {
    hide InOrder, GroundOk, DiskBehind, SendsOk, ForwardedOk, SignedAsPinned, SerializePinned, Contents;
    var w := service.At(Idle);
    Held(service.store.actions, a);
    assert EntryOk(GroundOf(w), a.intentId, w.mem[a.intentId]);
  }

  ghost predicate RecordHeld(es: Entries, hash: Hash) {
    exists a :: a in es && a.broadcast.Some? && a.broadcast.value.hash == hash
  }

  /** After a successful execute the record is held, and is of the transaction that was signed. */
  lemma AfterExecute(es: Entries, id: Text, raw: SignedTx, mined: map<SignedTx, Receipt>, after: Entries,
          r: BroadcastRecord)
    requires Unique(es) && Find(es, id).Some?
    requires var a := Find(es, id).value;
             if a.broadcast.Some? then r == a.broadcast.value && r.hash == Keccak(raw) && after == es
             else raw in mined && r == RecordOf(raw, mined[raw], a) && after == Recorded(es, id, r)
    ensures r.hash == Keccak(raw)
    ensures RecordHeld(after, r.hash)
  {
    hide RecordOf;
    var a := Find(es, id).value;
    if a.broadcast.None? {
      RecordHash(raw, mined[raw], a);
      PutUnique(es, a.(broadcast := Some(r)));
      assert a.(broadcast := Some(r)) in after;
    } else {
      assert a in after;
    }
  }

  /** What the command does that outlives it, in the order it happens. */
  datatype Event = Journalled(entry: Entry) | Sent(hash: Hash)

  function LinesIn(trace: seq<Event>): (lines: seq<Entry>) {
    if trace == [] then []
    else (if trace[0].Journalled? then [trace[0].entry] else []) + LinesIn(trace[1..])
  }

  function SentIn(trace: seq<Event>): (hashes: seq<Hash>) {
    if trace == [] then []
    else (if trace[0].Sent? then [trace[0].hash] else []) + SentIn(trace[1..])
  }

  ghost function HashesOf(sends: seq<Send>): (hashes: seq<Hash>) {
    seq(|sends|, i requires 0 <= i < |sends| => Keccak(sends[i].raw))
  }

  /** Write-ahead: before anything is sent its hash is in the journal. This holds of every prefix too. */
  ghost predicate WriteAhead(trace: seq<Event>) {
    forall i | 0 <= i < |trace| && trace[i].Sent? ::
      exists j :: 0 <= j < i && trace[j] == Journalled(Broadcast(trace[i].hash))
  }

  lemma WriteAheadPrefix(trace: seq<Event>, n: nat)
    requires WriteAhead(trace) && n <= |trace|
    ensures WriteAhead(trace[..n])
  {
    forall i | 0 <= i < n && trace[i].Sent?
      ensures exists j :: 0 <= j < i && trace[..n][j] == Journalled(Broadcast(trace[i].hash))
    {
      var j :| 0 <= j < i && trace[j] == Journalled(Broadcast(trace[i].hash));
      assert trace[..n][j] == trace[j];
    }
  }

  /** One life of the command, once it has journalled the hash: the send, if any, and the outcome, if any. */
  function Life(hash: Hash, sent: bool, outcome: Option<Entry>): (trace: seq<Event>) {
    [Journalled(Broadcast(hash))] + (if sent then [Sent(hash)] else [])
    + (if outcome.Some? then [Journalled(outcome.value)] else [])
  }

  lemma LivesWriteAhead(hash: Hash, sent: bool, outcome: Option<Entry>)
    ensures var trace := Life(hash, sent, outcome);
            && WriteAhead(trace) && trace[0] == Journalled(Broadcast(hash))
            && LinesIn(trace) == [Broadcast(hash)] + (if outcome.Some? then [outcome.value] else [])
            && SentIn(trace) == if sent then [hash] else []
    ensures Life(hash, false, None) == [Journalled(Broadcast(hash))]
    ensures Life(hash, true, None) == Life(hash, false, None) + [Sent(hash)]
    ensures Life(hash, sent, outcome) == Life(hash, sent, None) + (if outcome.Some? then [Journalled(outcome.value)] else [])
  {
    var line := [Journalled(Broadcast(hash))];
    var more := if sent then line + [Sent(hash)] else line;
    assert [] + line == line;
    Extends([], line[0]);
    Extends(line, Sent(hash));
    if outcome.Some? { Extends(more, Journalled(outcome.value)); }
    var trace := Life(hash, sent, outcome);
    assert trace == if outcome.Some? then more + [Journalled(outcome.value)] else more;
  }

  lemma {:induction false} Extends(trace: seq<Event>, last: Event)
    ensures LinesIn(trace + [last]) == LinesIn(trace) + (if last.Journalled? then [last.entry] else [])
    ensures SentIn(trace + [last]) == SentIn(trace) + (if last.Sent? then [last.hash] else [])
  {
    if trace == [] {
      assert [] + [last] == [last];
    } else {
      assert (trace + [last])[1..] == trace[1..] + [last];
      Extends(trace[1..], last);
    }
  }

  lemma SendHashes(before: seq<Send>, id: Text, raw: SignedTx)
    ensures HashesOf(before + [Send(id, raw)]) == HashesOf(before) + [Keccak(raw)]
    ensures HashesOf(before) + [] == HashesOf(before)
  {
  }

  /** Nothing more was sent than one transaction with the hash that is journalled. */
  ghost predicate SentAtMost(before: seq<Send>, sends: seq<Send>, line: Option<Hash>) {
    || sends == before
    || (line.Some? && |sends| == |before| + 1 && sends[..|before|] == before && Keccak(sends[|before|].raw) == line.value)
  }

  lemma SentHashes(before: seq<Send>, inside: seq<World>, id: Text, raw: SignedTx)
    requires forall w | w in inside :: w.sends == before || w.sends == before + [Send(id, raw)]
    ensures forall w | w in inside :: SentAtMost(before, w.sends, Some(Keccak(raw)))
  {
  }

  /** Along a run that sends at most one transaction, every world has sent nothing more or exactly that one. */
  lemma SendsInside(c: Config, run: seq<World>, sent: Send)
    requires Path(c, run) && Inv(c, run[0])
    requires run[|run| - 1].sends == run[0].sends || run[|run| - 1].sends == run[0].sends + [sent]
    ensures forall w | w in run :: w.sends == run[0].sends || w.sends == run[0].sends + [sent]
  {
    hide Inv, Next;
    forall i | 0 <= i < |run|
      ensures run[i].sends == run[0].sends || run[i].sends == run[0].sends + [sent]
    {
      var before, after := run[..i + 1], run[i..];
      RunKeeps(c, before);
      RunFollows(c, before);
      RunFollows(c, after);
    }
  }

  /** How far the command gets: killed after the journal, killed inside execute, or never. */
  datatype Kill = AfterJournal | InsideExecute | Never

  /** The service and the journal of one command; only `Append` and `ExecuteSigned` extend the log. */
  class BroadcastContext {
    const service: QuorumAdminService
    const journal: Journal<Entry>
    ghost var events: seq<Event>

    constructor (service: QuorumAdminService, journal: Journal<Entry>)
      ensures this.service == service && this.journal == journal && events == []
    {
      this.service, this.journal := service, journal;
      events := [];
    }

    /** `journal.append`. */
    method Append(entry: Entry, writable: bool) returns (written: bool)
      modifies this, journal
      ensures written == writable
      ensures journal.entries == if written then old(journal.entries) + [entry] else old(journal.entries)
      ensures events == if written then old(events) + [Journalled(entry)] else old(events)
    {
      written := journal.Append(entry, writable);
      if written {
        events := events + [Journalled(entry)];
      }
    }

    /**
     * `execute`, seen from the command that has already journalled the hash of `raw`: not only when it
     * returns, but after every effect inside it, it has sent nothing or that transaction.
     */
    method ExecuteSigned(id: Text, raw: SignedTx, sending: SendOutcome, block: Option<Receipt>, fate: Fate)
      returns (r: Result<Hash, ServiceError>, ghost run: seq<World>)
      requires service.Valid() && service.SignedOf(id) == Some(raw)
      requires block.Some? && raw !in service.arc.mined ==> NonceFree(service.arc.mined, raw)
      modifies this, service, service.arc, service.store, service.store.disk
      ensures service.Valid()
      ensures || (service.sends == old(service.sends) && events == old(events))
              || (service.sends == old(service.sends) + [Send(id, raw)] && events == old(events) + [Sent(Keccak(raw))])
      ensures run != [] && run[0] == old(service.At(Idle)) && run[|run| - 1] == service.At(Idle)
      ensures Path(service.config, run)
      ensures forall w | w in run :: w.sends == old(service.sends) || w.sends == old(service.sends) + [Send(id, raw)]
      ensures r.Ok? ==> r.value == Keccak(raw) && RecordHeld(service.store.actions, r.value)
    {
      hide Inv, Contents, MayExecute, RecordOf, WaiverChecks, Next;
      var action := Find(service.store.actions, id);
      if action.Some? && action.value.broadcast.Some? {
        RecordIsOfSigned(service, action.value);
        ContentsFind(service.store.actions, id);
        NotExecutable(service.config, service.At(Idle), id);
      }
      ghost var es := service.store.actions;
      var executed;
      executed, run := service.Execute(id, sending, block, fate);
      SendsInside(service.config, run, Send(id, raw));
      if service.sends != old(service.sends) {
        events := events + [Sent(Keccak(raw))];
      }
      if executed.Err? { return Err(executed.error), run; }
      AfterExecute(es, id, raw, service.arc.mined, service.store.actions, executed.value);
      return Ok(executed.value.hash), run;
    }

    /** What execute came to goes into the journal, and decides the command. */
    method Conclude(hash: Hash, executed: Result<Hash, ServiceError>, writable: bool)
      returns (r: Result<Hash, CommandError>, ghost outcome: Option<Entry>)
      requires executed.Ok? ==> executed.value == hash
      modifies this, journal
      ensures journal.entries == old(journal.entries) + (if outcome.Some? then [outcome.value] else [])
      ensures events == old(events) + (if outcome.Some? then [Journalled(outcome.value)] else [])
      ensures r.Ok? <==> executed.Ok? && writable
      ensures r.Ok? ==> r.value == hash && outcome == Some(Succeeded(hash))
      ensures r.Err? ==> outcome == None || outcome == Some(Entry.Failed(hash))
    {
      var entry := if executed.Ok? then Succeeded(executed.value) else Entry.Failed(hash);
      var written := Append(entry, writable);
      if !written { return Err(JournalUnwritable), None; }
      return if executed.Ok? then Ok(hash) else Err(Service(executed.error)), Some(entry);
    }

    /**
     * The broadcast handler. `line` is the hash it journalled, if it got that far, and `inside` every world
     * of the execution. Wherever it is killed, what it sends to Arc has that hash, and the line came before;
     * and so has what execute records.
     */
    method BroadcastCommand(named: Option<Text>, sending: SendOutcome, block: Option<Receipt>, fate: Fate,
                            writable: nat -> bool, kill: Kill)
      returns (r: Result<Hash, CommandError>, ghost line: Option<Hash>, ghost trace: seq<Event>,
              ghost inside: seq<World>)
      requires service.Valid()
      requires block.Some? ==> forall id :: service.SignedOf(id).Some? && service.SignedOf(id).value !in service.arc.mined ==>
        NonceFree(service.arc.mined, service.SignedOf(id).value)
      modifies this, service, service.arc, service.store, service.store.disk, journal
      ensures service.Valid()
      ensures events == old(events) + trace && WriteAhead(trace)
      ensures journal.entries == old(journal.entries) + LinesIn(trace)
      ensures HashesOf(service.sends) == HashesOf(old(service.sends)) + SentIn(trace)
      ensures line.None? ==> r.Err? && trace == [] && inside == []
      ensures forall w | w in inside :: SentAtMost(old(service.sends), w.sends, line)
      ensures line.Some? ==> trace != [] && trace[0] == Journalled(Broadcast(line.value))
      ensures line.Some? ==> SentIn(trace) == [] || SentIn(trace) == [line.value]
      ensures r.Ok? ==> line == Some(r.value) && RecordHeld(service.store.actions, r.value)
      ensures r.Ok? ==> LinesIn(trace) == [Broadcast(r.value), Succeeded(r.value)]
      ensures r.Err? && line.Some? ==>
        || LinesIn(trace) == [Broadcast(line.value)]
        || LinesIn(trace) == [Broadcast(line.value), Entry.Failed(line.value)]
    {
      hide *;
      NothingDone(service.sends);
      line, trace, inside := None, [], [];
      var id := ResolveProposal(service, named);
      if id.Err? { return Err(id.error), None, [], []; }
      var raw := service.SignedOf(id.value);
      if raw.None? { return Err(NothingSigned), None, [], []; }
      var hash := Keccak(raw.value);
      SendHashes(service.sends, id.value, raw.value);
      var written := Append(Broadcast(hash), writable(0));
      if !written { return Err(JournalUnwritable), None, [], []; }
      line, trace := Some(hash), Life(hash, false, None);
      LivesWriteAhead(hash, false, None);
      if kill.AfterJournal? { return Err(Killed), line, trace, []; }
      var executed;
      executed, inside := ExecuteSigned(id.value, raw.value, sending, block, fate);
      SentHashes(old(service.sends), inside, id.value, raw.value);
      ghost var sent := service.sends != old(service.sends);
      trace := Life(hash, sent, None);
      LivesWriteAhead(hash, sent, None);
      if kill.InsideExecute? { return Err(Killed), line, trace, inside; }
      ghost var outcome;
      r, outcome := Conclude(hash, executed, writable(1));
      trace := Life(hash, sent, outcome);
      LivesWriteAhead(hash, sent, outcome);
    }
  }

  lemma NothingDone(sends: seq<Send>)
    ensures LinesIn([]) == [] && SentIn([]) == [] && WriteAhead([]) && HashesOf(sends) + [] == HashesOf(sends)
  {
  }
}
