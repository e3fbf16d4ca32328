// Crashes and recovery: when an action ends recorded, and the two ways it can be kept from it.
module WaiverRecovery {
  import opened Outcomes
  import opened Utf16
  import opened Json
  import opened Payload
  import opened Transactions
  import opened Intents
  import opened Store
  import opened Protocol
  import opened ProtocolSafety
  import opened WaiverTheorems

  // ---- Paths -----------------------------------------------------------------------------------------

  /** A run that goes on from a reachable state stays among the reachable ones. */
  lemma ReachableExtends(c: Config, run: seq<World>)
    requires Path(c, run) && Reachable(c, run[0])
    ensures Reachable(c, run[|run| - 1])
  {
    hide Next, Initial;
    var first :| Path(c, first) && Initial(first[0]) && first[|first| - 1] == run[0];
    var whole := Joined(c, first, run);
  }

  lemma Extended(c: Config, run: seq<World>, w: World) returns (longer: seq<World>)
    requires Path(c, run) && Next(c, run[|run| - 1], w)
    ensures Path(c, longer) && longer[0] == run[0] && longer[|longer| - 1] == w
  {
    hide Next;
    longer := run + [w];
  }

  lemma Joined(c: Config, a: seq<World>, b: seq<World>) returns (run: seq<World>)
    requires Path(c, a) && Path(c, b) && a[|a| - 1] == b[0]
    ensures Path(c, run) && run[0] == a[0] && run[|run| - 1] == b[|b| - 1]
  {
    hide Next;
    run := a + b[1..];
    forall i | 0 <= i < |run| - 1
      ensures Next(c, run[i], run[i + 1])
    {
      if i < |a| - 1 {
        assert Next(c, a[i], a[i + 1]);
      } else {
        assert Next(c, b[i - (|a| - 1)], b[i - (|a| - 1) + 1]);
      }
    }
  }

  lemma StepIsNext(c: Config)
    ensures forall l, w, w' :: Step(c, l, w, w') ==> Next(c, w, w')
  {
    hide Step;
  }

  lemma InvGround(c: Config, w: World)
    requires Inv(c, w)
    ensures IntentsNamed(w.intents) && NoncesUnique(w.mined)
  {
    hide StoreOk, DiskBehind, SendsOk, PcOk, ForwardedOk, BirthOk, IntentsNamed, NoncesUnique;
  }

  // ---- Executing again -------------------------------------------------------------------------------

  /** Arc has the transaction, or will take it: no other transaction of the wallet used its nonce. */
  ghost predicate Mineable(w: World, raw: SignedTx) {
    if raw in w.mined then w.mined[raw].success
    else forall r | r in w.mined :: !(SameAddress(r.signer, raw.signer) && OrZero(r.nonce) == OrZero(raw.nonce))
  }

  /** The signed action is in the file, without a record. */
  ghost predicate Filed(c: Config, w: World, id: Text) {
    id in w.disk && w.disk[id].broadcast.None? && MayExecute(c, w.(mem := w.disk), id)
  }

  /** The run of a crash, a restart and one execute, if Arc takes the transaction. */
  lemma FinishIfMineable(c: Config, w: World, id: Text) returns (run: seq<World>, raw: SignedTx)
    requires Inv(c, w) && Filed(c, w, id) && !CannotRecord(c, w.disk[id])
    requires Mineable(w, w.intents[id].signed.value)
    ensures w.intents[id].signed == Some(raw)
    ensures Path(c, run) && run[0] == w
    ensures var last := run[|run| - 1];
            && last.pc.Idle? && id in last.disk && last.disk[id].broadcast.Some?
            && last.disk[id].broadcast.value.hash == Keccak(raw)
            && raw in last.mined && last.mined[raw].success
            && last.sends == w.sends + [Send(id, raw)]
  {
    hide MayExecute, RecordOf, Next, Inv, NoncesUnique, IntentsNamed;
    InvGround(c, w);
    ExecutableIsSigned(c, w.(mem := w.disk), id);
    raw := w.intents[id].signed.value;
    var restarted := w.(pc := Idle, mem := w.disk);
    var sending := restarted.(pc := Sending(id, raw));
    var waiting := sending.(pc := Waiting(id, raw), sends := w.sends + [Send(id, raw)]);
    Restarting(c, w);
    MayExecuteAnywhere(c, w.(mem := w.disk), restarted, id);
    StartAndSend(c, restarted, id, raw);
    var mined := MineIfNeeded(c, waiting, raw);
    var recorded, done := RecordAgain(c, mined, id, raw);
    run := [w, restarted, sending, waiting, mined, recorded, done];
    PathOfSeven(c, run);
  }

  lemma ExecutableIsSigned(c: Config, w: World, id: Text)
    requires MayExecute(c, w, id)
    ensures id in w.intents && w.intents[id].status.Executed? && w.intents[id].signed.Some? && id in w.mem
  {
    hide RecordsPinned, SignedAsPinned, DeserializePinned;
  }

  /** Whether an action may be executed depends on the store and on Privy, and on nothing else. */
  lemma MayExecuteAnywhere(c: Config, w: World, w': World, id: Text)
    requires MayExecute(c, w, id) && w'.mem == w.mem && w'.intents == w.intents
    ensures forall facility :: MayExecute(c.(hasFacility := facility), w', id)
    ensures MayExecute(c, w', id)
  {
    hide RecordsPinned, SignedAsPinned, DeserializePinned;
  }

  lemma Restarting(c: Config, w: World)
    ensures Next(c, w, w.(pc := Idle, mem := w.disk))
  {
    assert Step(c, Crash, w, w.(pc := Idle, mem := w.disk));
  }

  lemma StartAndSend(c: Config, w: World, id: Text, raw: SignedTx)
    requires w.pc.Idle? && MayExecute(c, w, id) && w.intents[id].signed == Some(raw)
    ensures var sending := w.(pc := Sending(id, raw));
            var waiting := sending.(pc := Waiting(id, raw), sends := w.sends + [Send(id, raw)]);
            Next(c, w, sending) && Next(c, sending, waiting)
  {
    hide MayExecute;
    var sending := w.(pc := Sending(id, raw));
    assert Step(c, StartExecute(id), w, sending);
    assert Step(c, SendRaw, sending, sending.(pc := Waiting(id, raw), sends := w.sends + [Send(id, raw)]));
  }

  lemma RecordAgain(c: Config, w: World, id: Text, raw: SignedTx) returns (recorded: World, done: World)
    requires w.pc == Waiting(id, raw) && raw in w.mined && w.mined[raw].success
    requires id in w.mem && !CannotRecord(c, w.mem[id])
    ensures Next(c, w, recorded) && Next(c, recorded, done)
    ensures done.pc.Idle? && id in done.disk && done.disk[id].broadcast.Some?
    ensures done.disk[id].broadcast.value.hash == Keccak(raw)
    ensures done.mined == w.mined && done.sends == w.sends
  {
    var a := w.mem[id];
    var r := RecordOf(raw, w.mined[raw], a);
    RecordHash(raw, w.mined[raw], a);
    recorded := w.(pc := Flushing, mem := w.mem[id := a.(broadcast := Some(r))]);
    done := recorded.(pc := Idle, disk := recorded.mem);
    assert Step(c, Receive, w, recorded);
    assert Step(c, Rename, recorded, done);
  }

  lemma PathOfSeven(c: Config, run: seq<World>)
    requires |run| == 7
    requires Next(c, run[0], run[1]) && Next(c, run[1], run[2]) && Next(c, run[2], run[3])
    requires Next(c, run[3], run[4]) && Next(c, run[4], run[5]) && Next(c, run[5], run[6])
    ensures Path(c, run)
  {
    hide Next;
    forall i | 0 <= i < 6
      ensures Next(c, run[i], run[i + 1])
    {
      assert i == 0 || i == 1 || i == 2 || i == 3 || i == 4 || i == 5;
    }
  }

  /** A block with the transaction, unless Arc has it already. */
  lemma MineIfNeeded(c: Config, w: World, raw: SignedTx) returns (w': World)
    requires IntentsNamed(w.intents) && NoncesUnique(w.mined) && Mineable(w, raw)
    ensures Next(c, w, w') && raw in w'.mined && w'.mined[raw].success
    ensures w' == w.(mined := w'.mined) && w'.mined.Keys == w.mined.Keys + {raw}
  {
    hide MemberKeys, Signable, Lower;
    w' := if raw in w.mined then w else w.(mined := w.mined[raw := Receipt(true, 0, [])]);
    assert Step(c, Environment, w, w');
  }

  // ---- When a record can still come ------------------------------------------------------------------

  /** If any run records the action, Arc could take its transaction all along. */
  lemma RecordedWasMineable(c: Config, w: World, w': World, id: Text, raw: SignedTx)
    requires Inv(c, w) && Leads(c, w, w')
    requires id in w.intents && w.intents[id].status.Executed? && w.intents[id].signed == Some(raw)
    requires id in w'.disk && w'.disk[id].broadcast.Some?
    ensures Mineable(w, raw)
  {
    hide Leads, InOrder, DiskBehind, SendsOk, PcOk, ForwardedOk, SignedAsPinned, SerializePinned, BirthOk;
    LeadsFollows(c, w, w');
    assert EntryOk(GroundOf(w'), id, w'.disk[id]);
    assert Evolves(w.intents[id], w'.intents[id]);
    assert w'.disk[id].broadcast.value.hash.raw == raw;
    GrownChain(w, w', raw);
  }

  lemma GrownChain(w: World, w': World, raw: SignedTx)
    requires ChainGrows(w.mined, w'.mined) && raw in w'.mined && w'.mined[raw].success
    ensures Mineable(w, raw)
  {
    hide Lower;
  }

  /** A stored waiver without a record, in memory and in the file. */
  ghost predicate Unrecorded(w: World, id: Text) {
    && id in w.births
    && (id in w.mem ==> w.mem[id].kind.WaiverCreate? && w.mem[id].broadcast.None?)
    && (id in w.disk ==> w.disk[id].kind.WaiverCreate? && w.disk[id].broadcast.None?)
  }

  lemma StepUnrecorded(c: Config, l: Label, w: World, w': World, id: Text)
    requires Inv(c, w) && Step(c, l, w, w') && !c.hasFacility && Unrecorded(w, id)
    ensures Unrecorded(w', id)
  {
    hide GroundOk, StoreOk, DiskBehind, SendsOk, ForwardedOk, MayExecute, MayApprove, RecordOf, SignedFor;
    hide PendingNonce, IntentsEvolve, ChainGrows, AllSettledBelow, RecordsPinned, Signable, SerializePinned;
  }

  /** Without a facility no run ever records a waiver. */
  lemma {:induction false} NeverRecorded(c: Config, run: seq<World>, id: Text)
    requires Path(c, run) && Inv(c, run[0]) && !c.hasFacility && Unrecorded(run[0], id)
    ensures Unrecorded(run[|run| - 1], id)
    decreases |run|
  {
    hide Inv, Step, Unrecorded;
    if |run| > 1 {
      assert Next(c, run[0], run[1]);
      var l :| Step(c, l, run[0], run[1]);
      StepKeeps(c, l, run[0], run[1]);
      StepUnrecorded(c, l, run[0], run[1], id);
      PathTail(c, run);
      NeverRecorded(c, run[1..], id);
    }
  }

  /** The invariant does not ask whether a facility is configured. */
  lemma InvAnyFacility(c: Config, w: World, facility: bool)
    requires Inv(c, w)
    ensures Inv(c.(hasFacility := facility), w)
  {
    hide StoreOk, DiskBehind, SendsOk, RecordsPinned, PayloadBytes, MemberKeys, IntentsNamed, NoncesUnique;
    var c', g := c.(hasFacility := facility), GroundOf(w);
    forall id | id in g.births
      ensures BirthOk(c', g, id)
    {
      assert BirthOk(c, g, id);
    }
    forall f | f in w.forwarded
      ensures ForwardOk(c', g, f)
    {
      assert ForwardOk(c, g, f);
    }
  }

  /** The process knows everything the file does, so an unsent action of the file is one of memory. */
  lemma FiledIsBorn(c: Config, w: World, id: Text)
    requires Inv(c, w) && id in w.disk
    ensures id in w.mem && id in w.births && w.mem[id].kind == w.disk[id].kind
  {
    hide GroundOk, SendsOk, PcOk, ForwardedOk, InOrder, Truthful, SerializePinned;
    assert EntryOk(GroundOf(w), id, w.disk[id]);
  }

  /**
   * Over a store filled by any service of this wallet, a service with or without a facility can still
   * bring a signed action to its record exactly when Arc has or will take its transaction, and it is
   * no waiver or the service has a facility.
   */
  lemma RecordedExactlyWhen(c: Config, w: World, id: Text, facility: bool)
    requires Reachable(c, w) && Filed(c, w, id)
    requires id in w.mem ==> w.mem[id].broadcast.None?
    ensures id in w.intents && w.intents[id].signed.Some?
    ensures (exists w' :: Leads(c.(hasFacility := facility), w, w') && id in w'.disk && w'.disk[id].broadcast.Some?)
       <==> Mineable(w, w.intents[id].signed.value) && (w.disk[id].kind.WaiverCreate? ==> facility)
  {
    hide Reachable, Inv, Step, MayExecute, Next, Mineable, Leads;
    var c' := c.(hasFacility := facility);
    ReachableInv(c, w);
    InvAnyFacility(c, w, facility);
    MayExecuteAnywhere(c, w.(mem := w.disk), w.(mem := w.disk), id);
    assert Filed(c', w, id);
    FiledIsBorn(c', w, id);
    ExecutableIsSigned(c, w.(mem := w.disk), id);
    var raw := w.intents[id].signed.value;
    if Mineable(w, raw) && (w.disk[id].kind.WaiverCreate? ==> facility) {
      var run, _ := FinishIfMineable(c', w, id);
      LeadsBy(c', run);
      assert Leads(c', w, run[|run| - 1]);
    }
    forall w' | Leads(c', w, w') && id in w'.disk && w'.disk[id].broadcast.Some?
      ensures Mineable(w, raw) && (w.disk[id].kind.WaiverCreate? ==> facility)
    {
      RecordedWasMineable(c', w, w', id, raw);
      if w.disk[id].kind.WaiverCreate? && !facility {
        LeadsUnrecorded(c', w, w', id);
      }
    }
  }

  lemma LeadsBy(c: Config, run: seq<World>)
    requires Path(c, run)
    ensures Leads(c, run[0], run[|run| - 1])
  {
    hide Path;
  }

  lemma LeadsUnrecorded(c: Config, w: World, w': World, id: Text)
    requires Inv(c, w) && Leads(c, w, w') && !c.hasFacility && Unrecorded(w, id)
    ensures Unrecorded(w', id)
  {
    hide Inv, Next, Unrecorded;
    var run :| Path(c, run) && run[0] == w && run[|run| - 1] == w';
    NeverRecorded(c, run, id);
  }

  // ---- Runs that send only what is in the file -------------------------------------------------------

  /** What this step hands to Arc belongs to an action the file holds. */
  ghost predicate SendsFiled(w: World, w': World) {
    forall k | |w.sends| <= k < |w'.sends| :: w'.sends[k].id in w.disk
  }

  ghost predicate CarefulPath(c: Config, run: seq<World>) {
    Path(c, run) && forall i :: 0 <= i < |run| - 1 ==> SendsFiled(run[i], run[i + 1])
  }

  /** Reached from a new store, with `before` mined at the start, sending only what is in the file. */
  ghost predicate CarefullyReached(c: Config, before: map<SignedTx, Receipt>, w: World) {
    exists run: seq<World> :: CarefulPath(c, run) && Initial(run[0]) && run[0].mined == before && run[|run| - 1] == w
  }

  /** Since the start, only this store's actions have used the wallet. */
  ghost predicate OwnWallet(c: Config, before: map<SignedTx, Receipt>, w: World) {
    forall r | r in w.mined && SameAddress(r.signer, c.walletAddress) :: r in before || exists s :: s in w.sends && s.raw == r
  }

  ghost predicate AboveBefore(c: Config, before: map<SignedTx, Receipt>, n: nat) {
    forall r | r in before && SameAddress(r.signer, c.walletAddress) :: OrZero(r.nonce) < n
  }

  ghost predicate Tended(c: Config, before: map<SignedTx, Receipt>, w: World) {
    && (forall r | r in before :: r in w.mined)
    && (forall s | s in w.sends :: s.id in w.disk)
    && (forall id | id in w.births :: AboveBefore(c, before, w.births[id].pinned.nonce))
    && (w.pc.HasPinned? || w.pc.HasIntent? ==> AboveBefore(c, before, w.pc.tx.nonce))
  }

  lemma StepTended(c: Config, before: map<SignedTx, Receipt>, l: Label, w: World, w': World)
    requires Inv(c, w) && Step(c, l, w, w') && SendsFiled(w, w') && Tended(c, before, w)
    ensures Tended(c, before, w')
  {
    hide GroundOk, StoreOk, SendsOk, ForwardedOk, PcOk, MayExecute, MayApprove, RecordOf, AboveBefore;
    hide PendingNonce, IntentsEvolve, RecordsPinned, Signable, SerializePinned, NoncesUnique;
    if l.Pin? {
      PendingAboveBefore(c, before, w, l.tx.nonce);
    }
    if l.SendRaw? {
      assert w'.sends[|w.sends|].id in w.disk;
    }
  }

  lemma PendingAboveBefore(c: Config, before: map<SignedTx, Receipt>, w: World, n: nat)
    requires PendingNonce(c, w, n) && forall r | r in before :: r in w.mined
    ensures AboveBefore(c, before, n)
  {
    hide Lower;
  }

  lemma {:induction false} RunTended(c: Config, before: map<SignedTx, Receipt>, run: seq<World>)
    requires CarefulPath(c, run) && Inv(c, run[0]) && Tended(c, before, run[0])
    ensures Tended(c, before, run[|run| - 1]) && Inv(c, run[|run| - 1])
    decreases |run|
  {
    hide Inv, Step, Tended, SendsFiled;
    if |run| > 1 {
      assert Next(c, run[0], run[1]);
      var l :| Step(c, l, run[0], run[1]);
      StepKeeps(c, l, run[0], run[1]);
      StepTended(c, before, l, run[0], run[1]);
      PathTail(c, run);
      forall i | 0 <= i < |run[1..]| - 1
        ensures SendsFiled(run[1..][i], run[1..][i + 1])
      {
        assert SendsFiled(run[i + 1], run[i + 2]);
      }
      RunTended(c, before, run[1..]);
    }
  }

  lemma CarefullyTended(c: Config, before: map<SignedTx, Receipt>, w: World)
    requires CarefullyReached(c, before, w)
    ensures Tended(c, before, w) && Inv(c, w)
  {
    hide Inv, Next, SendsFiled, IntentsNamed, NoncesUnique, AboveBefore;
    var run: seq<World> :| CarefulPath(c, run) && Initial(run[0]) && run[0].mined == before && run[|run| - 1] == w;
    InitialInv(c, run[0]);
    RunTended(c, before, run);
  }

  /** Two actions in the file that both hold a signature never share a nonce, unless one is recorded. */
  lemma FiledNoncesDiffer(c: Config, w: World, a: Text, b: Text)
    requires Inv(c, w) && a in w.disk && b in w.disk && a != b && w.disk[b].broadcast.None?
    requires a in w.intents && b in w.intents && w.intents[a].status.Executed? && w.intents[b].status.Executed?
    ensures a in w.births && b in w.births && w.births[a].pinned.nonce != w.births[b].pinned.nonce
  {
    hide RecordsPinned, SerializePinned, Truthful, DiskBehind, SendsOk, PcOk, ForwardedOk;
    var g := GroundOf(w);
    assert EntryOk(g, a, w.disk[a]) && EntryOk(g, b, w.disk[b]);
    if g.births[b].order < g.births[a].order {
      assert SettledBelow(g, w.disk[b], g.births[a].pinned.nonce);
    } else {
      assert SettledBelow(g, w.disk[a], g.births[b].pinned.nonce);
    }
  }

  /**
   * While only this store's actions use the wallet, and each was in the file when it was sent, Arc
   * always takes the transaction of a signed action in the file.
   */
  lemma AlwaysMineable(c: Config, before: map<SignedTx, Receipt>, w: World, id: Text, raw: SignedTx)
    requires CarefullyReached(c, before, w) && OwnWallet(c, before, w)
    requires Filed(c, w, id) && w.intents[id].signed == Some(raw)
    requires raw in w.mined ==> w.mined[raw].success
    ensures Mineable(w, raw)
  {
    hide CarefullyReached, Inv, MayExecute, Lower, AboveBefore;
    CarefullyTended(c, before, w);
    ExecutableIsSigned(c, w.(mem := w.disk), id);
    FiledSigned(c, w, id);
    if raw !in w.mined {
      forall r | r in w.mined && SameAddress(r.signer, raw.signer) && OrZero(r.nonce) == OrZero(raw.nonce)
        ensures false
      {
        if r in before {
          BeforeDiffers(c, before, w.births[id].pinned.nonce, r);
        } else {
          var s :| s in w.sends && s.raw == r;
          SentSigned(c, w, s);
          if s.id != id { FiledNoncesDiffer(c, w, s.id, id); }
        }
        assert false;
      }
    }
  }

  lemma BeforeDiffers(c: Config, before: map<SignedTx, Receipt>, n: nat, r: SignedTx)
    requires AboveBefore(c, before, n) && r in before && SameAddress(r.signer, c.walletAddress)
    ensures OrZero(r.nonce) < n
  {
    hide Lower;
  }

  lemma FiledSigned(c: Config, w: World, id: Text)
    requires Inv(c, w) && Filed(c, w, id)
    ensures id in w.births && id in w.intents && w.intents[id].signed.Some?
    ensures SignedAsPinned(w.intents[id].signed.value, w.births[id].pinned)
    ensures w.births[id].pinned.from == c.walletAddress
  {
    hide InOrder, DiskBehind, SendsOk, ForwardedOk, PcOk, RecordsPinned, SerializePinned, DeserializePinned, SignedAsPinned;
    assert EntryOk(GroundOf(w), id, w.disk[id]) && BirthOk(c, GroundOf(w), id);
    PinnedRoundTrip(w.births[id].pinned);
  }

  lemma SentSigned(c: Config, w: World, s: Send)
    requires Inv(c, w) && s in w.sends
    ensures s.id in w.births && SignedAsPinned(s.raw, w.births[s.id].pinned)
    ensures s.id in w.intents && w.intents[s.id].status.Executed? && w.intents[s.id].signed == Some(s.raw)
  {
    hide GroundOk, StoreOk, DiskBehind, PcOk, ForwardedOk, SignedAsPinned;
    assert SignedFor(GroundOf(w), s.id, s.raw);
  }

  /**
   * Wherever crashes fall, restarting and executing again can finish: while only this store's actions
   * use the wallet, each sent from the file, a crash and one execute bring any signed action of the
   * file to its record, and no transaction but the one Privy signed consumes its nonce. A reverted
   * receipt is the one thing that stops it.
   */
  lemma ExecuteAgainFinishes(c: Config, before: map<SignedTx, Receipt>, w: World, id: Text)
    returns (run: seq<World>, raw: SignedTx)
    requires CarefullyReached(c, before, w) && OwnWallet(c, before, w)
    requires Filed(c, w, id) && !CannotRecord(c, w.disk[id])
    requires id in w.intents && w.intents[id].signed.Some?
    requires w.intents[id].signed.value in w.mined ==> w.mined[w.intents[id].signed.value].success
    ensures w.intents[id].signed == Some(raw)
    ensures Path(c, run) && run[0] == w
    ensures var last := run[|run| - 1];
            && last.pc.Idle? && id in last.disk && last.disk[id].broadcast.Some?
            && last.disk[id].broadcast.value.hash == Keccak(raw)
            && raw in last.mined && last.mined[raw].success
            && last.sends == w.sends + [Send(id, raw)]
  {
    hide *;
    CarefullyTended(c, before, w);
    AlwaysMineable(c, before, w, id, w.intents[id].signed.value);
    run, raw := FinishIfMineable(c, w, id);
  }

  // ---- An honest Privy and an honest Arc -------------------------------------------------------------

  /** What an honest Privy makes of an intent: the same request, executed, with its signature. */
  function Signed(i: Intent, raw: SignedTx): (s: Intent) {
    i.(status := Executed, signed := Some(raw))
  }

  /** Nothing stored holds a nonce: what is not broadcast is closed at Privy. */
  ghost predicate NothingOpen(w: World) {
    forall id | id in w.mem && w.mem[id].broadcast.None? :: id in w.intents && Closed(w.intents[id])
  }

  /** What Privy and the service make of a proposal, when Privy records what was pinned. */
  ghost predicate Recordable(c: Config, w: World, p: Proposal, tx: Pinned, i: Intent) {
    && tx.chainId == ARC_TESTNET && tx.from == c.walletAddress && tx.to == p.to && tx.data == p.data
    && PendingNonce(c, w, tx.nonce)
    && i.id !in w.intents && Signable(i.request.body) && RecordsPinned(i.request, c.rpcPath, tx)
  }

  /** A world in which the proposal is saved, in memory and, if the flush completed, on disk. */
  function Proposed(w: World, p: Proposal, tx: Pinned, i: Intent, now: int, flushed: bool): (w': World) {
    var mem := w.mem[i.id := NewAction(p, tx, i.id, now)];
    w.(pc := Idle, mem := mem, disk := if flushed then mem else w.disk, intents := w.intents[i.id := i],
       births := w.births[i.id := Birth(|w.births|, tx)])
  }

  /** Asking Privy about every unsent action, when each is closed. */
  lemma {:induction false} CheckAll(c: Config, w: World) returns (run: seq<World>)
    requires w.pc.Checking? && forall id | id in w.pc.todo :: id in w.intents && Closed(w.intents[id])
    ensures Path(c, run) && run[0] == w && run[|run| - 1] == w.(pc := Checking(w.pc.proposal, {}))
    decreases if w.pc.Checking? then |w.pc.todo| else 0
  {
    if w.pc.todo == {} {
      run := [w];
    } else {
      var id :| id in w.pc.todo;
      var next := w.(pc := Checking(w.pc.proposal, w.pc.todo - {id}));
      assert Step(c, CheckOne(id), w, next);
      hide Step, Closed;
      StepIsNext(c);
      var rest := CheckAll(c, next);
      var first := Extended(c, [w], next);
      run := Joined(c, first, rest);
    }
  }

  /** Propose, with every answer as the service wants it. */
  lemma ProposeHonestly(c: Config, w: World, p: Proposal, tx: Pinned, i: Intent, now: int, flushed: bool)
    returns (run: seq<World>)
    requires w.pc.Idle? && NothingOpen(w) && Recordable(c, w, p, tx, i)
    ensures Path(c, run) && run[0] == w && run[|run| - 1] == Proposed(w, p, tx, i, now, flushed)
  {
    hide RecordsPinned, Signable, NewAction, Next, Closed;
    var todo := set id | id in w.mem && w.mem[id].broadcast.None?;
    var asking := w.(pc := Checking(p, todo));
    var checking := w.(pc := Checking(p, {}));
    assert Step(c, StartPropose(p), w, asking);
    var checked := CheckAll(c, asking);
    var rest := PinAndSave(c, w, p, tx, i, now, flushed);
    assert Next(c, w, asking) by { StepIsNext(c); }
    run := Extended(c, [w], asking);
    run := Joined(c, run, checked);
    run := Joined(c, run, rest);
  }

  lemma PinAndSave(c: Config, w: World, p: Proposal, tx: Pinned, i: Intent, now: int, flushed: bool)
    returns (run: seq<World>)
    requires Recordable(c, w, p, tx, i)
    ensures Path(c, run) && run[0] == w.(pc := Checking(p, {}))
    ensures run[|run| - 1] == Proposed(w, p, tx, i, now, flushed)
  {
    hide RecordsPinned, Signable, NewAction, Next;
    var checking := w.(pc := Checking(p, {}));
    var pinned := w.(pc := HasPinned(p, tx));
    var created := w.(pc := HasIntent(p, tx, i), intents := w.intents[i.id := i]);
    var done := Proposed(w, p, tx, i, now, flushed);
    var flushing := done.(pc := Flushing, disk := w.disk);
    PinHere(c, checking, p, tx);
    assert Step(c, PrivyCreates(i), pinned, created) && Step(c, SaveAction(now), created, flushing);
    assert Step(c, if flushed then Rename else FlushFails, flushing, done);
    hide Step;
    StepIsNext(c);
    run := Extended(c, [checking], pinned);
    run := Extended(c, run, created);
    run := Extended(c, run, flushing);
    run := Extended(c, run, done);
  }

  lemma PinHere(c: Config, w: World, p: Proposal, tx: Pinned)
    requires w.pc == Checking(p, {}) && tx.chainId == ARC_TESTNET && tx.from == c.walletAddress
    requires tx.to == p.to && tx.data == p.data && PendingNonce(c, w.(pc := Idle), tx.nonce)
    ensures Step(c, Pin(tx), w, w.(pc := HasPinned(p, tx)))
  {
    hide Lower;
  }

  lemma PrivySigns(c: Config, w: World, i: Intent, raw: SignedTx)
    requires i.id in w.intents && w.intents[i.id] == i && i.status.Pending?
    requires NoncesUnique(w.mined) && IntentsNamed(w.intents)
    ensures Next(c, w, w.(intents := w.intents[i.id := Signed(i, raw)]))
    ensures IntentsNamed(w.intents[i.id := Signed(i, raw)])
  {
    hide Signable, Lower, MemberKeys;
    var w' := w.(intents := w.intents[i.id := Signed(i, raw)]);
    assert MemberKeys(Signed(i, raw)) == MemberKeys(i) by { SignedMembers(i, raw); }
    assert Step(c, Environment, w, w');
  }

  lemma SignedMembers(i: Intent, raw: SignedTx)
    ensures MemberKeys(Signed(i, raw)) == MemberKeys(i)
  {
  }

  lemma NowExecutable(c: Config, w: World, p: Proposal, tx: Pinned, i: Intent, raw: SignedTx, now: int)
    requires i.id in w.mem && w.mem[i.id] == NewAction(p, tx, i.id, now)
    requires i.id in w.intents && w.intents[i.id] == Signed(i, raw)
    requires RecordsPinned(i.request, c.rpcPath, tx) && SignedAsPinned(raw, tx)
    ensures MayExecute(c, w, i.id) && w.mem[i.id].broadcast.None? && w.mem[i.id].kind == p.kind
  {
    hide RecordsPinned, SignedAsPinned, SerializePinned, DeserializePinned;
    PinnedRoundTrip(tx);
  }

  /** Proposed and signed: the signed action is stored, and in the file if the flush completed. */
  lemma ProposedAndSigned(c: Config, w: World, p: Proposal, tx: Pinned, i: Intent, raw: SignedTx, now: int, flushed: bool)
    returns (run: seq<World>, signed: World)
    requires w.pc.Idle? && NothingOpen(w) && Recordable(c, w, p, tx, i) && i.status.Pending?
    requires IntentsNamed(w.intents) && NoncesUnique(w.mined) && SignedAsPinned(raw, tx)
    ensures Path(c, run) && run[0] == w && run[|run| - 1] == signed
    ensures signed == Proposed(w, p, tx, i, now, flushed).(intents := w.intents[i.id := Signed(i, raw)])
    ensures IntentsNamed(signed.intents)
    ensures i.id in signed.mem && MayExecute(c, signed, i.id)
    ensures signed.mem[i.id].broadcast.None? && signed.mem[i.id].kind == p.kind
    ensures flushed ==> Filed(c, signed, i.id) && signed.disk == signed.mem
  {
    hide Next, NothingOpen, RecordsPinned, SignedAsPinned, PendingNonce, Signable, NoncesUnique, NewAction, MayExecute;
    run := ProposeHonestly(c, w, p, tx, i, now, flushed);
    var saved := Proposed(w, p, tx, i, now, flushed);
    NamedMore(w.intents, i);
    PrivySigns(c, saved, i, raw);
    signed := saved.(intents := saved.intents[i.id := Signed(i, raw)]);
    assert signed.intents == w.intents[i.id := Signed(i, raw)];
    NowExecutable(c, signed, p, tx, i, raw, now);
    run := Extended(c, run, signed);
    if flushed { MayExecuteAnywhere(c, signed, signed.(mem := signed.disk), i.id); }
  }

  lemma NamedMore(intents: map<Text, Intent>, i: Intent)
    requires IntentsNamed(intents) && Signable(i.request.body)
    ensures IntentsNamed(intents[i.id := i])
  {
    hide Signable;
  }

  /** A nonce Arc reports as pending is free. */
  lemma PendingIsMineable(c: Config, w: World, tx: Pinned, raw: SignedTx)
    requires PendingNonce(c, w, tx.nonce) && tx.from == c.walletAddress && SignedAsPinned(raw, tx)
    ensures Mineable(w, raw)
  {
    hide Lower;
  }

  lemma MineableStays(w: World, w': World, raw: SignedTx)
    requires Mineable(w, raw) && w'.mined == w.mined
    ensures Mineable(w', raw)
  {
    hide Lower;
  }

  /**
   * The flow can always be walked to its end: from a state with no action open, if Privy records
   * what was pinned and signs it, the proposal ends broadcast and recorded.
   */
  lemma HonestRunCompletes(c: Config, w: World, p: Proposal, tx: Pinned, i: Intent, raw: SignedTx, now: int)
    returns (run: seq<World>)
    requires Reachable(c, w) && w.pc.Idle? && NothingOpen(w)
    requires Recordable(c, w, p, tx, i) && i.status.Pending? && SignedAsPinned(raw, tx)
    requires p.kind.WaiverCreate? ==> c.hasFacility
    ensures Path(c, run) && run[0] == w
    ensures var last := run[|run| - 1];
            && last.pc.Idle? && i.id in last.disk && last.disk[i.id].broadcast.Some?
            && last.disk[i.id].broadcast.value.hash == Keccak(raw)
            && raw in last.mined && last.mined[raw].success
  {
    hide Reachable, Inv, Next, RecordsPinned, SignedAsPinned, PendingNonce, Signable, NothingOpen;
    hide RecordOf, NoncesUnique, IntentsNamed, Mineable, MayExecute, NewAction;
    ReachableInv(c, w);
    InvGround(c, w);
    var ready, signed := ProposedAndSigned(c, w, p, tx, i, raw, now, true);
    PathKeeps(c, ready);
    PendingIsMineable(c, w, tx, raw);
    MineableStays(w, signed, raw);
    var rest, _ := FinishIfMineable(c, signed, i.id);
    run := Joined(c, ready, rest);
  }

  // ---- A service without a facility ------------------------------------------------------------------

  /**
   * The record can be missed. A waiver proposed by a service with a facility, and executed by one of
   * the same wallet without, is sent and mined, and then cannot be recorded: not now and in no run of
   * that service. A service with a facility, started over the same file, records it.
   */
  lemma UnconfiguredServiceMissesTheRecord(c: Config, w: World, p: Proposal, tx: Pinned, i: Intent, raw: SignedTx, now: int)
    returns (filling: seq<World>, missing: seq<World>, recovering: seq<World>)
    requires c.hasFacility && p.kind.WaiverCreate?
    requires Reachable(c, w) && w.pc.Idle? && NothingOpen(w)
    requires Recordable(c, w, p, tx, i) && i.status.Pending? && SignedAsPinned(raw, tx)
    ensures Path(c, filling) && filling[0] == w
    ensures Path(c.(hasFacility := false), missing) && missing[0] == filling[|filling| - 1]
    ensures var stuck := missing[|missing| - 1];
            && stuck.pc == Waiting(i.id, raw) && raw in stuck.mined && stuck.mined[raw].success
            && (forall w' :: !Step(c.(hasFacility := false), Receive, stuck, w'))
            && (forall w' :: Leads(c.(hasFacility := false), stuck, w') ==>
                  !(i.id in w'.disk && w'.disk[i.id].broadcast.Some?))
    ensures Path(c, recovering) && recovering[0] == missing[|missing| - 1]
    ensures var last := recovering[|recovering| - 1];
            && i.id in last.disk && last.disk[i.id].broadcast.Some?
            && last.disk[i.id].broadcast.value.hash == Keccak(raw)
  {
    hide Reachable, Inv, Next, RecordsPinned, SignedAsPinned, PendingNonce, Signable, NothingOpen;
    hide RecordOf, NoncesUnique, IntentsNamed, Mineable, MayExecute, NewAction, Leads;
    var c' := c.(hasFacility := false);
    ReachableInv(c, w);
    InvGround(c, w);
    var signed;
    filling, signed := ProposedAndSigned(c, w, p, tx, i, raw, now, true);
    PathKeeps(c, filling);
    PendingIsMineable(c, w, tx, raw);
    MineableStays(w, signed, raw);
    FiledIsBorn(c, signed, i.id);
    MayExecuteAnywhere(c, signed, signed, i.id);
    var stuck;
    missing, stuck := SentAndMined(c', signed, i.id, raw);
    InvAnyFacility(c, signed, false);
    PathKeeps(c', missing);
    InvAnyFacility(c', stuck, true);
    assert c'.(hasFacility := true) == c;
    StaysUnrecorded(c', stuck, i.id);
    MayExecuteAnywhere(c, signed, stuck.(mem := stuck.disk), i.id);
    MinedIsMineable(stuck, raw);
    var again, _ := FinishIfMineable(c, stuck, i.id);
    recovering := again;
  }

  lemma MinedIsMineable(w: World, raw: SignedTx)
    requires raw in w.mined && w.mined[raw].success
    ensures Mineable(w, raw)
  {
  }

  lemma StaysUnrecorded(c: Config, w: World, id: Text)
    requires Inv(c, w) && !c.hasFacility && Unrecorded(w, id)
    requires w.pc.Waiting? && w.pc.id == id && id in w.mem
    ensures forall w' :: !Step(c, Receive, w, w')
    ensures forall w' :: Leads(c, w, w') ==> !(id in w'.disk && w'.disk[id].broadcast.Some?)
  {
    hide Inv, RecordOf;
    forall w' | Leads(c, w, w')
      ensures !(id in w'.disk && w'.disk[id].broadcast.Some?)
    {
      LeadsUnrecorded(c, w, w', id);
    }
  }

  /** Execute up to the receipt. */
  lemma SentAndMined(c: Config, w: World, id: Text, raw: SignedTx) returns (run: seq<World>, mined: World)
    requires w.pc.Idle? && MayExecute(c, w, id) && id in w.intents && w.intents[id].signed == Some(raw)
    requires IntentsNamed(w.intents) && NoncesUnique(w.mined) && Mineable(w, raw)
    ensures Path(c, run) && run[0] == w && run[|run| - 1] == mined
    ensures mined == w.(pc := Waiting(id, raw), sends := w.sends + [Send(id, raw)], mined := mined.mined)
    ensures raw in mined.mined && mined.mined[raw].success
  {
    hide Next, MayExecute, Mineable, IntentsNamed, NoncesUnique;
    var sending := w.(pc := Sending(id, raw));
    var waiting := sending.(pc := Waiting(id, raw), sends := w.sends + [Send(id, raw)]);
    StartAndSend(c, w, id, raw);
    MineableStays(w, waiting, raw);
    mined := MineIfNeeded(c, waiting, raw);
    run := Extended(c, [w], sending);
    run := Extended(c, run, waiting);
    run := Extended(c, run, mined);
  }

  // ---- An action that never reached the file ---------------------------------------------------------

  /** What Privy records when it records what it is asked. */
  function HonestIntent(c: Config, id: Text, tx: Pinned): (i: Intent) {
    Intent(id, Pending, RequestDetails(POST, c.rpcPath, ProposedBody(tx)), [], 0, 0, 0, None)
  }

  /** The pinned transaction, signed by its wallet. */
  function SignedCopy(tx: Pinned, salt: Text): (raw: SignedTx)
    requires tx.chainId >= 0
  {
    SignedTx(true, tx.chainId, Some(tx.to), Some(tx.data), Some(0), Some(tx.nonce), Some(tx.gas),
             Some(tx.maxFeePerGas), Some(tx.maxPriorityFeePerGas), tx.from, salt)
  }

  function FirstCall(c: Config, p: Proposal): (tx: Pinned) {
    Pinned(ARC_TESTNET, c.walletAddress, p.to, p.data, 0, 1, 1, 1)
  }

  lemma HonestIntentRecordable(c: Config, w: World, p: Proposal, id: Text)
    requires id !in w.intents && w.mined == map[]
    ensures Recordable(c, w, p, FirstCall(c, p), HonestIntent(c, id, FirstCall(c, p)))
  {
    hide RecordsPinned, Encodable, Valid;
    var tx := FirstCall(c, p);
    var i := HonestIntent(c, id, tx);
    ProposedSignable(tx);
    SameReflexive(i.request.body);
    assert EndsWith(c.rpcPath, c.rpcPath);
    HonestRecordingMatches(i.request, c.rpcPath, tx);
  }

  lemma SignedCopyAsPinned(tx: Pinned, salt: Text)
    requires tx.chainId >= 0
    ensures SignedAsPinned(SignedCopy(tx, salt), tx)
  {
    hide Lower;
  }

  /** A new store, nothing at Privy, nothing mined. */
  function Nothing(): (w: World) {
    World(map[], map[], Idle, map[], map[], map[], [], {})
  }

  /** The first action, proposed but not flushed, is signed and sent; then the process dies. */
  lemma SentThenForgotten(c: Config, p: Proposal, a: Text) returns (run: seq<World>, first: SignedTx)
    ensures Path(c, run) && run[0] == Nothing()
    ensures first == SignedCopy(FirstCall(c, p), [0])
    ensures var w := run[|run| - 1];
            && w.pc.Idle? && w.mem == map[] && w.disk == map[] && w.mined == map[]
            && w.sends == [Send(a, first)] && w.intents.Keys == {a} && IntentsNamed(w.intents)
  {
    hide Next, Recordable, MayExecute, SignedAsPinned, NewAction, ProposedBody, Signable, IntentsNamed;
    var tx := FirstCall(c, p);
    var i := HonestIntent(c, a, tx);
    first := SignedCopy(tx, [0]);
    SignedCopyAsPinned(tx, [0]);
    var w0 := Nothing();
    HonestIntentRecordable(c, w0, p, a);
    assert IntentsNamed(w0.intents) && NoncesUnique(w0.mined) by { NothingIsInitial(); }
    var proposed, w1 := ProposedAndSigned(c, w0, p, tx, i, first, 0, false);
    StartAndSend(c, w1, a, first);
    var w2 := w1.(pc := Sending(a, first));
    var w3 := w2.(pc := Waiting(a, first), sends := w1.sends + [Send(a, first)]);
    Restarting(c, w3);
    run := Extended(c, proposed, w2);
    run := Extended(c, run, w3);
    run := Extended(c, run, w3.(pc := Idle, mem := w3.disk));
  }

  lemma NothingIsInitial()
    ensures Initial(Nothing()) && IntentsNamed(map[]) && NoncesUnique(map[])
  {
  }

  /** The second action takes the same nonce, is saved and signed; then the first is mined. */
  lemma ProposedThenOvertaken(c: Config, w: World, q: Proposal, b: Text, first: SignedTx)
    returns (run: seq<World>, last: World, second: SignedTx)
    requires w.pc.Idle? && w.mem == map[] && w.disk == map[] && w.mined == map[]
    requires b !in w.intents && IntentsNamed(w.intents)
    ensures Path(c, run) && run[0] == w && run[|run| - 1] == last
    ensures second == SignedCopy(FirstCall(c, q), [1])
    ensures Filed(c, last, b) && last.disk[b].kind == q.kind
    ensures b in last.intents && last.intents[b].status.Executed? && last.intents[b].signed == Some(second)
    ensures last.mined.Keys == {first} && last.mined[first].success && last.sends == w.sends
  {
    hide Next, Recordable, MayExecute, SignedAsPinned, NewAction, ProposedBody, Signable, IntentsNamed, Mineable, NoncesUnique;
    var tx := FirstCall(c, q);
    var i := HonestIntent(c, b, tx);
    second := SignedCopy(tx, [1]);
    SignedCopyAsPinned(tx, [1]);
    HonestIntentRecordable(c, w, q, b);
    FreeOnEmpty(w, first);
    var proposed, signed := ProposedAndSigned(c, w, q, tx, i, second, 0, true);
    FreeOnEmpty(signed, first);
    last := MineIfNeeded(c, signed, first);
    run := Extended(c, proposed, last);
    MayExecuteAnywhere(c, signed.(mem := signed.disk), last.(mem := last.disk), b);
  }

  /**
   * The discipline is needed. If a flush fails, the process still holds the action and can send it.
   * After a crash the file knows nothing of it, the next proposal pins the same nonce, and once the
   * first is mined the second, signed and in the file, can never be recorded.
   */
  lemma UnsavedActionTakesTheNonce(c: Config, p: Proposal, q: Proposal, a: Text, b: Text)
    returns (run: seq<World>, first: SignedTx, second: SignedTx)
    requires a != b && (q.kind.WaiverCreate? ==> c.hasFacility)
    ensures Path(c, run) && Initial(run[0]) && run[0].mined == map[]
    ensures var w := run[|run| - 1];
            && Filed(c, w, b) && !CannotRecord(c, w.disk[b]) && w.intents[b].signed == Some(second)
            && w.mined.Keys == {first} && w.mined[first].success && Send(a, first) in w.sends
            && OwnWallet(c, map[], w) && !Mineable(w, second)
            && (forall w' :: Leads(c, w, w') ==> !(b in w'.disk && w'.disk[b].broadcast.Some?))
  {
    hide Next, MayExecute, Mineable, Leads, Inv, Initial, Filed;
    var one, two, last;
    one, first := SentThenForgotten(c, p, a);
    two, last, second := ProposedThenOvertaken(c, one[|one| - 1], q, b, first);
    run := Joined(c, one, two);
    NothingIsInitial();
    FirstTook(last, first, second);
    ReachedFromInitial(c, run);
    NeverAgain(c, last, b, second);
    assert Send(a, first) in last.sends;
  }

  lemma FreeOnEmpty(w: World, raw: SignedTx)
    requires w.mined == map[]
    ensures Mineable(w, raw) && NoncesUnique(w.mined)
  {
  }

  lemma FirstTook(w: World, first: SignedTx, second: SignedTx)
    requires first != second && first.signer == second.signer && first.nonce == second.nonce
    requires w.mined.Keys == {first}
    ensures !Mineable(w, second)
  {
    hide Lower;
  }

  lemma ReachedFromInitial(c: Config, run: seq<World>)
    requires Path(c, run) && Initial(run[0])
    ensures Inv(c, run[|run| - 1])
  {
    hide Inv, Next, Initial;
    InitialInv(c, run[0]);
    PathKeeps(c, run);
  }

  lemma NeverAgain(c: Config, w: World, id: Text, raw: SignedTx)
    requires Inv(c, w) && !Mineable(w, raw)
    requires id in w.intents && w.intents[id].status.Executed? && w.intents[id].signed == Some(raw)
    ensures forall w' :: Leads(c, w, w') ==> !(id in w'.disk && w'.disk[id].broadcast.Some?)
  {
    hide Inv, Leads, Mineable;
    forall w' | Leads(c, w, w') && id in w'.disk && w'.disk[id].broadcast.Some?
      ensures false
    {
      RecordedWasMineable(c, w, w', id, raw);
      assert false;
    }
  }
}
