// What any number of interrupted attempts keep.
module WaiverRunLaws {
  import opened Outcomes
  import opened RunPlan
  import opened Vaults
  import opened WaiverRun

  // ---- The invariant -------------------------------------------------------------------------------------

  /** Once something of a phase landed, no later attempt sends anything of that phase. */
  ghost predicate OneAttemptAPhase(s: State) {
    forall i, j :: 0 <= i < j < |s.chain| && s.chain[i].asserted && PhaseOf(s.chain[i].tx) == PhaseOf(s.chain[j].tx) ==>
      s.chain[i].attempt == s.chain[j].attempt
  }

  /** Phases are sent in the order of the script, and what lands, lands once and in that order. */
  ghost predicate InScriptOrder(s: State) {
    && (forall i, j :: 0 <= i < j < |s.chain| ==>
          Index(PhaseOf(s.chain[i].tx)) <= Index(PhaseOf(s.chain[j].tx)))
    && (forall i, j :: 0 <= i < j < |s.chain| && s.chain[i].asserted && s.chain[j].asserted ==>
          Rank(s.chain[i].tx) < Rank(s.chain[j].tx))
  }

  /** Whatever was sent, every phase before it had been reached. */
  ghost predicate NoGaps(s: State) {
    forall x, q | x in s.chain && Index(q) < Index(PhaseOf(x.tx)) :: Reaches(s, q)
  }

  ghost predicate Numbered(s: State) {
    forall x | x in s.chain :: x.attempt <= s.attempts
  }

  /** The phases before W-4 are all reached. */
  ghost predicate Prepared(s: State) {
    Reaches(s, W1) && Reaches(s, W2) && Reaches(s, W3)
  }

  /** One proposal at a time, kept open until its waiver is recorded; none after a waiver landed. */
  ghost predicate OneProposal(s: State) {
    && s.proposals == s.closed + (if s.open || Landed(s, Waiver) then 1 else 0)
    && (s.mined <==> s.open && Landed(s, Waiver))
    && (s.open ==> Prepared(s))
    && (WaiverWasted(s) ==> s.open && !Landed(s, Waiver))
    && (forall x | x in s.chain && Index(PhaseOf(x.tx)) > 3 :: Landed(s, Waiver) && !s.open)
  }

  /** The vault is waived only from the waiver of this run on, and until its last sync. */
  ghost predicate VaultOk(s: State) {
    && (s.vault.active ==> s.vault.covenant == Waived)
    && (s.vault.covenant == Waived ==>
        && Landed(s, Waiver) && !Landed(s, LastSync)
        && (s.vault.before == Cure || s.vault.before == Breach))
  }

  ghost predicate Sound(s: State) {
    OneAttemptAPhase(s) && InScriptOrder(s) && NoGaps(s) && Numbered(s) && OneProposal(s) && VaultOk(s)
  }

  // ---- What is still to be sent ----------------------------------------------------------------------------

  /** Everything to be sent comes after everything landed, in order, by this attempt, and leaves no gap. */
  ghost predicate Ready(s: State, es: seq<Effect>) {
    && (forall x, e | x in s.chain && e in es && e.Land? ::
          && Index(PhaseOf(x.tx)) <= Index(PhaseOf(e.tx))
          && (x.asserted ==> Rank(x.tx) < Rank(e.tx))
          && (x.asserted && PhaseOf(x.tx) == PhaseOf(e.tx) ==> x.attempt == s.attempts))
    && (forall i, j :: 0 <= i < j < |es| && es[i].Land? && es[j].Land? ==> Rank(es[i].tx) < Rank(es[j].tx))
    && (forall j, q :: 0 <= j < |es| && es[j].Land? && Index(q) < Index(PhaseOf(es[j].tx)) ==>
          Reaches(s, q) || exists i :: 0 <= i < j && es[i].Land? && PhaseOf(es[i].tx) == q)
  }

  ghost predicate Placed(s: State) {
    OneAttemptAPhase(s) && InScriptOrder(s) && NoGaps(s) && Numbered(s)
  }

  lemma RankAndPhase(a: Tx, b: Tx)
    requires Rank(a) < Rank(b)
    ensures Index(PhaseOf(a)) <= Index(PhaseOf(b))
  {
  }

  function Sending(s: State, tx: Tx, asserted: bool): (s': State) {
    s.(chain := s.chain + [Sent(tx, s.attempts, asserted)])
  }

  lemma ChainMembers(s: State, tx: Tx, asserted: bool)
    ensures forall x :: x in Sending(s, tx, asserted).chain <==> x in s.chain || x == Sent(tx, s.attempts, asserted)
    ensures forall q :: Reaches(Sending(s, tx, asserted), q) <==> Reaches(s, q) || (asserted && q == PhaseOf(tx))
    ensures forall t :: Landed(Sending(s, tx, asserted), t) <==> Landed(s, t) || (asserted && t == tx)
    ensures WaiverWasted(Sending(s, tx, asserted)) <==> WaiverWasted(s) || (!asserted && tx == Waiver)
  {
    var s' := Sending(s, tx, asserted);
    var x := Sent(tx, s.attempts, asserted);
    assert s'.chain[|s.chain|] == x;
    forall y | y in s.chain
      ensures y in s'.chain
    {
    }
  }

  /** Sending the next transaction keeps every placement, whether it lands or not. */
  lemma SendPlaced(s: State, es: seq<Effect>, asserted: bool)
    requires Placed(s) && Ready(s, es) && es != [] && es[0].Land?
    ensures Placed(Sending(s, es[0].tx, asserted))
  {
    hide OneAttemptAPhase, InScriptOrder, NoGaps, Reaches, Rank, Index, PhaseOf, Ready;
    SendOneAttempt(s, es, asserted);
    SendInOrder(s, es, asserted);
    SendNoGaps(s, es, asserted);
  }

  lemma SendOneAttempt(s: State, es: seq<Effect>, asserted: bool)
    requires OneAttemptAPhase(s) && Ready(s, es) && es != [] && es[0].Land?
    ensures OneAttemptAPhase(Sending(s, es[0].tx, asserted))
  {
    hide Rank, Index, PhaseOf, Reaches;
    var s' := Sending(s, es[0].tx, asserted);
    assert es[0] in es;
    forall i, j | 0 <= i < j < |s'.chain| && s'.chain[i].asserted && PhaseOf(s'.chain[i].tx) == PhaseOf(s'.chain[j].tx)
      ensures s'.chain[i].attempt == s'.chain[j].attempt
    {
      assert s'.chain[i] == s.chain[i] && s.chain[i] in s.chain;
    }
  }

  lemma SendInOrder(s: State, es: seq<Effect>, asserted: bool)
    requires InScriptOrder(s) && Ready(s, es) && es != [] && es[0].Land?
    ensures InScriptOrder(Sending(s, es[0].tx, asserted))
  {
    hide Rank, Index, PhaseOf, Reaches;
    var s' := Sending(s, es[0].tx, asserted);
    assert es[0] in es;
    forall i, j | 0 <= i < j < |s'.chain|
      ensures Index(PhaseOf(s'.chain[i].tx)) <= Index(PhaseOf(s'.chain[j].tx))
      ensures s'.chain[i].asserted && s'.chain[j].asserted ==> Rank(s'.chain[i].tx) < Rank(s'.chain[j].tx)
    {
      assert s'.chain[i] == s.chain[i] && s.chain[i] in s.chain;
    }
  }

  lemma SendNoGaps(s: State, es: seq<Effect>, asserted: bool)
    requires NoGaps(s) && Numbered(s) && Ready(s, es) && es != [] && es[0].Land?
    ensures NoGaps(Sending(s, es[0].tx, asserted)) && Numbered(Sending(s, es[0].tx, asserted))
  {
    hide Rank, Index, PhaseOf, Landed, WaiverWasted;
    ChainMembers(s, es[0].tx, asserted);
    assert forall q | Index(q) < Index(PhaseOf(es[0].tx)) :: Reaches(s, q);
    hide Reaches;
  }

  lemma SendReady(s: State, es: seq<Effect>)
    requires Ready(s, es) && es != [] && es[0].Land?
    ensures Ready(Sending(s, es[0].tx, true), es[1..])
  {
    var tx, rest := es[0].tx, es[1..];
    var s' := Sending(s, tx, true);
    ChainMembers(s, tx, true);
    forall x, e | x in s'.chain && e in rest && e.Land?
      ensures Index(PhaseOf(x.tx)) <= Index(PhaseOf(e.tx))
      ensures x.asserted ==> Rank(x.tx) < Rank(e.tx)
      ensures x.asserted && PhaseOf(x.tx) == PhaseOf(e.tx) ==> x.attempt == s.attempts
    {
      assert e in es;
      if x !in s.chain {
        var k :| 0 <= k < |rest| && rest[k] == e;
        assert es[k + 1] == e;
        RankAndPhase(tx, e.tx);
      }
    }
    TailGaps(s, es);
    forall j, q | 0 <= j < |rest| && rest[j].Land? && Index(q) < Index(PhaseOf(rest[j].tx))
      ensures Reaches(s', q) || exists i :: 0 <= i < j && rest[i].Land? && PhaseOf(rest[i].tx) == q
    {
      assert es[j + 1] == rest[j];
    }
  }

  lemma TailGaps(s: State, es: seq<Effect>)
    requires Ready(s, es) && es != []
    ensures forall j, q :: 0 <= j < |es[1..]| && es[1..][j].Land? && Index(q) < Index(PhaseOf(es[1..][j].tx)) ==>
      Reaches(s, q) || (es[0].Land? && PhaseOf(es[0].tx) == q)
      || exists i :: 0 <= i < j && es[1..][i].Land? && PhaseOf(es[1..][i].tx) == q
  {
    var rest := es[1..];
    forall j, q | 0 <= j < |rest| && rest[j].Land? && Index(q) < Index(PhaseOf(rest[j].tx)) && !Reaches(s, q)
               && !(es[0].Land? && PhaseOf(es[0].tx) == q)
      ensures exists i :: 0 <= i < j && rest[i].Land? && PhaseOf(rest[i].tx) == q
    {
      assert es[j + 1] == rest[j];
      var i :| 0 <= i < j + 1 && es[i].Land? && PhaseOf(es[i].tx) == q;
      assert i > 0 && rest[i - 1] == es[i];
    }
  }

  lemma OtherReady(s: State, course: Course, es: seq<Effect>)
    requires Placed(s) && Ready(s, es) && es != [] && !es[0].Land?
    ensures Placed(Perform(s, course, es[0])) && Ready(Perform(s, course, es[0]), es[1..])
  {
    Unmoved(s, Perform(s, course, es[0]), es[1..]);
    TailReady(s, es);
  }

  lemma TailReady(s: State, es: seq<Effect>)
    requires Ready(s, es) && es != [] && !es[0].Land?
    ensures Ready(s, es[1..])
  {
    var rest := es[1..];
    TailGaps(s, es);
    hide Reaches;
    forall x, e | x in s.chain && e in rest && e.Land?
      ensures Index(PhaseOf(x.tx)) <= Index(PhaseOf(e.tx))
      ensures x.asserted ==> Rank(x.tx) < Rank(e.tx)
      ensures x.asserted && PhaseOf(x.tx) == PhaseOf(e.tx) ==> x.attempt == s.attempts
    {
      assert e in es;
    }
  }

  /** What is mined has landed, and what has landed is not to be sent. */
  lemma NotYetMined(s: State, es: seq<Effect>)
    requires Ready(s, es) && (s.mined ==> Landed(s, Waiver))
    ensures Land(Waiver) in es ==> !s.mined
  {
  }

  /** What is mined is on the chain, asserted or not; nothing else moves the chain. */
  lemma PerformSends(s: State, course: Course, e: Effect)
    requires !Throws(s, course, e) && !Again(s, e)
    ensures var s' := Perform(s, course, e);
            && s'.chain == (if e.Land? then Sending(s, e.tx, !Fails(s, course, e)) else s).chain
            && s'.attempts == s.attempts
            && (s'.mined ==> s.mined || (e == Land(Waiver) && !Fails(s, course, e)))
  {
  }

  lemma MinedHasLanded(s: State, course: Course, e: Effect)
    requires !Throws(s, course, e) && (s.mined ==> Landed(s, Waiver))
    ensures Perform(s, course, e).mined ==> Landed(Perform(s, course, e), Waiver)
  {
    if !Again(s, e) {
      PerformLands(s, course, e);
      PerformSends(s, course, e);
      hide Landed, Perform, Throws, Fails;
    }
  }

  /** However far the attempt lives, every placement is kept. */
  lemma {:induction false} ExecPlaced(s: State, left: nat, course: Course, es: seq<Effect>)
    requires Placed(s) && Ready(s, es) && (s.mined ==> Landed(s, Waiver))
    ensures Placed(Exec(s, left, course, es).state)
    decreases |es|
  {
    hide Placed, Ready, Throws, Fails, Landed, Perform;
    if es != [] && !Throws(s, course, es[0]) {
      NotYetMined(s, es);
      MinedHasLanded(s, course, es[0]);
      if left == 0 {
        if course.spoils && es[0].Land? { SendPlaced(s, es, false); }
      } else if es[0].Land? {
        assert es[0] in es;
        SendPlaced(s, es, !Fails(s, course, es[0]));
        PerformSends(s, course, es[0]);
        Unmoved(Sending(s, es[0].tx, !Fails(s, course, es[0])), Perform(s, course, es[0]), es[1..]);
        if !Fails(s, course, es[0]) {
          SendReady(s, es);
          ExecPlaced(Perform(s, course, es[0]), left - 1, course, es[1..]);
        }
      } else {
        OtherReady(s, course, es);
        OnlyLandsFail(s, course, es[0]);
        ExecPlaced(Perform(s, course, es[0]), left - 1, course, es[1..]);
      }
    }
  }

  lemma OnlyLandsFail(s: State, course: Course, e: Effect)
    ensures Fails(s, course, e) ==> e.Land?
  {
  }

  /** Placement is a matter of the chain and the count of attempts. */
  lemma Unmoved(s: State, s': State, es: seq<Effect>)
    requires s'.chain == s.chain && s'.attempts == s.attempts
    ensures Placed(s) ==> Placed(s')
    ensures Ready(s, es) ==> Ready(s', es)
  {
    assert forall q :: Reaches(s', q) == Reaches(s, q);
  }

  // ---- An attempt that adopts everything is ready ------------------------------------------------------------

  /** The phases such an attempt sends: the wanted ones that nothing has reached. */
  ghost predicate Sends(s: State, flags: Flags, p: Phase) {
    !Reaches(s, p) && (p != W7 || flags.refreshExposure)
  }

  lemma ReachesWaiver(s: State)
    ensures Reaches(s, W4) <==> Landed(s, Waiver)
  {
  }

  lemma EverythingPlan(s: State, resuming: bool, refreshExposure: bool)
    ensures var flags := Everything(s, resuming, refreshExposure);
            forall p :: p in PlanRun(flags.adopted, flags.adoptWaiver, flags.refreshExposure).send <==> Sends(s, flags, p)
  {
    hide PlanRun;
    var flags := Everything(s, resuming, refreshExposure);
    PlanDecidesOnce(flags.adopted, flags.adoptWaiver, flags.refreshExposure);
    ReachesWaiver(s);
  }

  /** The transactions of a section are its phase's, and it has some exactly when the phase is sent. */
  lemma SectionTxs(s: State, resuming: bool, refreshExposure: bool, found: Findings, p: Phase)
    ensures var flags := Everything(s, resuming, refreshExposure);
            var es := Section(flags, found, p);
            && (forall e | e in es && e.Land? :: PhaseOf(e.tx) == p && Sends(s, flags, p))
            && (Sends(s, flags, p) ==> exists e :: e in es && e.Land? && PhaseOf(e.tx) == p)
            && (forall i, j :: 0 <= i < j < |es| && es[i].Land? && es[j].Land? ==> Rank(es[i].tx) < Rank(es[j].tx))
  {
    hide PlanRun, Everything, Sends;
    var flags := Everything(s, resuming, refreshExposure);
    var es := Section(flags, found, p);
    EverythingPlan(s, resuming, refreshExposure);
    TxsOfPhase(found, p);
    if p == W4 {
      WaiverSends(s, resuming, refreshExposure);
      if !flags.adoptWaiver {
        var front: seq<Effect> := if found.open then [Assess] else [Assess, Propose];
        assert es == front + TxsOf(W4, found) && es[|front|] == Land(Waiver);
      }
    } else if Sends(s, flags, p) {
      var front: seq<Effect> := if p == W6 then [Wait] else [];
      assert es == front + TxsOf(p, found);
      var e :| e in TxsOf(p, found) && e.Land? && PhaseOf(e.tx) == p;
      assert e in es;
    }
  }

  lemma WaiverSends(s: State, resuming: bool, refreshExposure: bool)
    ensures var flags := Everything(s, resuming, refreshExposure); Sends(s, flags, W4) <==> !flags.adoptWaiver
  {
    ReachesWaiver(s);
  }

  lemma TxsOfPhase(found: Findings, p: Phase)
    ensures var es := TxsOf(p, found);
            && es != [] && (exists e :: e in es && e.Land? && PhaseOf(e.tx) == p)
            && (p != W4 ==> forall e | e in es :: e.Land?)
            && (forall e | e in es && e.Land? :: PhaseOf(e.tx) == p)
            && (forall i, j :: 0 <= i < j < |es| && es[i].Land? && es[j].Land? ==> Rank(es[i].tx) < Rank(es[j].tx))
  {
    var es := TxsOf(p, found);
    assert p == W4 ==> es[0] == Land(Waiver);
    assert es[if p == W4 then 0 else |es| - 1].Land?;
  }

  /** The rest of the script: phases from the k-th on, in order, and all of them that are to be sent. */
  lemma {:induction false} TodoTxs(s: State, resuming: bool, refreshExposure: bool, found: Findings, k: nat)
    requires k <= 7
    ensures var flags := Everything(s, resuming, refreshExposure);
            var es := Todo(flags, found, k);
            && (forall e | e in es && e.Land? :: Index(PhaseOf(e.tx)) >= k && Sends(s, flags, PhaseOf(e.tx)))
            && (forall q :: Index(q) >= k && Sends(s, flags, q) ==> exists e :: e in es && e.Land? && PhaseOf(e.tx) == q)
            && (forall i, j :: 0 <= i < j < |es| && es[i].Land? && es[j].Land? ==> Rank(es[i].tx) < Rank(es[j].tx))
    decreases 7 - k
  {
    hide Section, Everything, Sends;
    var flags := Everything(s, resuming, refreshExposure);
    PhaseList();
    if k < 7 {
      var p := PHASES[k];
      var head, tail := Section(flags, found, p), Todo(flags, found, k + 1);
      var es := Todo(flags, found, k);
      assert es == head + tail && Index(p) == k;
      SectionTxs(s, resuming, refreshExposure, found, p);
      TodoTxs(s, resuming, refreshExposure, found, k + 1);
      forall i, j | 0 <= i < j < |es| && es[i].Land? && es[j].Land?
        ensures Rank(es[i].tx) < Rank(es[j].tx)
      {
        if i < |head| <= j {
          assert es[i] in head && es[j] in tail;
          PhaseAndRank(es[i].tx, es[j].tx);
        }
      }
      forall q | Index(q) >= k && Sends(s, flags, q)
        ensures exists e :: e in es && e.Land? && PhaseOf(e.tx) == q
      {
        if Index(q) == k { SameIndex(p, q); }
        var e :| (e in head || e in tail) && e.Land? && PhaseOf(e.tx) == q;
        assert e in es;
      }
    }
  }

  lemma SameIndex(p: Phase, q: Phase)
    requires Index(p) == Index(q)
    ensures p == q
  {
  }

  lemma PhaseAndRank(a: Tx, b: Tx)
    requires Index(PhaseOf(a)) < Index(PhaseOf(b))
    ensures Rank(a) < Rank(b)
  {
  }

  lemma EverythingReady(s: State, resuming: bool, refreshExposure: bool, found: Findings)
    requires Sound(s)
    ensures Ready(s.(attempts := s.attempts + 1), Todo(Everything(s, resuming, refreshExposure), found, 0))
  {
    hide Todo, OneProposal, VaultOk, InScriptOrder, OneAttemptAPhase, NoGaps, Everything, Rank, Reaches, Landed;
    var flags := Everything(s, resuming, refreshExposure);
    var es, s' := Todo(flags, found, 0), s.(attempts := s.attempts + 1);
    TodoTxs(s, resuming, refreshExposure, found, 0);
    SameReach(s, s');
    forall x, e | x in s.chain && e in es && e.Land?
      ensures Index(PhaseOf(x.tx)) <= Index(PhaseOf(e.tx))
      ensures x.asserted ==> Rank(x.tx) < Rank(e.tx) && PhaseOf(x.tx) != PhaseOf(e.tx)
    {
      ReachedUpTo(s, x, PhaseOf(e.tx));
      if x.asserted {
        DifferentIndex(PhaseOf(x.tx), PhaseOf(e.tx));
        PhaseAndRank(x.tx, e.tx);
      }
    }
    forall j, q | 0 <= j < |es| && es[j].Land? && Index(q) < Index(PhaseOf(es[j].tx)) && !Reaches(s, q)
      ensures exists i :: 0 <= i < j && es[i].Land? && PhaseOf(es[i].tx) == q
    {
      assert es[j] in es && q != W7 && Sends(s, flags, q);
      var e :| e in es && e.Land? && PhaseOf(e.tx) == q;
      var i :| 0 <= i < |es| && es[i] == e;
      if j < i { RankAndPhase(es[j].tx, es[i].tx); }
    }
  }

  lemma SameReach(s: State, s': State)
    requires s'.chain == s.chain
    ensures forall q :: Reaches(s', q) == Reaches(s, q)
  {
  }

  /** A phase that nothing has reached comes after everything that was sent, unless it is sent again. */
  lemma ReachedUpTo(s: State, x: Sent, p: Phase)
    requires NoGaps(s) && x in s.chain && !Reaches(s, p)
    ensures Index(PhaseOf(x.tx)) <= Index(p) && (x.asserted ==> PhaseOf(x.tx) != p)
  {
  }

  lemma DifferentIndex(p: Phase, q: Phase)
    requires p != q
    ensures Index(p) != Index(q)
  {
  }

  // ---- The proposal ------------------------------------------------------------------------------------------

  /** Effects that have nothing to do with the proposal. */
  ghost predicate Plain(es: seq<Effect>) {
    forall e | e in es :: e.Wait? || e.Assess? || (e.Land? && e.tx != Waiver)
  }

  /** Effects after the waiver may only come once it is recorded. */
  ghost predicate MayFollow(s: State, es: seq<Effect>) {
    forall e | e in es && e.Land? && Index(PhaseOf(e.tx)) > 3 :: Landed(s, Waiver) && !s.open
  }

  /** What has the same proposal, and the same waiver landed or wasted. */
  ghost predicate SameProposal(s: State, s': State) {
    && s'.open == s.open && s'.proposals == s.proposals && s'.closed == s.closed
    && (Landed(s', Waiver) <==> Landed(s, Waiver)) && (WaiverWasted(s') <==> WaiverWasted(s))
  }

  lemma {:induction false} PlainKeepsProposal(s: State, left: nat, course: Course, es: seq<Effect>)
    requires OneProposal(s) && Plain(es) && MayFollow(s, es)
    ensures var r := Exec(s, left, course, es); OneProposal(r.state) && SameProposal(s, r.state)
    decreases |es|
  {
    hide Landed, WaiverWasted, OneProposal, Throws, Fails, Perform;
    if es != [] && !Throws(s, course, es[0]) {
      assert es[0] in es;
      if left > 0 {
        PlainStep(s, course, es[0]);
        assert forall e | e in es[1..] :: e in es;
        if !Fails(s, course, es[0]) { PlainKeepsProposal(Perform(s, course, es[0]), left - 1, course, es[1..]); }
      } else if course.spoils && es[0].Land? {
        PlainSend(s, es[0].tx, false);
      }
    }
  }

  lemma PlainSend(s: State, tx: Tx, asserted: bool)
    requires OneProposal(s) && tx != Waiver && (Index(PhaseOf(tx)) > 3 ==> Landed(s, Waiver) && !s.open)
    ensures OneProposal(Sending(s, tx, asserted)) && SameProposal(s, Sending(s, tx, asserted))
  {
    ChainMembers(s, tx, asserted);
    hide Landed, WaiverWasted, Reaches, Index, PhaseOf;
  }

  lemma PlainStep(s: State, course: Course, e: Effect)
    requires OneProposal(s) && (e.Wait? || e.Assess? || (e.Land? && e.tx != Waiver)) && !Throws(s, course, e)
    requires e.Land? && Index(PhaseOf(e.tx)) > 3 ==> Landed(s, Waiver) && !s.open
    ensures OneProposal(Perform(s, course, e)) && SameProposal(s, Perform(s, course, e))
  {
    hide Landed, WaiverWasted, Reaches, Prepared, Index, PhaseOf, ReplyTo;
    var asserted := !Fails(s, course, e);
    if e.Land? { PlainSend(s, e.tx, asserted); }
    SamePlace(if e.Land? then Sending(s, e.tx, asserted) else s, Perform(s, course, e));
  }

  lemma SamePlace(s: State, s': State)
    requires s'.chain == s.chain
    ensures forall t :: Landed(s', t) == Landed(s, t)
    ensures forall p :: Reaches(s', p) == Reaches(s, p)
    ensures WaiverWasted(s') == WaiverWasted(s)
    ensures Prepared(s') == Prepared(s)
  {
  }

  /** W-4, from a state in which no waiver landed: at every kill point there is one proposal at most. */
  lemma WaiverKeepsProposal(s: State, left: nat, course: Course, found: Findings)
    requires OneProposal(s) && !Landed(s, Waiver) && Prepared(s) && found.open == s.open
    ensures var r := Exec(s, left, course, Waiving(false, found));
            OneProposal(r.state) && (!r.stopped ==> Landed(r.state, Waiver) && !r.state.open)
  {
    var es := [Land(Waiver), Record];
    if s.open {
      assert [] + es == es;
      WaiverEffects(s, left, course, es);
    } else {
      var all := Waiving(false, found);
      assert all[0] == Propose && all[1..] == es;
      hide ReplyTo;
      var proposed := Perform(s, course, Propose);
      SamePlace(s, proposed);
      hide Landed, WaiverWasted, Reaches;
      if left > 0 { WaiverEffects(proposed, left - 1, course, es); }
    }
  }

  lemma WaiverEffects(s: State, left: nat, course: Course, es: seq<Effect>)
    requires OneProposal(s) && !Landed(s, Waiver) && s.open && es == [Land(Waiver), Record]
    ensures var r := Exec(s, left, course, es);
            OneProposal(r.state) && (!r.stopped ==> Landed(r.state, Waiver) && !r.state.open)
  {
    hide Landed, WaiverWasted, OneProposal, Perform, ReplyTo, Fails;
    var mined := Perform(s, course, Land(Waiver));
    if !Throws(s, course, Land(Waiver)) {
      WaiverStep(s, course);
      if left == 0 && course.spoils { WaiverSpoiled(s); }
    }
    assert es[1..] == [Record] && es[1..][1..] == [];
    if left > 1 && !Throws(s, course, Land(Waiver)) && !Fails(s, course, Land(Waiver)) {
      RecordGoesOn(mined, left - 1, course);
    }
  }

  lemma RecordGoesOn(s: State, left: nat, course: Course)
    requires left > 0
    ensures Exec(s, left, course, [Record]) == Progress(Perform(s, course, Record), left - 1, false)
  {
  }

  lemma WaiverStep(s: State, course: Course)
    requires OneProposal(s) && !Landed(s, Waiver) && s.open && !Throws(s, course, Land(Waiver))
    ensures var mined := Perform(s, course, Land(Waiver));
            var done := Perform(mined, course, Record);
            && OneProposal(mined)
            && (!Fails(s, course, Land(Waiver)) ==> OneProposal(done) && Landed(done, Waiver) && !done.open)
  {
    var asserted := !Fails(s, course, Land(Waiver));
    ChainMembers(s, Waiver, asserted);
    var mined := Perform(s, course, Land(Waiver));
    hide ReplyTo;
    SamePlace(Sending(s, Waiver, asserted), mined);
    SamePlace(mined, Perform(mined, course, Record));
    hide Landed, WaiverWasted, Reaches, Prepared;
  }

  lemma WaiverSpoiled(s: State)
    requires OneProposal(s) && !Landed(s, Waiver) && s.open
    ensures OneProposal(Sending(s, Waiver, false))
  {
    ChainMembers(s, Waiver, false);
    hide Landed, WaiverWasted, Reaches;
  }

  /** The script around W-4: the phases before it, and those after. */
  function Before(flags: Flags, found: Findings): (es: seq<Effect>) {
    Section(flags, found, W1) + Section(flags, found, W2) + Section(flags, found, W3)
  }

  lemma TodoParts(flags: Flags, found: Findings)
    ensures Todo(flags, found, 0)
         == Before(flags, found) + (Section(flags, found, W4) + Todo(flags, found, 4))
  {
    hide Section;
    PhaseList();
    assert PHASES[0] == W1 && PHASES[1] == W2 && PHASES[2] == W3 && PHASES[3] == W4;
    var a, b, c := Section(flags, found, W1), Section(flags, found, W2), Section(flags, found, W3);
    var rest := Section(flags, found, W4) + Todo(flags, found, 4);
    assert Todo(flags, found, 3) == rest;
    assert Todo(flags, found, 2) == c + rest && Todo(flags, found, 1) == b + (c + rest);
    assert a + (b + (c + rest)) == (a + b + c) + rest;
  }

  /** Everything of a phase but the fourth is plain, and comes from that phase. */
  lemma SectionPlain(flags: Flags, found: Findings, p: Phase)
    requires p != W4
    ensures Plain(Section(flags, found, p))
    ensures forall e | e in Section(flags, found, p) && e.Land? :: PhaseOf(e.tx) == p
  {
    hide PlanRun, TxsOf;
    TxsOfPhase(found, p);
    var front: seq<Effect> := if p == W6 then [Wait] else [];
    var es := Section(flags, found, p);
    assert es == front || es == front + TxsOf(p, found);
    hide Section;
    forall e | e in es
      ensures e == Wait || e in TxsOf(p, found)
    {
    }
  }

  lemma PlainBefore(flags: Flags, found: Findings)
    ensures Plain(Before(flags, found))
    ensures forall e | e in Before(flags, found) && e.Land? :: Index(PhaseOf(e.tx)) < 3
  {
    hide Section;
    SectionPlain(flags, found, W1);
    SectionPlain(flags, found, W2);
    SectionPlain(flags, found, W3);
  }

  lemma PlainAfter(flags: Flags, found: Findings)
    ensures Plain(Todo(flags, found, 4))
  {
    hide Section;
    PhaseList();
    assert PHASES[4] == W5 && PHASES[5] == W6 && PHASES[6] == W7;
    SectionPlain(flags, found, W5);
    SectionPlain(flags, found, W6);
    SectionPlain(flags, found, W7);
    var d, e, f := Section(flags, found, W5), Section(flags, found, W6), Section(flags, found, W7);
    assert Todo(flags, found, 7) == [];
    assert Todo(flags, found, 4) == d + (e + (f + []));
  }

  lemma AttemptKeepsProposal(s: State, resuming: bool, refreshExposure: bool, answers: Answers, budget: nat,
          spoils: bool)
    requires Sound(s)
    ensures OneProposal(AttemptOf(s, Everything(s, resuming, refreshExposure), answers, budget, spoils))
  {
    hide Exec, Section, Todo, Before, Landed, WaiverWasted, Everything, PlanRun;
    hide Placed, OneAttemptAPhase, InScriptOrder, NoGaps, VaultOk;
    var flags := Everything(s, resuming, refreshExposure);
    var begun := s.(attempts := s.attempts + 1);
    SamePlace(s, begun);
    assert OneProposal(begun);
    if Preflight(s, flags, answers).None? {
      var found, course := Found(s, flags, answers), CourseOf(flags, answers, spoils);
      TodoParts(flags, found);
      PlainBefore(flags, found);
      PlainAfter(flags, found);
      var before := Before(flags, found);
      var waiver, after := Section(flags, found, W4), Todo(flags, found, 4);
      ExecConcat(begun, budget, course, before, waiver + after);
      PlainKeepsProposal(begun, budget, course, before);
      var one := Exec(begun, budget, course, before);
      if !one.stopped {
        PreparedBefore(s, one.state, resuming, refreshExposure, found, budget, course);
        ExecConcat(one.state, one.left, course, waiver, after);
        AdoptsTheWaiver(s, resuming, refreshExposure);
        WaiverSection(one.state, one.left, course, flags, found);
        var two := Exec(one.state, one.left, course, waiver);
        if !two.stopped {
          PlainKeepsProposal(two.state, two.left, course, after);
        }
      }
    }
  }

  lemma AdoptsTheWaiver(s: State, resuming: bool, refreshExposure: bool)
    ensures Everything(s, resuming, refreshExposure).adoptWaiver == Landed(s, Waiver)
  {
  }

  /** By W-4, something of every phase before it has landed. */
  lemma PreparedBefore(s: State, at: State, resuming: bool, refreshExposure: bool, found: Findings, budget: nat,
          course: Course)
    requires OneProposal(s)
    requires var before := Before(Everything(s, resuming, refreshExposure), found);
             var r := Exec(s.(attempts := s.attempts + 1), budget, course, before);
             r.state == at && !r.stopped
    ensures Prepared(at)
  {
    hide Exec, Section, Landed, WaiverWasted, PlanRun, Reaches, Everything, OneProposal, Before;
    var begun, before := s.(attempts := s.attempts + 1), Before(Everything(s, resuming, refreshExposure), found);
    SamePlace(s, begun);
    MinedMeansLanded(s);
    ExecLands(begun, budget, course, before);
    InBefore(s, at, resuming, refreshExposure, found, W1);
    InBefore(s, at, resuming, refreshExposure, found, W2);
    InBefore(s, at, resuming, refreshExposure, found, W3);
  }

  lemma InBefore(s: State, at: State, resuming: bool, refreshExposure: bool, found: Findings, p: Phase)
    requires p.W1? || p.W2? || p.W3?
    requires forall tx :: Landed(s, tx) ==> Landed(at, tx)
    requires var before := Before(Everything(s, resuming, refreshExposure), found);
             forall tx :: Land(tx) in before ==> Landed(at, tx)
    ensures Reaches(at, p)
  {
    hide Section, Landed, PlanRun, Reaches, Everything;
    if Reaches(s, p) {
      var tx := ReachedBy(s, p);
      LandedReaches(at, tx);
    } else {
      SectionHas(s, resuming, refreshExposure, found, p);
      RequiredOf(p);
      var tx :| tx in Required(p);
      assert Sends(s, Everything(s, resuming, refreshExposure), p);
      assert Land(tx) in Before(Everything(s, resuming, refreshExposure), found);
      LandedReaches(at, tx);
    }
  }

  lemma WaiverSection(s: State, left: nat, course: Course, flags: Flags, found: Findings)
    requires OneProposal(s) && found.open == s.open && Prepared(s)
    requires flags.adoptWaiver == Landed(s, Waiver) && (flags.adoptWaiver ==> !s.open)
    ensures var r := Exec(s, left, course, Section(flags, found, W4));
            OneProposal(r.state) && (!r.stopped ==> Landed(r.state, Waiver) && !r.state.open)
  {
    hide Exec, Landed, WaiverWasted, Reaches, PlanRun, Waiving, OneProposal, Prepared;
    ExecConcat(s, left, course, [Assess], Waiving(flags.adoptWaiver, found));
    Assessed(s, left, course);
    var at := Exec(s, left, course, [Assess]);
    if !at.stopped {
      if Landed(s, Waiver) {
        assert Waiving(true, found) == [] by { NothingToWaive(found); }
        ExecNothing(s, at.left, course);
      } else {
        WaiverKeepsProposal(s, at.left, course, found);
      }
    }
  }

  lemma NothingToWaive(found: Findings)
    ensures Waiving(true, found) == []
  {
  }

  lemma Assessed(s: State, left: nat, course: Course)
    ensures var r := Exec(s, left, course, [Assess]);
            && r.state == s && (r.stopped <==> Throws(s, course, Assess) || left == 0)
            && (!r.stopped ==> r.left == left - 1)
  {
  }

  // ---- Any history -------------------------------------------------------------------------------------------

  lemma AttemptKeeps(s: State, resuming: bool, refreshExposure: bool, answers: Answers, budget: nat, spoils: bool)
    requires Sound(s)
    ensures Sound(AttemptOf(s, Everything(s, resuming, refreshExposure), answers, budget, spoils))
  {
    hide Exec, Todo, Everything, Preflight, Ready, OneProposal, PlanRun, Landed;
    var flags := Everything(s, resuming, refreshExposure);
    var found, course := Found(s, flags, answers), CourseOf(flags, answers, spoils);
    var begun := s.(attempts := s.attempts + 1);
    SamePlace(s, begun);
    assert Placed(begun);
    hide Placed, OneAttemptAPhase, InScriptOrder, NoGaps;
    EverythingReady(s, resuming, refreshExposure, found);
    MinedMeansLanded(s);
    ExecPlaced(begun, budget, course, Todo(flags, found, 0));
    ExecVault(begun, budget, course, Todo(flags, found, 0));
    AttemptKeepsProposal(s, resuming, refreshExposure, answers, budget, spoils);
    assert Placed(AttemptOf(s, flags, answers, budget, spoils));
    PlacedIs(AttemptOf(s, flags, answers, budget, spoils));
  }

  lemma PlacedIs(s: State)
    requires Placed(s)
    ensures OneAttemptAPhase(s) && InScriptOrder(s) && NoGaps(s) && Numbered(s)
  {
  }

  lemma MinedMeansLanded(s: State)
    requires OneProposal(s)
    ensures s.mined ==> Landed(s, Waiver)
  {
  }

  /** What the vault's answers do to the covenant. */
  lemma ReplyKeeps(v: Vault, needed: int, tx: Tx)
    requires v.active ==> v.covenant == Waived
    requires ReplyTo(v, needed, tx).Mined?
    ensures var r := ReplyTo(v, needed, tx);
            && (r.vault.active ==> r.vault.covenant == Waived)
            && (r.vault.covenant == Waived ==>
                if tx == Waiver && r.asserted then r.vault.before == Cure || r.vault.before == Breach
                else v.covenant == Waived && r.vault.before == v.before)
            && (tx == LastSync && r.asserted ==> r.vault.covenant == Cure)
  {
  }

  /** The waiver of a run lands before its last sync, so the vault is waived only in between. */
  lemma VaultStep(s: State, course: Course, es: seq<Effect>)
    requires es != [] && Ready(s, es) && VaultOk(s) && (s.mined ==> Landed(s, Waiver))
    requires !Throws(s, course, es[0])
    ensures VaultOk(Perform(s, course, es[0]))
  {
    hide Landed, Ready, ReplyTo, WaiverWasted;
    var e := es[0];
    PerformLands(s, course, e);
    if e.Land? {
      assert e in es;
      NotYetMined(s, es);
      LandedBelow(s, e.tx, es);
      ReplyKeeps(s.vault, course.needed, e.tx);
    }
  }

  lemma LandedBelow(s: State, tx: Tx, es: seq<Effect>)
    requires Ready(s, es) && Land(tx) in es
    ensures forall t :: Landed(s, t) ==> Rank(t) < Rank(tx)
  {
    hide Rank;
  }

  lemma {:induction false} ExecVault(s: State, left: nat, course: Course, es: seq<Effect>)
    requires Ready(s, es) && VaultOk(s) && (s.mined ==> Landed(s, Waiver))
    ensures VaultOk(Exec(s, left, course, es).state)
    decreases |es|
  {
    hide Ready, Throws, Fails, Landed, VaultOk, Perform;
    if es != [] && !Throws(s, course, es[0]) {
      if left == 0 {
        if course.spoils && es[0].Land? { SpoiledVault(s, es[0].tx); }
      } else {
        MinedHasLanded(s, course, es[0]);
        VaultStep(s, course, es);
        if !Fails(s, course, es[0]) {
          Advances(s, course, es);
          ExecVault(Perform(s, course, es[0]), left - 1, course, es[1..]);
        }
      }
    }
  }

  lemma SpoiledVault(s: State, tx: Tx)
    requires VaultOk(s)
    ensures VaultOk(Sending(s, tx, false))
  {
    ChainMembers(s, tx, false);
    hide Landed;
  }

  lemma Advances(s: State, course: Course, es: seq<Effect>)
    requires es != [] && Ready(s, es) && (s.mined ==> Landed(s, Waiver))
    requires !Throws(s, course, es[0]) && !Fails(s, course, es[0])
    ensures Ready(Perform(s, course, es[0]), es[1..])
  {
    hide Ready, Landed, Throws, Fails, Perform;
    NotYetMined(s, es);
    assert es[0] in es;
    PerformSends(s, course, es[0]);
    if es[0].Land? {
      SendReady(s, es);
      Unmoved(Sending(s, es[0].tx, true), Perform(s, course, es[0]), es[1..]);
    } else {
      TailReady(s, es);
      Unmoved(s, Perform(s, course, es[0]), es[1..]);
    }
  }

  lemma ApplyKeeps(s: State, event: Event)
    requires Sound(s)
    ensures Sound(Apply(s, event))
  {
    hide AttemptOf, Everything, Reaches, Landed, WaiverWasted;
    match event {
      case Attempt(resuming, refreshExposure, answers, budget, spoils) =>
        AttemptKeeps(s, resuming, refreshExposure, answers, budget, spoils);
      case ExecuteElsewhere =>
        if s.open && !WaiverWasted(s) { ElsewhereKeeps(s); }
      case _ =>
        Unmoved(s, Apply(s, event), []);
        SamePlace(s, Apply(s, event));
    }
  }

  /** While the proposal is open nothing later than W-4 was sent, so the waiver may land. */
  lemma ElsewhereKeeps(s: State)
    requires Sound(s) && s.open && !WaiverWasted(s)
    ensures Sound(Elsewhere(s))
  {
    hide OneAttemptAPhase, InScriptOrder, NoGaps, Numbered, Landed, WaiverWasted, Reaches, Ready;
    var done := Elsewhere(s);
    if s.mined {
      SamePlace(s, done);
      Unmoved(s, done, []);
    } else {
      var asserted := CreateWaiver(s.vault).Some?;
      WaiverReady(s);
      SendPlaced(s, [Land(Waiver), Record], asserted);
      Unmoved(Sending(s, Waiver, asserted), done, []);
      SamePlace(Sending(s, Waiver, asserted), done);
      ChainMembers(s, Waiver, asserted);
      NotAtTheEnd(s);
      hide Prepared;
    }
  }

  lemma NotAtTheEnd(s: State)
    requires Sound(s) && s.open
    ensures !Landed(s, LastSync)
    ensures forall x | x in s.chain :: Index(PhaseOf(x.tx)) <= 3
  {
  }

  lemma WaiverReady(s: State)
    requires Sound(s) && s.open && !s.mined
    ensures Ready(s, [Land(Waiver), Record])
  {
    hide NoGaps, OneAttemptAPhase, InScriptOrder, WaiverWasted;
    forall x | x in s.chain
      ensures Index(PhaseOf(x.tx)) <= 3
      ensures x.asserted ==> Rank(x.tx) < Rank(Waiver) && PhaseOf(x.tx) != W4
    {
    }
    forall q | Index(q) < 3
      ensures Reaches(s, q)
    {
      hide Reaches;
      assert q.W1? || q.W2? || q.W3?;
    }
  }

  lemma {:induction false} HistoryKeeps(s: State, events: seq<Event>)
    requires Sound(s)
    ensures Sound(History(s, events))
    decreases |events|
  {
    hide Sound, Apply;
    if events != [] {
      ApplyKeeps(s, events[0]);
      HistoryKeeps(Apply(s, events[0]), events[1..]);
    }
  }

  lemma FreshIsSound(vault: Vault)
    requires vault.covenant != Waived && !vault.active
    ensures Sound(Fresh(vault))
  {
  }

  /**
   * Over any number of attempts from a vault that is not waived, killed after any effect, each adopting
   * everything that landed, with waivers lapsing or revoked, cover, covenant and balance changing, intents
   * closing and actions executed elsewhere in between: once anything of a phase landed no later attempt
   * sends that phase again, phases are sent in order, nothing lands twice, and there is no second proposal
   * unless Privy closed the first.
   */
  lemma RunIsOrderly(vault: Vault, events: seq<Event>)
    requires vault.covenant != Waived && !vault.active
    ensures var s := History(Fresh(vault), events);
            OneAttemptAPhase(s) && InScriptOrder(s) && NoGaps(s) && s.proposals <= s.closed + 1
  {
    FreshIsSound(vault);
    HistoryKeeps(Fresh(vault), events);
  }

  /** If every receipt is the one asserted, no phase is sent in two attempts. */
  lemma NoPhaseTwice(vault: Vault, events: seq<Event>, i: nat, j: nat)
    requires vault.covenant != Waived && !vault.active
    requires var s := History(Fresh(vault), events);
             && i < |s.chain| && j < |s.chain| && (forall x | x in s.chain :: x.asserted)
             && PhaseOf(s.chain[i].tx) == PhaseOf(s.chain[j].tx)
    ensures var s := History(Fresh(vault), events); s.chain[i].attempt == s.chain[j].attempt
  {
    hide History, NoGaps, InScriptOrder;
    RunIsOrderly(vault, events);
    var s := History(Fresh(vault), events);
    assert s.chain[i] in s.chain && s.chain[j] in s.chain;
  }

  // ---- What lands --------------------------------------------------------------------------------------------

  /** What a phase is there for. */
  function Required(p: Phase): (txs: set<Tx>) {
    match p
    case W1 => {FirstDraw}
    case W2 => {Hedge, FirstSync}
    case W3 => {RefusedDraw}
    case W4 => {Waiver}
    case W5 => {SecondDraw}
    case W6 => {LastSync}
    case W7 => {Exposure}
  }

  ghost predicate Whole(s: State, p: Phase) {
    (forall tx | tx in Required(p) :: Landed(s, tx)) && (p == W4 ==> !s.open)
  }

  predicate Wanted(p: Phase, refreshExposure: bool) {
    p != W7 || refreshExposure
  }

  lemma LandedReaches(s: State, tx: Tx)
    requires Landed(s, tx)
    ensures Reaches(s, PhaseOf(tx))
  {
  }

  /** Nothing lands but what is to be sent; and a process that is not stopped lands all of it. */
  lemma {:induction false} ExecLands(s: State, left: nat, course: Course, es: seq<Effect>)
    requires s.mined ==> Landed(s, Waiver)
    ensures var r := Exec(s, left, course, es);
            && (forall tx :: Landed(s, tx) ==> Landed(r.state, tx))
            && (forall tx :: Landed(r.state, tx) ==> Landed(s, tx) || Land(tx) in es)
            && (!r.stopped ==> r.left == left - |es| && forall tx :: Land(tx) in es ==> Landed(r.state, tx))
            && (r.state.mined ==> Landed(r.state, Waiver))
            && (WaiverWasted(s) && !Landed(s, Waiver) ==> !Landed(r.state, Waiver))
    decreases |es|
  {
    hide Throws, Fails, Sending, Perform, Again;
    if es != [] && !Throws(s, course, es[0]) {
      assert forall e :: e in es <==> e == es[0] || e in es[1..];
      MinedHasLanded(s, course, es[0]);
      PerformLands(s, course, es[0]);
      if es[0].Land? { SpoiledLands(s, es[0].tx); }
      OnlyLandsFail(s, course, es[0]);
      WastedStops(s, course, es[0]);
      hide Landed, WaiverWasted, Spoiled;
      if left > 0 && !Fails(s, course, es[0]) {
        ExecLands(Perform(s, course, es[0]), left - 1, course, es[1..]);
      }
    }
  }

  lemma WastedStops(s: State, course: Course, e: Effect)
    ensures WaiverWasted(s) && e == Land(Waiver) ==> Throws(s, course, e)
  {
  }

  lemma SpoiledLands(s: State, tx: Tx)
    ensures forall t :: Landed(Spoiled(s, tx), t) <==> Landed(s, t)
    ensures Spoiled(s, tx).mined == s.mined
  {
    ChainMembers(s, tx, false);
    SamePlace(Sending(s, tx, false), Spoiled(s, tx));
  }

  lemma PerformLands(s: State, course: Course, e: Effect)
    requires !Throws(s, course, e) && (s.mined ==> Landed(s, Waiver))
    ensures forall tx :: Landed(Perform(s, course, e), tx) <==> Landed(s, tx) || (e == Land(tx) && !Fails(s, course, e))
    ensures WaiverWasted(Perform(s, course, e)) <==> WaiverWasted(s) || (e == Land(Waiver) && Fails(s, course, e))
  {
    var s' := Perform(s, course, e);
    if !Again(s, e) {
      PerformSends(s, course, e);
      if e.Land? { ChainMembers(s, e.tx, !Fails(s, course, e)); }
      SamePlace(if e.Land? then Sending(s, e.tx, !Fails(s, course, e)) else s, s');
      OnlyLandsFail(s, course, e);
      hide Landed, WaiverWasted, Throws, Fails, Perform;
    }
  }

  lemma SectionHas(s: State, resuming: bool, refreshExposure: bool, found: Findings, p: Phase)
    ensures var flags := Everything(s, resuming, refreshExposure);
            Sends(s, flags, p) ==> forall tx | tx in Required(p) :: Land(tx) in Section(flags, found, p)
  {
    hide PlanRun, Everything, Sends;
    var flags := Everything(s, resuming, refreshExposure);
    EverythingPlan(s, resuming, refreshExposure);
    WaiverSends(s, resuming, refreshExposure);
    if Sends(s, flags, p) {
      RequiredSent(found, p);
      var es := Section(flags, found, p);
      hide TxsOf, Required;
      assert forall e | e in TxsOf(p, found) :: e in es;
    }
  }

  lemma RequiredSent(found: Findings, p: Phase)
    ensures forall tx | tx in Required(p) :: Land(tx) in TxsOf(p, found)
  {
    var es := TxsOf(p, found);
    assert p == W1 ==> es[|es| - 1] == Land(FirstDraw);
    assert p == W2 ==> es[0] == Land(Hedge) && es[1] == Land(FirstSync);
    assert p != W1 && p != W2 ==> Required(p) == {es[0].tx};
  }

  lemma {:induction false} TodoHas(s: State, resuming: bool, refreshExposure: bool, found: Findings, k: nat)
    requires k <= 7
    ensures var flags := Everything(s, resuming, refreshExposure);
            forall p, tx | Index(p) >= k && Sends(s, flags, p) && tx in Required(p) :: Land(tx) in Todo(flags, found, k)
    decreases 7 - k
  {
    hide Section, Everything, Sends, Required;
    PhaseList();
    if k < 7 {
      SectionHas(s, resuming, refreshExposure, found, PHASES[k]);
      TodoHas(s, resuming, refreshExposure, found, k + 1);
      var flags := Everything(s, resuming, refreshExposure);
      forall p, tx | Index(p) >= k && Sends(s, flags, p) && tx in Required(p)
        ensures Land(tx) in Todo(flags, found, k)
      {
        if Index(p) == k { SameIndex(p, PHASES[k]); }
      }
    }
  }

  lemma RequiredOf(p: Phase)
    ensures Required(p) != {} && forall tx | tx in Required(p) :: PhaseOf(tx) == p
  {
  }

  lemma ReachedBy(s: State, p: Phase) returns (tx: Tx)
    requires Reaches(s, p)
    ensures PhaseOf(tx) == p && Landed(s, tx)
  {
    var x :| x in s.chain && PhaseOf(x.tx) == p && x.asserted;
    tx := x.tx;
  }
}
