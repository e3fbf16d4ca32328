// When an interrupted waiver run can be taken up again, and kills after which it cannot be finished.
module WaiverRunResumes {
  import opened Outcomes
  import opened RunPlan
  import opened Vaults
  import opened WaiverRun
  import opened WaiverRunLaws
  import opened WaiverRunEnds

  /**
   * Whatever flags are given, an attempt is accepted exactly when the chain is otherwise ready, no waiver is
   * active, and the covenant is: compliant, no proposal is open, and a draw is covered or yet to be funded;
   * in cure, and the proposal is open; or waived, and the waiver is recorded.
   */
  lemma ResumableExactlyWhen(s: State, answers: Answers)
    requires Sound(s)
    ensures (exists flags :: Preflight(s, flags, answers).None?) <==>
      && answers.ready && !s.vault.active
      && match s.vault.covenant {
           case Compliant => !s.open && (s.vault.covered || s.vault.draws < 2)
           case Cure => s.open
           case Waived => !s.open
           case Breach => false
           case Unassessed => false
         }
  {
    hide Reaches, OneAttemptAPhase, InScriptOrder, NoGaps, WaiverWasted;
    var anew, adopted := Flags(false, {}, false, false), Flags(false, {}, true, false);
    var resumed := Flags(true, {W1}, false, false);
    assert Preflight(s, anew, answers).None? || Preflight(s, resumed, answers).None? || Preflight(s, adopted, answers).None?
      ==> exists flags :: Preflight(s, flags, answers).None?;
  }

  // ---- By the chain alone ------------------------------------------------------------------------------------

  /** Where the run's own transactions leave the covenant. */
  function CovenantOf(s: State): (c: Covenant) {
    if Landed(s, LastSync) then Cure
    else if Landed(s, Waiver) then Waived
    else if Landed(s, FirstSync) then Cure
    else Compliant
  }

  /** Nobody else touches the covenant or the cover, and no cure period runs out. */
  predicate Quiet(event: Event) {
    match event
    case Attempt(_, _, answers, _, _) => answers.outlasts
    case Lapse => true
    case BalanceChanges(_) => true
    case Close => true
    case ExecuteElsewhere => true
    case _ => false
  }

  /** A facility in order before the run: compliant, and short of cover once the run replaces its hedge. */
  predicate InOrder(v: Vault) {
    v.covenant == Compliant && !v.active && !v.late && v.covered && !v.backed
  }

  /**
   * In a quiet history the transactions of the run tell: before the first sync no proposal may be open;
   * between the first sync and the waiver the proposal must be open; from the waiver to the last sync the
   * waiver must be recorded. After the last sync no attempt is accepted.
   */
  lemma ResumableByTheChain(vault: Vault, events: seq<Event>, answers: Answers)
    requires InOrder(vault) && forall e | e in events :: Quiet(e)
    ensures var s := History(Fresh(vault), events);
            (exists flags :: Preflight(s, flags, answers).None?) <==>
            && answers.ready && !s.vault.active && !Landed(s, LastSync)
            && (if Landed(s, Waiver) then !s.open
                else if Landed(s, FirstSync) then s.open
                else !s.open && (!Landed(s, Hedge) || s.vault.draws < 2))
  {
    hide History, Preflight, Landed, Reaches, Sound;
    var s := History(Fresh(vault), events);
    FreshIsSound(vault);
    HistoryKeeps(Fresh(vault), events);
    assert Follows(Fresh(vault)) by { NothingLanded(vault); }
    HistoryFollows(Fresh(vault), events);
    ResumableExactlyWhen(s, answers);
    if Landed(s, LastSync) { LastMeansRecorded(s); }
  }

  lemma NothingLanded(vault: Vault)
    ensures forall tx :: !Landed(Fresh(vault), tx)
  {
  }

  lemma LastMeansRecorded(s: State)
    requires Sound(s) && Landed(s, LastSync)
    ensures !s.open
  {
  }

  /** The covenant and the cover are where the run's own transactions left them. */
  ghost predicate Follows(s: State) {
    && s.vault.covenant == CovenantOf(s) && !s.vault.late && !s.vault.backed
    && (s.vault.covered <==> !Landed(s, Hedge))
    && (Landed(s, Waiver) ==> Landed(s, Hedge) && s.vault.before == Cure)
  }

  lemma {:induction false} HistoryFollows(s: State, events: seq<Event>)
    requires Sound(s) && Follows(s) && forall e | e in events :: Quiet(e)
    ensures Follows(History(s, events))
    decreases |events|
  {
    hide Sound, Follows, Apply, Quiet;
    if events != [] {
      assert events[0] in events && forall e | e in events[1..] :: e in events;
      ApplyKeeps(s, events[0]);
      ApplyFollows(s, events[0]);
      HistoryFollows(Apply(s, events[0]), events[1..]);
    }
  }

  lemma ApplyFollows(s: State, event: Event)
    requires Sound(s) && Follows(s) && Quiet(event)
    ensures Follows(Apply(s, event))
  {
    hide Exec, Todo, Preflight, Everything, Landed, WaiverWasted, Reaches;
    hide Ready, OneAttemptAPhase, InScriptOrder, NoGaps, Elsewhere;
    match event {
      case Attempt(resuming, refreshExposure, answers, budget, spoils) =>
        var begun, flags := s.(attempts := s.attempts + 1), Everything(s, resuming, refreshExposure);
        var found := Found(s, flags, answers);
        SamePlace(s, begun);
        MinedMeansLanded(s);
        EverythingReady(s, resuming, refreshExposure, found);
        ExecFollows(begun, budget, CourseOf(flags, answers, spoils), Todo(flags, found, 0));
      case ExecuteElsewhere =>
        if s.open && !WaiverWasted(s) { ElsewhereFollows(s); }
      case _ => SamePlace(s, Apply(s, event));
    }
  }

  lemma ElsewhereFollows(s: State)
    requires Sound(s) && Follows(s) && s.open
    ensures Follows(Elsewhere(s))
  {
    hide Landed, OneAttemptAPhase, InScriptOrder, NoGaps, WaiverWasted, Reaches, Prepared;
    if s.mined {
      SamePlace(s, Elsewhere(s));
    } else {
      var asserted := CreateWaiver(s.vault).Some?;
      ChainMembers(s, Waiver, asserted);
      SamePlace(Sending(s, Waiver, asserted), Elsewhere(s));
      NotAtTheEnd(s);
    }
  }

  lemma {:induction false} ExecFollows(s: State, left: nat, course: Course, es: seq<Effect>)
    requires Ready(s, es) && Follows(s) && VaultOk(s) && (s.mined ==> Landed(s, Waiver)) && course.outlasts
    ensures Follows(Exec(s, left, course, es).state)
    decreases |es|
  {
    hide Ready, Throws, Fails, Landed, Follows, VaultOk, Perform;
    if es != [] && !Throws(s, course, es[0]) {
      if left == 0 {
        if course.spoils && es[0].Land? { SpoiledFollows(s, es[0].tx); }
      } else {
        MinedHasLanded(s, course, es[0]);
        PerformFollows(s, course, es);
        VaultStep(s, course, es);
        if !Fails(s, course, es[0]) {
          Advances(s, course, es);
          ExecFollows(Perform(s, course, es[0]), left - 1, course, es[1..]);
        }
      }
    }
  }

  lemma SpoiledFollows(s: State, tx: Tx)
    requires Follows(s)
    ensures Follows(Spoiled(s, tx))
  {
    SpoiledLands(s, tx);
    hide Landed;
  }

  /** What lands is the latest of the run, so what it leaves is what the chain tells. */
  lemma PerformFollows(s: State, course: Course, es: seq<Effect>)
    requires es != [] && Ready(s, es) && Follows(s) && VaultOk(s) && (s.mined ==> Landed(s, Waiver)) && course.outlasts
    requires !Throws(s, course, es[0])
    ensures Follows(Perform(s, course, es[0]))
  {
    hide Landed, Ready, WaiverWasted, Reaches;
    PerformLands(s, course, es[0]);
    if es[0].Land? {
      assert es[0] in es;
      NotYetMined(s, es);
      LandedBelow(s, es[0].tx, es);
      BehindTheNext(s, es);
    }
  }

  lemma BehindTheNext(s: State, es: seq<Effect>)
    requires es != [] && Ready(s, es) && es[0].Land?
    ensures Index(PhaseOf(es[0].tx)) > 3 ==> Landed(s, Waiver)
  {
    ReachesWaiver(s);
    hide Landed, Reaches;
    assert Index(W4) == 3;
  }

  // ---- Kills that leave a run unfinished -----------------------------------------------------------------------

  const FUNDED := Vault(Compliant, Compliant, false, false, true, false, 2)
  const UNFUNDED := Vault(Compliant, Compliant, false, false, true, false, 0)
  const FINE := Answers(false, true, true, true)

  function KilledAfter(effects: nat): (events: seq<Event>) {
    [Attempt(false, false, FINE, effects, false), Lapse]
  }

  function RestoredAfter(effects: nat, backed: bool): (events: seq<Event>) {
    [Attempt(false, false, FINE, effects, false), CoverChanges(true, backed), Resync]
  }

  /**
   * An attempt killed between the mining of the waiver and its record. Until somebody executes the action
   * elsewhere no attempt is accepted; and nothing more is sent even then.
   */
  lemma KilledBeforeTheRecord(answers: Answers, events: seq<Event>)
    requires answers.ready
    ensures var s := History(Fresh(FUNDED), KilledAfter(7));
            && Sound(s) && Landed(s, Waiver) && s.open && !s.vault.active
            && (forall flags :: Preflight(s, flags, answers).Some?)
            && (exists flags :: Preflight(Apply(s, ExecuteElsewhere), flags, answers).None?)
            && History(s, events).chain == s.chain
  {
    hide History, Preflight, Landed, Reaches, Sound, Apply;
    var s := History(Fresh(FUNDED), KilledAfter(7));
    LeftByTheFirst(7);
    SentByTheFirst(s);
    ResumableExactlyWhen(s, answers);
    ApplyKeeps(s, ExecuteElsewhere);
    ElsewhereRecords(s);
    ResumableExactlyWhen(Apply(s, ExecuteElsewhere), answers);
    TooLateForTheDraw(s, events);
  }

  lemma ElsewhereRecords(s: State)
    requires OneProposal(s) && s.open && Landed(s, Waiver)
    ensures Apply(s, ExecuteElsewhere) == s.(open := false, mined := false)
  {
  }

  /**
   * An attempt killed between W-4 and W-5: the kill falls between phases, every phase reached is whole, and
   * once the waiver lapsed an attempt is accepted. Yet the second draw never lands, and nothing after it.
   */
  lemma KilledBeforeTheDraw(answers: Answers, events: seq<Event>)
    requires answers.ready
    ensures var s := History(Fresh(FUNDED), KilledAfter(8));
            && Sound(s) && Landed(s, Waiver) && !s.open && !s.vault.active && !Reaches(s, W5)
            && (forall p | Reaches(s, p) :: Whole(s, p))
            && (exists flags :: Preflight(s, flags, answers).None?)
            && History(s, events).chain == s.chain
  {
    hide History, Preflight, Landed, Reaches, Sound;
    var s := History(Fresh(FUNDED), KilledAfter(8));
    LeftByTheFirst(8);
    SentByTheFirst(s);
    ResumableExactlyWhen(s, answers);
    TooLateForTheDraw(s, events);
  }

  /**
   * An attempt killed between W-2 and W-3, after which others restore cover and have the covenant evaluated:
   * every phase reached is whole and a new attempt is accepted. Yet nothing lands until cover changes again.
   */
  lemma CoverRestoredBeforeTheRefusal(answers: Answers, backed: bool, events: seq<Event>)
    requires answers.ready && forall e | e in events :: !e.CoverChanges?
    ensures var s := History(Fresh(FUNDED), RestoredAfter(3, backed));
            && Sound(s) && !s.open && Reaches(s, W2) && !Reaches(s, W3)
            && (forall p | Reaches(s, p) :: Whole(s, p))
            && Preflight(s, Everything(s, false, false), answers).None?
            && forall tx :: Landed(History(s, events), tx) <==> Landed(s, tx)
  {
    hide History, Everything, Sound, Landed, Reaches, Preflight;
    var s := History(Fresh(FUNDED), RestoredAfter(3, backed));
    FreshIsSound(FUNDED);
    HistoryKeeps(Fresh(FUNDED), RestoredAfter(3, backed));
    RestoredAfterTheFirst(backed);
    HedgedByTheFirst(s);
    AcceptedAgain(s, answers);
    NothingLandsWhileCovered(s, events);
  }

  lemma RestoredAfterTheFirst(backed: bool)
    ensures History(Fresh(FUNDED), RestoredAfter(3, backed))
         == State(SENT[..3], FUNDED.(backed := backed, draws := 1), false, false, 1, 0, 0)
  {
    hide AttemptOf, Everything;
    var events := RestoredAfter(3, backed);
    var first := Apply(Fresh(FUNDED), events[0]);
    FirstAttempt(3);
    assert events[1..] == [CoverChanges(true, backed), Resync];
    TwoEvents(first, events[1..]);
    assert History(Fresh(FUNDED), events) == History(first, events[1..]);
  }

  lemma OneEvent(s: State, events: seq<Event>)
    requires |events| == 1
    ensures History(s, events) == Apply(s, events[0])
  {
    hide Apply;
    assert events[1..] == [];
  }

  lemma TwoEvents(s: State, events: seq<Event>)
    requires |events| == 2
    ensures History(s, events) == Apply(Apply(s, events[0]), events[1])
  {
    hide Apply;
    OneEvent(Apply(s, events[0]), events[1..]);
  }

  lemma HedgedByTheFirst(s: State)
    requires s.chain == SENT[..3]
    ensures forall tx :: Landed(s, tx) <==> tx in {FirstDraw, Hedge, FirstSync}
    ensures forall p :: Reaches(s, p) <==> p in {W1, W2}
  {
    assert SENT[..3] == [SENT[0], SENT[1], SENT[2]];
    assert SENT[0].tx == FirstDraw && SENT[1].tx == Hedge && SENT[2].tx == FirstSync;
    assert forall i | 0 <= i < 3 :: SENT[i] in s.chain;
  }

  lemma AcceptedAgain(s: State, answers: Answers)
    requires answers.ready && s.vault.covenant == Compliant && !s.vault.active && !s.open && s.vault.draws < 2
    requires !Landed(s, Waiver)
    ensures Preflight(s, Everything(s, false, false), answers).None?
  {
    hide Landed, Reaches;
  }

  /** What a first attempt that needs no funding sends, up to its waiver. */
  const SENT := [Sent(FirstDraw, 1, true), Sent(Hedge, 1, true), Sent(FirstSync, 1, true), Sent(RefusedDraw, 1, true),
                 Sent(Waiver, 1, true)]

  function Left(effects: nat): (s: State) {
    if effects == 3 then State(SENT[..3], FUNDED.(covenant := Cure, covered := false, draws := 1), false, false, 1, 0, 0)
    else State(SENT, Vault(Waived, Cure, true, false, false, false, 1), effects == 7, effects == 7, 1, 1, 0)
  }

  lemma LeftByTheFirst(effects: nat)
    requires effects == 7 || effects == 8
    ensures History(Fresh(FUNDED), KilledAfter(effects)) == Left(effects).(vault := Left(effects).vault.(active := false))
    ensures Sound(History(Fresh(FUNDED), KilledAfter(effects)))
  {
    hide AttemptOf, Everything, Sound, Left;
    FirstAttempt(effects);
    var events := KilledAfter(effects);
    TwoEvents(Fresh(FUNDED), events);
    hide History;
    FreshIsSound(FUNDED);
    HistoryKeeps(Fresh(FUNDED), events);
  }

  lemma SentByTheFirst(s: State)
    requires s.chain == SENT
    ensures forall tx :: Landed(s, tx) <==> tx in {FirstDraw, Hedge, FirstSync, RefusedDraw, Waiver}
    ensures forall p :: Reaches(s, p) <==> p in {W1, W2, W3, W4}
  {
    assert SENT[0].tx == FirstDraw && SENT[1].tx == Hedge && SENT[2].tx == FirstSync;
    assert SENT[3].tx == RefusedDraw && SENT[4].tx == Waiver;
    assert forall i | 0 <= i < 5 :: SENT[i] in s.chain;
  }

  const THREE := [Land(FirstDraw), Land(Hedge), Land(FirstSync)]
  const FOUR := [Land(RefusedDraw), Assess, Propose, Land(Waiver)]

  lemma FirstAttempt(effects: nat)
    requires effects == 3 || effects == 7 || effects == 8
    ensures AttemptOf(Fresh(FUNDED), Everything(Fresh(FUNDED), false, false), FINE, effects, false) == Left(effects)
  {
    hide Todo, Exec, Preflight, Everything, Left, Perform;
    var flags, found := Flags(false, {}, false, false), Findings(false, false, false);
    var course := Course(2, true, true, false);
    var begun := Fresh(FUNDED).(attempts := 1);
    FirstAccepted(FUNDED);
    var rest := FirstTodo(found);
    ThreeEffects(effects, course);
    ExecConcat(begun, effects, course, THREE, FOUR + ([Record] + rest));
    if effects == 3 {
      OutOfLife(Left(3), course, FOUR + ([Record] + rest));
    } else {
      FourEffects(effects - 3, course);
      ExecConcat(Left(3), effects - 3, course, FOUR, [Record] + rest);
      if effects == 7 {
        OutOfLife(Left(7), course, [Record] + rest);
      } else {
        RecordGoesOn(Left(7), 1, course);
        ExecConcat(Left(7), 1, course, [Record], rest);
        OutOfLife(Perform(Left(7), course, Record), course, rest);
        assert Perform(Left(7), course, Record) == Left(8) by { RecordedLeft(course); }
      }
    }
  }

  lemma RecordedLeft(course: Course)
    ensures Perform(Left(7), course, Record) == Left(8)
  {
  }

  lemma OutOfLife(s: State, course: Course, es: seq<Effect>)
    requires !course.spoils
    ensures Exec(s, 0, course, es).state == s
  {
  }

  /** The first attempt adopts nothing and is accepted. */
  lemma FirstAccepted(vault: Vault)
    requires vault == FUNDED || vault == UNFUNDED
    ensures Everything(Fresh(vault), false, false) == Flags(false, {}, false, false)
    ensures Preflight(Fresh(vault), Flags(false, {}, false, false), FINE).None?
  {
    assert Everything(Fresh(vault), false, false).adopted == {};
  }

  lemma FirstTodo(found: Findings) returns (rest: seq<Effect>)
    requires found == Findings(false, false, false)
    ensures Todo(Flags(false, {}, false, false), found, 0) == THREE + (FOUR + ([Record] + rest))
  {
    hide Todo, Script, Rest;
    var s := Fresh(FUNDED);
    FirstAccepted(FUNDED);
    FreshIsSound(FUNDED);
    TodoIsScript(s, false, false, found, 0);
    rest := TxsOf(W5, found) + (([Wait] + TxsOf(W6, found)) + []);
    ScriptUnrolled(found);
    WaivingUnrolled(found);
    var a, b, c, d := TxsOf(W1, found), TxsOf(W2, found), TxsOf(W3, found), [Assess] + Waiving(false, found);
    assert a == [Land(FirstDraw)] && b == [Land(Hedge), Land(FirstSync)] && c == [Land(RefusedDraw)];
    assert a + (b + (c + (d + rest))) == (a + b) + ((c + d) + rest);
    assert a + b == THREE;
    assert (c + d) + rest == FOUR + ([Record] + rest);
  }

  lemma WaivingUnrolled(found: Findings)
    requires !found.open
    ensures [Assess] + Waiving(false, found) == [Assess, Propose, Land(Waiver), Record]
  {
  }

  lemma ScriptUnrolled(found: Findings)
    ensures Script(found, 0, false, false)
         == TxsOf(W1, found) + (TxsOf(W2, found) + (TxsOf(W3, found)
            + (([Assess] + Waiving(false, found)) + (TxsOf(W5, found) + (([Wait] + TxsOf(W6, found)) + [])))))
  {
    hide TxsOf, Waiving;
    PhaseList();
    assert PHASES[0] == W1 && PHASES[1] == W2 && PHASES[2] == W3;
    assert Script(found, 2, false, false) == TxsOf(W3, found) + Rest(found, false, false);
  }

  lemma ThreeEffects(left: nat, course: Course)
    requires left >= 3 && course == Course(2, true, true, false)
    ensures Exec(Fresh(FUNDED).(attempts := 1), left, course, THREE) == Progress(Left(3), left - 3, false)
  {
    var begun := Fresh(FUNDED).(attempts := 1);
    var one := Goes(begun, left, course, THREE);
    var two := Goes(one, left - 1, course, THREE[1..]);
    var three := Goes(two, left - 2, course, THREE[2..]);
    assert THREE[1..][1..] == THREE[2..] && THREE[2..][1..] == [];
    ExecNothing(three, left - 3, course);
  }

  lemma FourEffects(left: nat, course: Course)
    requires left >= 4 && course == Course(2, true, true, false)
    ensures Exec(Left(3), left, course, FOUR) == Progress(Left(7), left - 4, false)
  {
    var one := Goes(Left(3), left, course, FOUR);
    var two := Goes(one, left - 1, course, FOUR[1..]);
    var three := Goes(two, left - 2, course, FOUR[2..]);
    var four := Goes(three, left - 3, course, FOUR[3..]);
    assert FOUR[1..][1..] == FOUR[2..] && FOUR[2..][1..] == FOUR[3..] && FOUR[3..][1..] == [];
    ExecNothing(four, left - 4, course);
  }

  lemma Goes(s: State, left: nat, course: Course, es: seq<Effect>) returns (s': State)
    requires es != [] && left > 0 && !Throws(s, course, es[0]) && !Fails(s, course, es[0])
    ensures s' == Perform(s, course, es[0]) && Exec(s, left, course, es) == Exec(s', left - 1, course, es[1..])
  {
    hide Throws, Fails, Perform;
    s' := Perform(s, course, es[0]);
  }

  /** Adopting W-1 by its deposit: the run goes on, and its first draw is never sent. */
  lemma AdoptingTheDepositSkipsTheDraw(events: seq<Event>)
    ensures var s := History(Fresh(UNFUNDED), [Attempt(false, false, FINE, 1, false)]);
            && Preflight(s, Everything(s, false, false), FINE).None?
            && Landed(s, Deposit) && !Landed(History(s, events), FirstDraw)
  {
    hide AttemptOf, Everything, Sound, Preflight, Landed, Reaches;
    var one := [Attempt(false, false, FINE, 1, false)];
    var s := History(Fresh(UNFUNDED), one);
    FreshIsSound(UNFUNDED);
    HistoryKeeps(Fresh(UNFUNDED), one);
    OneEffect();
    OneEvent(Fresh(UNFUNDED), one);
    assert s == Deposited();
    hide History;
    OnlyTheDeposit();
    LandedReaches(s, Deposit);
    SkippedForGood(s, events, FirstDraw);
  }

  function Deposited(): (s: State) {
    State([Sent(Deposit, 1, true)], FUNDED, false, false, 1, 0, 0)
  }

  lemma OnlyTheDeposit()
    ensures forall tx :: Landed(Deposited(), tx) <==> tx == Deposit
    ensures Preflight(Deposited(), Everything(Deposited(), false, false), FINE).None?
  {
    assert Deposited().chain[0] == Sent(Deposit, 1, true);
    assert forall tx :: Landed(Deposited(), tx) <==> tx == Deposit;
    hide Landed, Reaches;
  }

  lemma OneEffect()
    ensures AttemptOf(Fresh(UNFUNDED), Everything(Fresh(UNFUNDED), false, false), FINE, 1, false) == Deposited()
  {
    hide Todo, Exec, Preflight, Everything;
    var flags, found := Flags(false, {}, false, false), Findings(false, true, false);
    var course := Course(2, true, true, false);
    FirstAccepted(UNFUNDED);
    var begun := Fresh(UNFUNDED).(attempts := 1);
    var todo := Todo(flags, found, 0);
    FirstSection(flags, found);
    var s := Goes(begun, 1, course, todo);
    OutOfLife(s, course, todo[1..]);
  }

  lemma FirstSection(flags: Flags, found: Findings)
    requires flags == Flags(false, {}, false, false) && found == Findings(false, true, false)
    ensures var todo := Todo(flags, found, 0); todo != [] && todo[0] == Land(Deposit)
  {
    hide Section, PlanRun;
    FirstAccepted(UNFUNDED);
    SectionIs(Fresh(UNFUNDED), false, false, found, W1);
    PhaseList();
    assert PHASES[0] == W1 && TxsOf(W1, found) == [Land(Deposit), Land(FirstDraw)];
  }
}
