// How a waiver run ends: when an attempt leaves it whole, and where it is stuck.
module WaiverRunEnds {
  import opened Outcomes
  import opened RunPlan
  import opened Vaults
  import opened WaiverRun
  import opened WaiverRunLaws

  // ---- The script over the vault -----------------------------------------------------------------------------

  /** What an effect that goes through does to the vault; nothing where the script stops. */
  function Step(v: Vault, course: Course, e: Effect): (r: Option<Vault>) {
    match e
    case Land(tx) =>
      var reply := ReplyTo(v, course.needed, tx);
      if reply.Mined? && reply.asserted then Some(reply.vault) else None
    case Assess => if v.covered || v.active then None else Some(v)
    case Propose => if course.clear then Some(v) else None
    case Record => Some(v)
    case Wait => Some(v.(active := false, late := v.late || !course.outlasts))
  }

  function Through(v: Vault, course: Course, es: seq<Effect>): (r: Option<Vault>)
    decreases |es|
  {
    if es == [] then Some(v)
    else
      match Step(v, course, es[0])
      case Some(v') => Through(v', course, es[1..])
      case None => None
  }

  lemma {:induction false} ThroughConcat(v: Vault, course: Course, a: seq<Effect>, b: seq<Effect>)
    ensures var first := Through(v, course, a);
            Through(v, course, a + b) == if first.None? then None else Through(first.value, course, b)
    decreases |a|
  {
    if a == [] {
      assert a + b == b;
    } else {
      assert (a + b)[1..] == a[1..] + b;
      hide Step;
      if Step(v, course, a[0]).Some? { ThroughConcat(Step(v, course, a[0]).value, course, a[1..], b); }
    }
  }

  /** A process that lives long enough, with no waiver wasted, is stopped exactly where the vault stops it. */
  lemma {:induction false} ExecThrough(s: State, left: nat, course: Course, es: seq<Effect>)
    requires |es| <= left && !WaiverWasted(s) && (s.mined ==> Landed(s, Waiver) && Land(Waiver) !in es)
    requires forall i, j :: 0 <= i < j < |es| && es[i].Land? && es[j].Land? ==> Rank(es[i].tx) < Rank(es[j].tx)
    ensures Exec(s, left, course, es).stopped <==> Through(s.vault, course, es).None?
    decreases |es|
  {
    hide Landed, WaiverWasted, ReplyTo;
    if es != [] {
      StepIs(s, course, es[0]);
      if !Throws(s, course, es[0]) && !Fails(s, course, es[0]) {
        PerformLands(s, course, es[0]);
        MinedHasLanded(s, course, es[0]);
        NoSecondWaiver(es);
        hide Throws, Fails, Perform, Step;
        assert forall e | e in es[1..] :: e in es;
        ExecThrough(Perform(s, course, es[0]), left - 1, course, es[1..]);
      }
    }
  }

  lemma NoSecondWaiver(es: seq<Effect>)
    requires es != []
    requires forall i, j :: 0 <= i < j < |es| && es[i].Land? && es[j].Land? ==> Rank(es[i].tx) < Rank(es[j].tx)
    ensures es[0] == Land(Waiver) ==> Land(Waiver) !in es[1..]
    ensures var rest := es[1..];
            forall i, j :: 0 <= i < j < |rest| && rest[i].Land? && rest[j].Land? ==> Rank(rest[i].tx) < Rank(rest[j].tx)
  {
    var rest := es[1..];
    forall i | 0 <= i < |rest| && rest[i].Land?
      ensures es[0].Land? ==> rest[i] != es[0]
    {
      assert es[i + 1] == rest[i];
    }
    forall i, j | 0 <= i < j < |rest| && rest[i].Land? && rest[j].Land?
      ensures Rank(rest[i].tx) < Rank(rest[j].tx)
    {
      assert es[i + 1] == rest[i] && es[j + 1] == rest[j];
    }
  }

  lemma StepIs(s: State, course: Course, e: Effect)
    requires !WaiverWasted(s) && !Again(s, e)
    ensures Step(s.vault, course, e).None? <==> Throws(s, course, e) || Fails(s, course, e)
    ensures Step(s.vault, course, e).Some? ==>
      && Perform(s, course, e).vault == Step(s.vault, course, e).value
      && (Perform(s, course, e).mined ==> s.mined || e == Land(Waiver))
  {
  }

  // ---- Phase by phase ----------------------------------------------------------------------------------------

  /** The script from W-4 on; an adopted waiver has its draw behind it. */
  function Rest(found: Findings, adopt: bool, exposure: bool): (es: seq<Effect>) {
    ([Assess] + Waiving(adopt, found))
    + ((if adopt then [] else TxsOf(W5, found))
       + (([Wait] + TxsOf(W6, found)) + (if exposure then TxsOf(W7, found) else [])))
  }

  /** The script with the first k phases behind it. */
  function Script(found: Findings, k: nat, adopt: bool, exposure: bool): (es: seq<Effect>)
    requires k <= 3
    decreases 3 - k
  {
    if k == 3 then Rest(found, adopt, exposure) else TxsOf(PHASES[k], found) + Script(found, k + 1, adopt, exposure)
  }

  lemma FundingGoes(v: Vault, course: Course, found: Findings)
    requires v.covenant == Compliant && !v.active && course.needed == 2 && found.deposit == (v.draws < 2)
    ensures var r := Through(v, course, TxsOf(W1, found));
            && (r.Some? <==> v.covered)
            && (r.Some? ==> r.value == v.(late := false, draws := (if v.draws < 2 then 2 else v.draws) - 1))
  {
    var funded := v.(draws := if v.draws < 2 then 2 else v.draws);
    var draw := [Land(FirstDraw)];
    One(funded, course, Land(FirstDraw));
    hide Through;
    if found.deposit {
      One(v, course, Land(Approve));
      One(v, course, Land(Deposit));
      ThroughConcat(v, course, [Land(Deposit)], draw);
      ThroughConcat(v, course, [Land(Approve)], [Land(Deposit)] + draw);
      assert [Land(Approve)] + ([Land(Deposit)] + draw) == [Land(Approve)] + [Land(Deposit)] + draw;
      assert TxsOf(W1, found)
          == if found.approve then [Land(Approve)] + [Land(Deposit)] + draw else [Land(Deposit)] + draw;
    } else {
      assert TxsOf(W1, found) == draw;
    }
  }

  lemma One(v: Vault, course: Course, e: Effect)
    ensures Through(v, course, [e]) == Step(v, course, e)
  {
    assert [e][1..] == [];
  }

  lemma Two(v: Vault, course: Course, d: Effect, e: Effect)
    ensures var first := Step(v, course, d);
            Through(v, course, [d, e]) == if first.None? then None else Step(first.value, course, e)
  {
    hide Step;
    assert [d, e][1..] == [e];
    if Step(v, course, d).Some? { One(Step(v, course, d).value, course, e); }
  }

  lemma HedgeGoes(v: Vault, course: Course, found: Findings)
    requires v.covenant == Compliant && !v.active
    ensures var r := Through(v, course, TxsOf(W2, found));
            && (r.Some? <==> !v.backed)
            && (r.Some? ==> r.value == v.(covered := false, covenant := Cure, late := false))
  {
    hide Through;
    Two(v, course, Land(Hedge), Land(FirstSync));
  }

  lemma RefusalGoes(v: Vault, course: Course, found: Findings)
    requires !v.active && (v.covenant == Compliant || (v.covenant == Cure && !v.late))
    ensures Through(v, course, TxsOf(W3, found)) == if v.covered then None else Some(v)
  {
    hide Through;
    One(v, course, Land(RefusedDraw));
  }

  lemma WaiverGoes(v: Vault, course: Course, adopt: bool, found: Findings)
    requires !v.active
    ensures var r := Through(v, course, [Assess] + Waiving(adopt, found));
            && (r.Some? <==> !v.covered && (adopt || found.open || course.clear))
            && (r.Some? ==> r == if adopt then Some(v) else CreateWaiver(v))
  {
    hide Through;
    ThroughConcat(v, course, [Assess], Waiving(adopt, found));
    One(v, course, Assess);
    Two(v, course, Land(Waiver), Record);
    One(v, course, Propose);
    ThroughConcat(v, course, [Propose], [Land(Waiver), Record]);
    assert !adopt && !found.open ==> Waiving(adopt, found) == [Propose] + [Land(Waiver), Record];
    assert !adopt && found.open ==> Waiving(adopt, found) == [Land(Waiver), Record];
    Nothing(v, course);
  }

  lemma Nothing(v: Vault, course: Course)
    ensures Through(v, course, []) == Some(v)
  {
  }

  lemma DrawGoes(v: Vault, course: Course, found: Findings)
    requires v.active && !v.covered
    ensures Through(v, course, TxsOf(W5, found)) == if v.draws >= 1 then Some(v.(draws := v.draws - 1)) else None
  {
    hide Through;
    One(v, course, Land(SecondDraw));
  }

  lemma EndGoes(v: Vault, course: Course, found: Findings, exposure: bool)
    requires v.covenant == Waived && !v.covered && (v.before == Cure || v.before == Breach)
    ensures var end := ([Wait] + TxsOf(W6, found)) + (if exposure then TxsOf(W7, found) else []);
            Through(v, course, end).Some? <==> v.before == Cure && !v.late && course.outlasts
  {
    hide Through;
    var last := [Wait] + TxsOf(W6, found);
    assert last == [Wait, Land(LastSync)];
    Two(v, course, Wait, Land(LastSync));
    ThroughConcat(v, course, last, if exposure then TxsOf(W7, found) else []);
    if Through(v, course, last).Some? {
      One(Through(v, course, last).value, course, Land(Exposure));
      Nothing(Through(v, course, last).value, course);
    }
  }

  /** What the vault must be for the rest of the script to go through. */
  predicate Unblocked(v: Vault, course: Course, found: Findings, k: nat, adopt: bool) {
    && (if k < 2 then !v.backed else !v.covered)
    && (k < 1 ==> v.covered)
    && (k >= 1 && !adopt ==> v.draws >= 1)
    && (adopt || found.open || course.clear)
    && course.outlasts && (v.covenant != Compliant ==> !v.late) && (v.covenant == Waived ==> v.before == Cure)
  }

  /** Where the preflight finds the vault. */
  predicate Expected(v: Vault, course: Course, found: Findings, k: nat, adopt: bool) {
    && !v.active && v.covenant == (if adopt then Waived else if found.open then Cure else Compliant)
    && (found.open || adopt ==> k == 3)
    && (adopt ==> v.before == Cure || v.before == Breach)
    && (k < 1 ==> course.needed == 2 && found.deposit == (v.draws < 2))
  }

  lemma FromTheWaiver(v: Vault, course: Course, found: Findings, adopt: bool, exposure: bool)
    requires !v.active && (adopt ==> v.covenant == Waived && (v.before == Cure || v.before == Breach))
    requires !adopt ==> v.covenant == Cure || v.covenant == Compliant
    ensures Through(v, course, Rest(found, adopt, exposure)).Some? <==>
            && !v.covered && (adopt || found.open || course.clear) && (!adopt ==> v.draws >= 1)
            && course.outlasts && (v.covenant != Compliant ==> !v.late) && (v.covenant == Waived ==> v.before == Cure)
  {
    hide Through, TxsOf, Waiving;
    var a, b, c := [Assess] + Waiving(adopt, found), if adopt then [] else TxsOf(W5, found), [Wait] + TxsOf(W6, found);
    var d := if exposure then TxsOf(W7, found) else [];
    assert Rest(found, adopt, exposure) == a + (b + (c + d));
    ThroughConcat(v, course, a, b + (c + d));
    WaiverGoes(v, course, adopt, found);
    if Through(v, course, a).Some? {
      var waived := Through(v, course, a).value;
      ThroughConcat(waived, course, b, c + d);
      if adopt {
        Nothing(waived, course);
      } else {
        DrawGoes(waived, course, found);
      }
      if Through(waived, course, b).Some? {
        EndGoes(Through(waived, course, b).value, course, found, exposure);
      }
    }
  }

  lemma ScriptGoes(v: Vault, course: Course, found: Findings, k: nat, adopt: bool, exposure: bool)
    requires k <= 3 && Expected(v, course, found, k, adopt)
    ensures Through(v, course, Script(found, k, adopt, exposure)).Some? <==> Unblocked(v, course, found, k, adopt)
    decreases 3 - k
  {
    hide Through, TxsOf, Rest;
    PhaseList();
    if k == 3 {
      FromTheWaiver(v, course, found, adopt, exposure);
    } else {
      ThroughConcat(v, course, TxsOf(PHASES[k], found), Script(found, k + 1, adopt, exposure));
      if k == 2 {
        assert PHASES[2] == W3;
        RefusalGoes(v, course, found);
        FromTheWaiver(v, course, found, adopt, exposure);
      } else if k == 1 {
        assert PHASES[1] == W2;
        HedgeGoes(v, course, found);
        if !v.backed { AfterTheHedge(Through(v, course, TxsOf(W2, found)).value, course, found, exposure); }
      } else {
        assert PHASES[0] == W1;
        FundingGoes(v, course, found);
        if v.covered {
          ScriptGoes(Through(v, course, TxsOf(W1, found)).value, course, found, 1, adopt, exposure);
        }
      }
    }
  }

  lemma AfterTheHedge(v: Vault, course: Course, found: Findings, exposure: bool)
    requires v.covenant == Cure && !v.late && !v.covered && !v.active
    ensures Through(v, course, Script(found, 2, false, exposure)).Some?
      <==> (found.open || course.clear) && v.draws >= 1 && course.outlasts
  {
    hide Through, TxsOf, Rest;
    PhaseList();
    assert PHASES[2] == W3;
    ThroughConcat(v, course, TxsOf(W3, found), Script(found, 3, false, exposure));
    RefusalGoes(v, course, found);
    FromTheWaiver(v, course, found, false, exposure);
  }

  // ---- Whole runs --------------------------------------------------------------------------------------------

  /** How many of the first three phases have been reached. */
  function Behind(s: State): (k: nat)
    ensures k <= 3
  {
    if Reaches(s, W3) then 3 else if Reaches(s, W2) then 2 else if Reaches(s, W1) then 1 else 0
  }

  /** Reached phases are a beginning of the script. */
  lemma ReachedBehind(s: State, p: Phase)
    requires NoGaps(s) && Index(p) < 3
    ensures Reaches(s, p) <==> Index(p) < Behind(s)
  {
    ReachedInOrder(s);
    hide Reaches, NoGaps;
    assert p.W1? || p.W2? || p.W3?;
  }

  lemma ReachedInOrder(s: State)
    requires NoGaps(s)
    ensures forall p, q :: Reaches(s, p) && Index(q) < Index(p) ==> Reaches(s, q)
  {
    hide Index;
    forall p, q | Reaches(s, p) && Index(q) < Index(p)
      ensures Reaches(s, q)
    {
      var x :| x in s.chain && PhaseOf(x.tx) == p && x.asserted;
    }
  }

  lemma SectionIs(s: State, resuming: bool, refreshExposure: bool, found: Findings, p: Phase)
    ensures Section(Everything(s, resuming, refreshExposure), found, p)
         == if p == W4 then [Assess] + Waiving(Landed(s, Waiver), found)
            else (if p == W6 then [Wait] else [])
                 + (if Sends(s, Everything(s, resuming, refreshExposure), p) then TxsOf(p, found) else [])
  {
    hide PlanRun, TxsOf, Waiving;
    EverythingPlan(s, resuming, refreshExposure);
  }

  lemma RestOfTodo(s: State, resuming: bool, refreshExposure: bool, found: Findings)
    requires NoGaps(s) && !Reaches(s, W6) && (Landed(s, Waiver) <==> Reaches(s, W5))
    ensures Todo(Everything(s, resuming, refreshExposure), found, 3) == Rest(found, Landed(s, Waiver), refreshExposure)
  {
    hide PlanRun, TxsOf, Waiving, Landed, Reaches, Section, Everything, NoGaps;
    var flags := Everything(s, resuming, refreshExposure);
    ReachedInOrder(s);
    Refreshes(s, resuming, refreshExposure);
    SectionIs(s, resuming, refreshExposure, found, W4);
    SectionIs(s, resuming, refreshExposure, found, W5);
    SectionIs(s, resuming, refreshExposure, found, W6);
    SectionIs(s, resuming, refreshExposure, found, W7);
    FourSections(flags, found);
    var d := if refreshExposure then TxsOf(W7, found) else [];
    assert Section(flags, found, W7) == d;
    assert Section(flags, found, W6) == [Wait] + TxsOf(W6, found);
    assert Section(flags, found, W5) == if Landed(s, Waiver) then [] else TxsOf(W5, found);
  }

  lemma Refreshes(s: State, resuming: bool, refreshExposure: bool)
    ensures Everything(s, resuming, refreshExposure).refreshExposure == refreshExposure && Index(W6) < Index(W7)
  {
  }

  lemma FourSections(flags: Flags, found: Findings)
    ensures Todo(flags, found, 3)
         == Section(flags, found, W4)
            + (Section(flags, found, W5) + (Section(flags, found, W6) + Section(flags, found, W7)))
  {
    hide Section;
    PhaseList();
    assert PHASES[3] == W4 && PHASES[4] == W5 && PHASES[5] == W6 && PHASES[6] == W7;
    var last := Section(flags, found, W7);
    assert Todo(flags, found, 7) == [] && last + [] == last;
    assert Todo(flags, found, 6) == last;
    assert Todo(flags, found, 5) == Section(flags, found, W6) + last;
  }

  /** An attempt that adopts everything has the rest of the script to do. */
  lemma TodoIsScript(s: State, resuming: bool, refreshExposure: bool, found: Findings, j: nat)
    requires NoGaps(s) && !Reaches(s, W6) && (Landed(s, Waiver) <==> Reaches(s, W5)) && j <= 3
    ensures Todo(Everything(s, resuming, refreshExposure), found, j)
         == Script(found, if Behind(s) < j then j else Behind(s), Landed(s, Waiver), refreshExposure)
    decreases 3 - j
  {
    hide TxsOf, Section, Rest, Landed, Reaches, Everything, NoGaps, Behind;
    if j == 3 {
      RestOfTodo(s, resuming, refreshExposure, found);
    } else {
      PhaseList();
      var p := PHASES[j];
      TodoIsScript(s, resuming, refreshExposure, found, j + 1);
      SectionIs(s, resuming, refreshExposure, found, p);
      ReachedBehind(s, p);
      assert p != W4 && p != W6 && p != W7 by { assert Index(W4) == 3 && Index(W6) == 5 && Index(W7) == 6; }
      if Reaches(s, p) {
        assert Section(Everything(s, resuming, refreshExposure), found, p) == [];
      } else {
        assert Section(Everything(s, resuming, refreshExposure), found, p) == [] + TxsOf(p, found) == TxsOf(p, found);
      }
    }
  }

  /**
   * What a caller can read from the chain, the vault and the store before an attempt: no waiver was wasted,
   * and one that landed has its draw behind it; cover suffices while W-1 is to come, is short once the hedge
   * was replaced, and will be short with the run's hedge if it was not; the balance allows the draw of W-5,
   * since only W-1 deposits; nothing keeps W-4 from proposing; and the cure period is not over when W-6 syncs.
   */
  ghost predicate Passable(s: State, answers: Answers) {
    var v := s.vault;
    && !WaiverWasted(s) && (Landed(s, Waiver) ==> Reaches(s, W5))
    && (if Reaches(s, W2) then !v.covered else !v.backed)
    && (!Reaches(s, W1) ==> v.covered)
    && (Reaches(s, W1) && !Reaches(s, W5) ==> v.draws >= 1)
    && (!Landed(s, Waiver) && !s.open ==> answers.clear)
    && answers.outlasts && (v.covenant != Compliant ==> !v.late) && (v.covenant == Waived ==> v.before == Cure)
  }

  /**
   * When an attempt nobody disturbs leaves every wanted phase whole: exactly when no earlier attempt left a
   * wanted phase in part, and the script can pass.
   */
  lemma CompletesExactlyWhen(s: State, resuming: bool, refreshExposure: bool, answers: Answers, budget: nat,
          spoils: bool)
    requires Sound(s) && Preflight(s, Everything(s, resuming, refreshExposure), answers).None?
    requires var flags := Everything(s, resuming, refreshExposure);
             |Todo(flags, Found(s, flags, answers), 0)| <= budget
    ensures var s' := AttemptOf(s, Everything(s, resuming, refreshExposure), answers, budget, spoils);
            ((forall p | Wanted(p, refreshExposure) :: Whole(s', p)) <==>
             && Passable(s, answers)
             && (forall p | Wanted(p, refreshExposure) && Reaches(s, p) :: Whole(s, p)))
  {
    hide Exec, Todo, Landed, Reaches, WaiverWasted, Section, Prepared, NoGaps, InScriptOrder, OneAttemptAPhase;
    hide Passable, Whole, VaultOk, OneProposal, Preflight, Everything;
    var flags := Everything(s, resuming, refreshExposure);
    var found, course := Found(s, flags, answers), CourseOf(flags, answers, spoils);
    var begun, todo := s.(attempts := s.attempts + 1), Todo(flags, found, 0);
    var s' := AttemptOf(s, flags, answers, budget, spoils);
    SamePlace(s, begun);
    Accepted(s, resuming, refreshExposure, answers);
    assert Passable(s, answers) ==> !Exec(begun, budget, course, todo).stopped by {
      if Passable(s, answers) { StopsExactlyWhen(s, resuming, refreshExposure, answers, budget, spoils); }
    }
    if Exec(begun, budget, course, todo).stopped {
      StoppedIsNotWhole(s, resuming, refreshExposure, answers, budget, spoils);
    } else {
      StopsExactlyWhen(s, resuming, refreshExposure, answers, budget, spoils);
      MinedMeansLanded(s);
      ExecLands(begun, budget, course, todo);
      AttemptKeepsProposal(s, resuming, refreshExposure, answers, budget, spoils);
      TodoTxs(s, resuming, refreshExposure, found, 0);
      forall p | Wanted(p, refreshExposure)
        ensures Whole(s', p) <==> (Reaches(s, p) ==> Whole(s, p)) && (p == W4 ==> !s'.open)
      {
        PhaseAfter(s, s', resuming, refreshExposure, found, p);
      }
      RecordedAfter(s, s', resuming, refreshExposure, found);
    }
  }

  /** What an accepted attempt that adopts everything starts from. */
  lemma Accepted(s: State, resuming: bool, refreshExposure: bool, answers: Answers)
    requires Sound(s) && Preflight(s, Everything(s, resuming, refreshExposure), answers).None?
    ensures var flags := Everything(s, resuming, refreshExposure);
            var found, course := Found(s, flags, answers), CourseOf(flags, answers, false);
            && !s.mined && (Landed(s, Waiver) ==> !s.open) && !Landed(s, LastSync)
            && Expected(s.vault, course, found, Behind(s), Landed(s, Waiver))
  {
    hide Landed, Reaches, OneAttemptAPhase, InScriptOrder, WaiverWasted;
    if Landed(s, Waiver) {
      ReachesWaiver(s);
      ReachedInOrder(s);
      assert Index(W3) < Index(W4);
    } else {
      NotToTheEnd(s);
    }
  }

  lemma NotToTheEnd(s: State)
    requires OneProposal(s) && !Landed(s, Waiver)
    ensures !Landed(s, LastSync) && !Reaches(s, W5) && !Reaches(s, W6)
  {
  }

  /** With the waiver not landed before its draw, the attempt is stopped exactly by the vault. */
  lemma StopsExactlyWhen(s: State, resuming: bool, refreshExposure: bool, answers: Answers, budget: nat, spoils: bool)
    requires Sound(s) && Preflight(s, Everything(s, resuming, refreshExposure), answers).None?
    requires var flags := Everything(s, resuming, refreshExposure);
             |Todo(flags, Found(s, flags, answers), 0)| <= budget
    ensures var flags := Everything(s, resuming, refreshExposure);
            var found, course := Found(s, flags, answers), CourseOf(flags, answers, spoils);
            !Exec(s.(attempts := s.attempts + 1), budget, course, Todo(flags, found, 0)).stopped
            <==> Passable(s, answers)
  {
    hide Exec, Todo, Landed, Reaches, WaiverWasted, Section, Prepared, NoGaps, InScriptOrder, OneAttemptAPhase;
    hide VaultOk, OneProposal, Preflight, Everything, Through, Script, Behind, Numbered;
    var flags := Everything(s, resuming, refreshExposure);
    var found, course := Found(s, flags, answers), CourseOf(flags, answers, spoils);
    var begun, todo := s.(attempts := s.attempts + 1), Todo(flags, found, 0);
    Accepted(s, resuming, refreshExposure, answers);
    SamePlace(s, begun);
    if WaiverWasted(s) {
      WastedIsStopped(s, resuming, refreshExposure, found, budget, course);
    } else if Landed(s, Waiver) && !Reaches(s, W5) {
      LapsedIsStopped(s, resuming, refreshExposure, found, budget, course);
    } else {
      DrawMeansWaiver(s);
      TodoTxs(s, resuming, refreshExposure, found, 0);
      TodoIsScript(s, resuming, refreshExposure, found, 0);
      ScriptGoes(s.vault, course, found, Behind(s), Landed(s, Waiver), refreshExposure);
      ExecThrough(begun, budget, course, todo);
      ReachedBehind(s, W1);
      ReachedBehind(s, W2);
    }
  }

  lemma DrawMeansWaiver(s: State)
    requires OneProposal(s) && !Landed(s, LastSync)
    ensures (Reaches(s, W5) ==> Landed(s, Waiver)) && !Reaches(s, W6)
  {
  }

  lemma WastedIsStopped(s: State, resuming: bool, refreshExposure: bool, found: Findings, budget: nat, course: Course)
    requires OneProposal(s) && WaiverWasted(s)
    ensures var todo := Todo(Everything(s, resuming, refreshExposure), found, 0);
            Exec(s.(attempts := s.attempts + 1), budget, course, todo).stopped
  {
    hide Exec, Todo, Landed, WaiverWasted, Section, Everything;
    var begun := s.(attempts := s.attempts + 1);
    SamePlace(s, begun);
    MinedMeansLanded(s);
    TodoHas(s, resuming, refreshExposure, found, 0);
    ReachesWaiver(s);
    ExecLands(begun, budget, course, Todo(Everything(s, resuming, refreshExposure), found, 0));
    assert Waiver in Required(W4) && Sends(s, Everything(s, resuming, refreshExposure), W4);
  }

  lemma LapsedIsStopped(s: State, resuming: bool, refreshExposure: bool, found: Findings, budget: nat, course: Course)
    requires Sound(s) && Landed(s, Waiver) && !Reaches(s, W5) && !s.vault.active
    ensures var todo := Todo(Everything(s, resuming, refreshExposure), found, 0);
            var r := Exec(s.(attempts := s.attempts + 1), budget, course, todo);
            r.stopped && r.state == s.(attempts := s.attempts + 1)
  {
    hide Todo, Landed, Reaches, Everything, Sound;
    var begun, todo := s.(attempts := s.attempts + 1), Todo(Everything(s, resuming, refreshExposure), found, 0);
    DrawFirst(s, resuming, refreshExposure, found);
    assert todo[1..][0] == todo[1];
  }

  /** With the waiver landed before its draw, the readiness check and that draw come first. */
  lemma DrawFirst(s: State, resuming: bool, refreshExposure: bool, found: Findings)
    requires Sound(s) && Landed(s, Waiver) && !Reaches(s, W5)
    ensures var todo := Todo(Everything(s, resuming, refreshExposure), found, 0);
            |todo| > 1 && todo[0] == Assess && todo[1] == Land(SecondDraw)
  {
    hide PlanRun, TxsOf, Section, Todo, Everything, Landed, Reaches;
    hide OneProposal, VaultOk, InScriptOrder, OneAttemptAPhase;
    var flags := Everything(s, resuming, refreshExposure);
    TodoParts(flags, found);
    AfterParts(flags, found);
    ReachesWaiver(s);
    ReachedInOrder(s);
    assert Index(W1) < 3 && Index(W2) < 3 && Index(W3) < 3 && Index(W4) == 3;
    SectionIs(s, resuming, refreshExposure, found, W1);
    SectionIs(s, resuming, refreshExposure, found, W2);
    SectionIs(s, resuming, refreshExposure, found, W3);
    SectionIs(s, resuming, refreshExposure, found, W4);
    SectionIs(s, resuming, refreshExposure, found, W5);
    NothingToWaive(found);
    assert TxsOf(W5, found) == [Land(SecondDraw)] by { DrawTx(found); }
  }

  lemma DrawTx(found: Findings)
    ensures TxsOf(W5, found) == [Land(SecondDraw)]
  {
  }

  lemma AfterParts(flags: Flags, found: Findings)
    ensures Todo(flags, found, 4) == Section(flags, found, W5) + Todo(flags, found, 5)
  {
    hide Section;
    PhaseList();
    assert PHASES[4] == W5;
  }

  /** An attempt that lives long enough and is stopped has not landed the last sync. */
  lemma StoppedIsNotWhole(s: State, resuming: bool, refreshExposure: bool, answers: Answers, budget: nat, spoils: bool)
    requires Sound(s) && Preflight(s, Everything(s, resuming, refreshExposure), answers).None?
    requires var flags := Everything(s, resuming, refreshExposure);
             var found, course := Found(s, flags, answers), CourseOf(flags, answers, spoils);
             && |Todo(flags, found, 0)| <= budget
             && Exec(s.(attempts := s.attempts + 1), budget, course, Todo(flags, found, 0)).stopped
    ensures !Whole(AttemptOf(s, Everything(s, resuming, refreshExposure), answers, budget, spoils), W6)
  {
    hide Exec, Todo, Landed, Reaches, WaiverWasted, Section, Prepared, NoGaps, InScriptOrder, OneAttemptAPhase, Front;
    hide VaultOk, OneProposal, Preflight, Everything, Numbered, TxsOf;
    var flags := Everything(s, resuming, refreshExposure);
    var found, course := Found(s, flags, answers), CourseOf(flags, answers, spoils);
    var begun := s.(attempts := s.attempts + 1);
    Accepted(s, resuming, refreshExposure, answers);
    SamePlace(s, begun);
    FrontAndBack(flags, found);
    NoLastSyncBefore(flags, found);
    var front, back := Front(flags, found), Section(flags, found, W6)[1..] + Section(flags, found, W7);
    ExecConcat(begun, budget, course, front, back);
    ExecLands(begun, budget, course, front);
    var one := Exec(begun, budget, course, front);
    if !one.stopped {
      StoppedBack(one.state, one.left, course, flags, found);
    }
    assert LastSync in Required(W6);
  }

  /** Everything up to and with the wait. */
  function Front(flags: Flags, found: Findings): (es: seq<Effect>) {
    Before(flags, found) + Section(flags, found, W4) + Section(flags, found, W5) + [Wait]
  }

  lemma FrontAndBack(flags: Flags, found: Findings)
    ensures Section(flags, found, W6) != [] && Section(flags, found, W6)[0] == Wait
    ensures Todo(flags, found, 0) == Front(flags, found) + (Section(flags, found, W6)[1..] + Section(flags, found, W7))
  {
    var six := Section(flags, found, W6);
    assert six[0] == Wait;
    hide Section, Before, Todo;
    TodoParts(flags, found);
    FourSections(flags, found);
    ThirdSection(flags, found);
    var four, five := Section(flags, found, W4), Section(flags, found, W5);
    Regrouped(Before(flags, found), four, five, six, Section(flags, found, W7));
  }

  lemma ThirdSection(flags: Flags, found: Findings)
    ensures Todo(flags, found, 3) == Section(flags, found, W4) + Todo(flags, found, 4)
  {
    hide Section;
    PhaseList();
  }

  lemma Regrouped(a: seq<Effect>, b: seq<Effect>, c: seq<Effect>, d: seq<Effect>, e: seq<Effect>)
    requires d != []
    ensures a + (b + (c + (d + e))) == (a + b + c + [d[0]]) + (d[1..] + e)
  {
    assert d == [d[0]] + d[1..];
    assert d + e == [d[0]] + (d[1..] + e);
    assert c + ([d[0]] + (d[1..] + e)) == (c + [d[0]]) + (d[1..] + e);
  }

  lemma NoLastSyncBefore(flags: Flags, found: Findings)
    ensures Land(LastSync) !in Front(flags, found)
  {
    hide Section;
    PlainBefore(flags, found);
    SectionPlain(flags, found, W5);
    assert Land(LastSync) !in Section(flags, found, W4) by { NoLastSyncInWaiving(flags, found); }
  }

  lemma NoLastSyncInWaiving(flags: Flags, found: Findings)
    ensures Land(LastSync) !in Section(flags, found, W4)
  {
    hide PlanRun;
  }

  /** After the last sync nothing stops the script. */
  lemma StoppedBack(s: State, left: nat, course: Course, flags: Flags, found: Findings)
    requires !Landed(s, LastSync) && (s.mined ==> Landed(s, Waiver))
    requires Section(flags, found, W6) != [] && |Section(flags, found, W6)[1..] + Section(flags, found, W7)| <= left
    requires Exec(s, left, course, Section(flags, found, W6)[1..] + Section(flags, found, W7)).stopped
    ensures !Landed(Exec(s, left, course, Section(flags, found, W6)[1..] + Section(flags, found, W7)).state, LastSync)
  {
    hide PlanRun, Landed, ReplyTo;
    var sync, last := Section(flags, found, W6)[1..], Section(flags, found, W7);
    assert sync == [] || sync == [Land(LastSync)];
    assert last == [] || last == [Land(Exposure)];
    hide Section;
    ExecConcat(s, left, course, sync, last);
    var one := Exec(s, left, course, sync);
    LandOnce(s, left, course, LastSync, sync);
    if !one.stopped {
      hide Exec;
      ExposureGoes(one.state, one.left, course, last);
    }
  }

  lemma LandOnce(s: State, left: nat, course: Course, tx: Tx, es: seq<Effect>)
    requires !Landed(s, tx) && tx != Waiver && (es == [] || es == [Land(tx)]) && (s.mined ==> Landed(s, Waiver))
    ensures var r := Exec(s, left, course, es);
            (r.stopped ==> !Landed(r.state, tx)) && (!r.stopped ==> r.left == left - |es|)
  {
    hide Landed, ReplyTo;
    if es != [] {
      assert es[1..] == [];
      if !Throws(s, course, es[0]) { PerformLands(s, course, es[0]); }
      SpoiledLands(s, tx);
    }
  }

  lemma ExposureGoes(s: State, left: nat, course: Course, es: seq<Effect>)
    requires (es == [] || es == [Land(Exposure)]) && |es| <= left
    ensures !Exec(s, left, course, es).stopped
  {
    if es != [] { assert es[1..] == []; }
  }

  /** One phase, after an attempt that lived to its end. */
  lemma PhaseAfter(s: State, s': State, resuming: bool, refreshExposure: bool, found: Findings, p: Phase)
    requires Wanted(p, refreshExposure)
    requires Landed(s, Waiver) ==> !s.open
    requires var todo := Todo(Everything(s, resuming, refreshExposure), found, 0);
             forall tx :: Landed(s', tx) <==> Landed(s, tx) || Land(tx) in todo
    ensures p != W4 ==> (Whole(s', p) <==> (Reaches(s, p) ==> Whole(s, p)))
    ensures p == W4 ==> (Reaches(s, p) ==> Whole(s, p)) && (Whole(s', p) <==> !s'.open)
    ensures Whole(s', p) <==> (Reaches(s, p) ==> Whole(s, p)) && (p == W4 ==> !s'.open)
  {
    hide Exec, Todo, Landed, Reaches, WaiverWasted, Section;
    var flags := Everything(s, resuming, refreshExposure);
    TodoTxs(s, resuming, refreshExposure, found, 0);
    TodoHas(s, resuming, refreshExposure, found, 0);
    ReachesWaiver(s);
    RequiredOf(p);
    if Reaches(s, p) {
      forall tx | tx in Required(p)
        ensures Landed(s', tx) <==> Landed(s, tx)
      {
      }
    } else {
      assert Sends(s, flags, p);
    }
  }

  /** The draw after the waiver has landed by then, so the waiver is recorded. */
  lemma RecordedAfter(s: State, s': State, resuming: bool, refreshExposure: bool, found: Findings)
    requires OneProposal(s) && OneProposal(s')
    requires forall tx :: Landed(s, tx) ==> Landed(s', tx)
    requires var todo := Todo(Everything(s, resuming, refreshExposure), found, 0);
             forall tx :: Land(tx) in todo ==> Landed(s', tx)
    ensures !s'.open
  {
    hide Todo, Section, WaiverWasted, Reaches;
    TodoHas(s, resuming, refreshExposure, found, 0);
    if Reaches(s, W5) {
      var tx := ReachedBy(s, W5);
    } else {
      assert Sends(s, Everything(s, resuming, refreshExposure), W5) && SecondDraw in Required(W5);
    }
    assert Landed(s', SecondDraw);
    var x :| x in s'.chain && x.tx == SecondDraw && x.asserted;
    assert Index(PhaseOf(x.tx)) > 3;
  }

  /**
   * The waiver and the draw it is for must land in one attempt: while the waiver is active no other attempt
   * is accepted, and once it lapsed either cover is short and the draw is refused, or it is not and the
   * readiness check of W-4 throws. So when an attempt ends between the two, nothing more is ever sent,
   * whatever happens later.
   */
  lemma {:induction false} TooLateForTheDraw(s: State, events: seq<Event>)
    requires Sound(s) && Landed(s, Waiver) && !Reaches(s, W5)
    ensures History(s, events).chain == s.chain
    decreases |events|
  {
    hide Sound, Landed, Reaches, Apply;
    if events != [] {
      ApplyKeeps(s, events[0]);
      StillTooLate(s, events[0]);
      SamePlace(s, Apply(s, events[0]));
      TooLateForTheDraw(Apply(s, events[0]), events[1..]);
    }
  }

  lemma StillTooLate(s: State, event: Event)
    requires Sound(s) && Landed(s, Waiver) && !Reaches(s, W5)
    ensures Apply(s, event).chain == s.chain
  {
    hide Exec, Todo, Preflight, Landed, Reaches, OneAttemptAPhase, InScriptOrder, NoGaps, Everything;
    if event.Attempt? {
      var flags := Everything(s, event.resuming, event.refreshExposure);
      if s.vault.active {
        RefusedWhileActive(s, flags, event.answers);
      } else {
        LapsedIsStopped(s, event.resuming, event.refreshExposure, Found(s, flags, event.answers), event.budget,
                        CourseOf(flags, event.answers, event.spoils));
      }
    }
  }

  lemma RefusedWhileActive(s: State, flags: Flags, answers: Answers)
    requires s.vault.active
    ensures Preflight(s, flags, answers).Some?
  {
    hide Reaches;
  }

  // ---- Cover restored ----------------------------------------------------------------------------------------

  /**
   * Once the run's hedge was replaced, an attempt gets nowhere while cover suffices: the draw that W-3 must
   * see refused would go through, and a waiver would be refused. Until cover changes again nothing lands,
   * although attempts may be accepted.
   */
  lemma {:induction false} NothingLandsWhileCovered(s: State, events: seq<Event>)
    requires Sound(s) && Reaches(s, W2) && s.vault.covered
    requires forall e | e in events :: !e.CoverChanges?
    ensures forall tx :: Landed(History(s, events), tx) <==> Landed(s, tx)
    decreases |events|
  {
    hide Sound, Landed, Reaches, Apply;
    if events != [] {
      assert events[0] in events && forall e | e in events[1..] :: e in events;
      ApplyKeeps(s, events[0]);
      NothingLandsOnce(s, events[0]);
      var tx := ReachedBy(s, W2);
      LandedReaches(Apply(s, events[0]), tx);
      NothingLandsWhileCovered(Apply(s, events[0]), events[1..]);
    }
  }

  lemma NothingLandsOnce(s: State, event: Event)
    requires Sound(s) && Reaches(s, W2) && s.vault.covered && !event.CoverChanges?
    ensures var s' := Apply(s, event); s'.vault.covered && forall tx :: Landed(s', tx) <==> Landed(s, tx)
  {
    hide Exec, Todo, Preflight, Landed, Reaches, OneAttemptAPhase, InScriptOrder, NoGaps, Everything, WaiverWasted;
    match event {
      case Attempt(resuming, refreshExposure, answers, budget, spoils) =>
        var flags := Everything(s, resuming, refreshExposure);
        var found, course := Found(s, flags, answers), CourseOf(flags, answers, spoils);
        SamePlace(s, s.(attempts := s.attempts + 1));
        CoveredIsStopped(s, resuming, refreshExposure, found, budget, course);
      case ExecuteElsewhere =>
        SpoiledLands(s, Waiver);
        WaivableExactlyWhen(s.vault);
        if s.mined { SamePlace(s, Elsewhere(s)); }
      case _ => SamePlace(s, Apply(s, event));
    }
  }

  lemma CoveredIsStopped(s: State, resuming: bool, refreshExposure: bool, found: Findings, budget: nat, course: Course)
    requires Sound(s) && Reaches(s, W2) && s.vault.covered
    ensures var todo := Todo(Everything(s, resuming, refreshExposure), found, 0);
            var r := Exec(s.(attempts := s.attempts + 1), budget, course, todo);
            r.state.vault.covered && forall tx :: Landed(r.state, tx) <==> Landed(s, tx)
  {
    hide Todo, Landed, Reaches, Everything, Sound, WaiverWasted;
    var begun, todo := s.(attempts := s.attempts + 1), Todo(Everything(s, resuming, refreshExposure), found, 0);
    SamePlace(s, begun);
    RefusalFirst(s, resuming, refreshExposure, found);
    SpoiledLands(begun, RefusedDraw);
    if todo[0] == Land(RefusedDraw) && !Throws(begun, course, todo[0]) {
      assert Perform(begun, course, todo[0]) == Spoiled(begun, RefusedDraw);
    }
  }

  lemma RefusalFirst(s: State, resuming: bool, refreshExposure: bool, found: Findings)
    requires Sound(s) && Reaches(s, W2)
    ensures var todo := Todo(Everything(s, resuming, refreshExposure), found, 0);
            todo != [] && (todo[0] == Assess || todo[0] == Land(RefusedDraw))
  {
    hide PlanRun, Waiving, Section, Todo, Everything, Landed, Reaches;
    hide OneProposal, VaultOk, InScriptOrder, OneAttemptAPhase;
    var flags := Everything(s, resuming, refreshExposure);
    TodoParts(flags, found);
    ReachedInOrder(s);
    assert Index(W1) < Index(W2);
    SectionIs(s, resuming, refreshExposure, found, W1);
    SectionIs(s, resuming, refreshExposure, found, W2);
    SectionIs(s, resuming, refreshExposure, found, W3);
    SectionIs(s, resuming, refreshExposure, found, W4);
  }

  // ---- Adoption ----------------------------------------------------------------------------------------------

  /** Adopting a phase by one of its transactions skips the others for good. */
  lemma {:induction false} SkippedForGood(s: State, events: seq<Event>, tx: Tx)
    requires Sound(s) && Reaches(s, PhaseOf(tx)) && !Landed(s, tx)
    ensures !Landed(History(s, events), tx)
    decreases |events|
  {
    hide Sound, Landed, Reaches, Apply;
    if events != [] {
      ApplyKeeps(s, events[0]);
      SkippedOnce(s, events[0], tx);
      SkippedForGood(Apply(s, events[0]), events[1..], tx);
    }
  }

  lemma SkippedOnce(s: State, event: Event, tx: Tx)
    requires Sound(s) && Reaches(s, PhaseOf(tx)) && !Landed(s, tx)
    ensures Reaches(Apply(s, event), PhaseOf(tx)) && !Landed(Apply(s, event), tx)
  {
    hide Exec, Todo, Section, Preflight, Landed, WaiverWasted, Everything, Sync;
    hide OneAttemptAPhase, InScriptOrder, NoGaps, OneProposal, VaultOk;
    var other := ReachedBy(s, PhaseOf(tx));
    MinedMeansLanded(s);
    match event {
      case Attempt(resuming, refreshExposure, answers, budget, spoils) =>
        var begun, flags := s.(attempts := s.attempts + 1), Everything(s, resuming, refreshExposure);
        var found := Found(s, flags, answers);
        SamePlace(s, begun);
        TodoTxs(s, resuming, refreshExposure, found, 0);
        ExecLands(begun, budget, CourseOf(flags, answers, spoils), Todo(flags, found, 0));
      case ExecuteElsewhere =>
        LandsElsewhere(s);
        if tx == Waiver { ReachesWaiver(s); }
      case _ => SamePlace(s, Apply(s, event));
    }
    LandedReaches(Apply(s, event), other);
  }

  lemma LandsElsewhere(s: State)
    ensures forall tx :: Landed(s, tx) ==> Landed(Elsewhere(s), tx)
    ensures forall tx :: Landed(Elsewhere(s), tx) ==> Landed(s, tx) || tx == Waiver
  {
    if !s.mined {
      var asserted := CreateWaiver(s.vault).Some?;
      ChainMembers(s, Waiver, asserted);
      SamePlace(Sending(s, Waiver, asserted), Elsewhere(s));
    } else {
      SamePlace(s, Elsewhere(s));
    }
    hide Landed, CreateWaiver;
  }
}
