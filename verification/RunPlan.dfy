// The seven-phase waiver run: which phases an attempt sends, and which it adopts.
module RunPlan {

  datatype Phase = W1 | W2 | W3 | W4 | W5 | W6 | W7

  const PHASES: seq<Phase> := [W1, W2, W3, W4, W5, W6, W7]

  datatype Plan = Plan(send: seq<Phase>, skip: seq<Phase>, sendWaiver: bool)

  /** `phases.filter((phase) => set.has(phase) === kept)`. */
  function Filter(phases: seq<Phase>, phaseSet: set<Phase>, kept: bool): (r: seq<Phase>)
    ensures forall p :: p in r <==> p in phases && (p in phaseSet <==> kept)
  {
    if phases == [] then []
    else (if (phases[0] in phaseSet) == kept then [phases[0]] else []) + Filter(phases[1..], phaseSet, kept)
  }

  /** `planRun`. */
  function PlanRun(adopted: set<Phase>, adoptedWaiver: bool, refreshExposure: bool): (plan: Plan) {
    var all := adopted + (if adoptedWaiver then {W4} else {});
    var wanted := Filter(PHASES, if refreshExposure then {} else {W7}, false);
    Plan(Filter(wanted, all, false), Filter(PHASES, all, true), W4 !in all)
  }

  function Index(p: Phase): (i: nat)
    ensures i < 7 && PHASES[i] == p
  {
    match p
    case W1 => 0
    case W2 => 1
    case W3 => 2
    case W4 => 3
    case W5 => 4
    case W6 => 5
    case W7 => 6
  }

  ghost predicate InSequence(phases: seq<Phase>) {
    forall i, j :: 0 <= i < j < |phases| ==> Index(phases[i]) < Index(phases[j])
  }

  lemma {:induction false} FilterInSequence(phases: seq<Phase>, phaseSet: set<Phase>, kept: bool)
    requires InSequence(phases)
    ensures InSequence(Filter(phases, phaseSet, kept))
  {
    if phases != [] {
      FilterInSequence(phases[1..], phaseSet, kept);
      forall p | p in Filter(phases[1..], phaseSet, kept)
        ensures Index(phases[0]) < Index(p)
      {
        var j :| 0 <= j < |phases[1..]| && phases[1..][j] == p;
        assert phases[j + 1] == p;
      }
    }
  }

  /**
   * For every combination of adopted phases: nothing adopted is sent, every wanted phase is either
   * sent or skipped and never both, and both lists follow the sequence.
   */
  lemma PlanDecidesOnce(adopted: set<Phase>, adoptedWaiver: bool, refreshExposure: bool)
    ensures var plan := PlanRun(adopted, adoptedWaiver, refreshExposure);
            && (forall p :: p in plan.skip <==> p in adopted || (adoptedWaiver && p == W4))
            && (forall p :: p in plan.send <==> p !in plan.skip && (p != W7 || refreshExposure))
            && (plan.sendWaiver <==> W4 in plan.send)
            && InSequence(plan.send) && InSequence(plan.skip)
  {
    hide PHASES, Filter;
    var all := adopted + (if adoptedWaiver then {W4} else {});
    var unwanted := if refreshExposure then {} else {W7};
    ThePhases();
    FilterInSequence(PHASES, unwanted, false);
    FilterInSequence(Filter(PHASES, unwanted, false), all, false);
    FilterInSequence(PHASES, all, true);
  }

  lemma ThePhases()
    ensures |PHASES| == 7 && InSequence(PHASES)
    ensures forall p: Phase :: p in PHASES
    ensures forall i :: 0 <= i < 7 ==> Index(PHASES[i]) == i
  {
    assert PHASES[0] == W1 && PHASES[1] == W2 && PHASES[2] == W3 && PHASES[3] == W4;
    assert PHASES[4] == W5 && PHASES[5] == W6 && PHASES[6] == W7;
    hide PHASES;
    forall i | 0 <= i < 7
      ensures Index(PHASES[i]) == i
    {
      assert i == 0 || i == 1 || i == 2 || i == 3 || i == 4 || i == 5 || i == 6;
    }
    forall p: Phase
      ensures p in PHASES
    {
      assert PHASES[Index(p)] == p;
    }
  }

  /** With everything on chain adopted, the plan sends exactly the wanted phases after it. */
  lemma PlanSends(landed: seq<Phase>, done: nat, refreshExposure: bool)
    requires done <= 7 && landed == PHASES[..done]
    ensures var plan := PlanRun((set p: Phase | p in landed && p != W4), W4 in landed, refreshExposure);
            forall p :: p in plan.send <==> Index(p) >= done && (p != W7 || refreshExposure)
  {
    hide PHASES, PlanRun;
    PrefixMembers(done);
    PlanDecidesOnce((set p: Phase | p in landed && p != W4), W4 in landed, refreshExposure);
  }

  lemma PrefixMembers(k: nat)
    requires k <= 7
    ensures forall p :: p in PHASES[..k] <==> Index(p) < k
  {
    forall p: Phase
      ensures p in PHASES[..k] <==> Index(p) < k
    {
      if Index(p) < k {
        assert PHASES[..k][Index(p)] == p;
      }
    }
  }
}
