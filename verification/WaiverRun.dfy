// The waiver run over any number of attempts, killed after any transaction: what they leave on chain.
module WaiverRun {
  import opened Outcomes
  import opened RunPlan
  import opened Vaults

  /** Every transaction of the run, in the order of the script. */
  datatype Tx =
    | Approve | Deposit | FirstDraw
    | Hedge | FirstSync
    | RefusedDraw
    | Waiver
    | SecondDraw
    | LastSync
    | Exposure

  function PhaseOf(tx: Tx): (p: Phase) {
    match tx
    case Approve => W1
    case Deposit => W1
    case FirstDraw => W1
    case Hedge => W2
    case FirstSync => W2
    case RefusedDraw => W3
    case Waiver => W4
    case SecondDraw => W5
    case LastSync => W6
    case Exposure => W7
  }

  function Rank(tx: Tx): (k: nat) {
    match tx
    case Approve => 0
    case Deposit => 1
    case FirstDraw => 2
    case Hedge => 3
    case FirstSync => 4
    case RefusedDraw => 5
    case Waiver => 6
    case SecondDraw => 7
    case LastSync => 8
    case Exposure => 9
  }

  /** A transaction on chain: which attempt sent it, and whether its receipt was the one asserted. */
  datatype Sent = Sent(tx: Tx, attempt: nat, asserted: bool)

  /**
   * What outlives an attempt: the chain, the vault, whether the store holds an open waiver proposal, and
   * whether that proposal's transaction is mined. The counters number the attempts, proposals and closed
   * proposals.
   */
  datatype State = State(chain: seq<Sent>, vault: Vault, open: bool, mined: bool,
                         attempts: nat, proposals: nat, closed: nat)

  predicate Landed(s: State, tx: Tx) {
    exists x :: x in s.chain && x.tx == tx && x.asserted
  }

  /** Some transaction of the phase landed, so there is a hash to adopt it by. */
  predicate Reaches(s: State, p: Phase) {
    exists x :: x in s.chain && PhaseOf(x.tx) == p && x.asserted
  }

  /** The waiver was mined with a receipt the service refuses: its nonce is spent, its action stays open. */
  predicate WaiverWasted(s: State) {
    exists x :: x in s.chain && x.tx == Waiver && !x.asserted
  }

  /** `--resume`, `--adopt`, `--adopt-waiver` and `--refresh-exposure`. */
  datatype Flags = Flags(resuming: bool, adopted: set<Phase>, adoptWaiver: bool, refreshExposure: bool)

  /**
   * What an attempt meets beside the vault: whether a deposit needs an allowance first; whether code,
   * balances, gas, credentials, wallet and the other simulations are in order; whether no action of another
   * kind is open in the store; and whether the cure period outlasts the attempt.
   */
  datatype Answers = Answers(approve: bool, ready: bool, clear: bool, outlasts: bool)

  datatype Refusal =
    | NotReady | NothingToResume | WrongState | WaiverStillActive | ProposalOpen | NoProposalOpen
    | DrawRefused | NothingToAdopt

  /** The draws a run expects to make: a fresh one two, a resumed one one, one that adopts the waiver none. */
  function Needed(flags: Flags): (draws: int) {
    if flags.adoptWaiver then 0 else if flags.resuming then 1 else 2
  }

  /** What the checks before the first effect find, and the script works with. */
  datatype Findings = Findings(open: bool, deposit: bool, approve: bool)

  function Found(s: State, flags: Flags, answers: Answers): (found: Findings) {
    Findings(s.open, s.vault.draws < Needed(flags), answers.approve)
  }

  /** The checks before the first effect: the flags, the blockers of `inspect`, and the adoptions. */
  function Preflight(s: State, flags: Flags, answers: Answers): (r: Option<Refusal>) {
    var expected := if flags.adoptWaiver then Waived else if flags.resuming then Cure else Compliant;
    var deposit := Found(s, flags, answers).deposit;
    if flags.resuming && flags.adopted == {} then Some(NothingToResume)
    else if !answers.ready then Some(NotReady)
    else if s.vault.covenant != expected then Some(WrongState)
    else if s.vault.active then Some(WaiverStillActive)
    else if (flags.adoptWaiver || !flags.resuming) && s.open then Some(ProposalOpen)
    else if !flags.adoptWaiver && flags.resuming && !s.open then Some(NoProposalOpen)
    else if !Permits(s.vault) && !deposit && !flags.resuming && !flags.adoptWaiver then Some(DrawRefused)
    else if exists p :: p in flags.adopted && (p == W4 || !Reaches(s, p)) then Some(NothingToAdopt)
    else None
  }

  // ---- What an attempt does ----------------------------------------------------------------------------

  /** `Assess` is the readiness check of W-4, made whether or not the waiver is adopted. */
  datatype Effect = Land(tx: Tx) | Assess | Propose | Record | Wait

  function TxsOf(p: Phase, found: Findings): (txs: seq<Effect>) {
    match p
    case W1 =>
      (if found.deposit then (if found.approve then [Land(Approve)] else []) + [Land(Deposit)] else [])
      + [Land(FirstDraw)]
    case W2 => [Land(Hedge), Land(FirstSync)]
    case W3 => [Land(RefusedDraw)]
    case W4 => [Land(Waiver), Record]
    case W5 => [Land(SecondDraw)]
    case W6 => [Land(LastSync)]
    case W7 => [Land(Exposure)]
  }

  /** W-4: the readiness check, then the waiver unless it is adopted. Never a second proposal. */
  function Waiving(adoptWaiver: bool, found: Findings): (es: seq<Effect>) {
    if adoptWaiver then [] else (if found.open then [] else [Propose]) + TxsOf(W4, found)
  }

  /** One phase of the script. W-4 and the wait before W-6 are not guarded by the plan. */
  function Section(flags: Flags, found: Findings, p: Phase): (es: seq<Effect>) {
    var sends := p in PlanRun(flags.adopted, flags.adoptWaiver, flags.refreshExposure).send;
    if p == W4 then [Assess] + Waiving(flags.adoptWaiver, found)
    else (if p == W6 then [Wait] else []) + (if sends then TxsOf(p, found) else [])
  }

  /** The phases from the k-th on. */
  function Todo(flags: Flags, found: Findings, k: nat): (es: seq<Effect>)
    requires k <= 7
    decreases 7 - k
  {
    if k == 7 then [] else Section(flags, found, PHASES[k]) + Todo(flags, found, k + 1)
  }

  /** What stays the same throughout an attempt; with `spoils`, the transaction it dies at is mined as a failure. */
  datatype Course = Course(needed: int, clear: bool, outlasts: bool, spoils: bool)

  function CourseOf(flags: Flags, answers: Answers, spoils: bool): (course: Course) {
    Course(Needed(flags), answers.clear, answers.outlasts, spoils)
  }

  /** What becomes of a transaction: the script throws before it is sent, or it is mined, as asserted or not. */
  datatype Reply = NotSent | Mined(vault: Vault, asserted: bool)

  /**
   * The vault's answer and the script's assertions on it. Draws that must go through are estimated first.
   * The draw that must be refused is simulated first, and is not sent if it would go through; its refusal
   * must name CURE. Both syncs must leave CURE, and the second draw must be under a waiver, below cover.
   */
  function ReplyTo(v: Vault, needed: int, tx: Tx): (r: Reply) {
    match tx
    case Approve => Mined(v, true)
    case Deposit => Mined(v.(draws := needed), true)
    case FirstDraw => if Permits(v) then Mined(Drawn(v), true) else NotSent
    case Hedge => Mined(v.(covered := v.backed), true)
    case FirstSync => Mined(Sync(v), Sync(v).covenant == Cure)
    case RefusedDraw =>
      if Permits(v) then NotSent else Mined(v, !v.covered && !v.active && Sync(v).covenant == Cure)
    case Waiver =>
      if CreateWaiver(v).Some? then Mined(CreateWaiver(v).value, true) else Mined(v, false)
    case SecondDraw => if Permits(v) then Mined(Drawn(v), v.active && !v.covered) else NotSent
    case LastSync => Mined(Sync(v), Sync(v).covenant == Cure)
    case Exposure => Mined(v, true)
  }

  /**
   * When each draw is mined as the script asserts: the first by cover or waiver, the second by a waiver below
   * cover, and the refused one while the evaluation leaves the covenant in cure.
   */
  lemma DrawsAsAsserted(v: Vault, needed: int)
    ensures (exists w :: ReplyTo(v, needed, FirstDraw) == Mined(w, true)) <==> v.draws > 0 && (v.covered || v.active)
    ensures (exists w :: ReplyTo(v, needed, SecondDraw) == Mined(w, true)) <==> v.draws > 0 && v.active && !v.covered
    ensures (exists w :: ReplyTo(v, needed, RefusedDraw) == Mined(w, true)) <==>
      !v.active && !v.covered && (v.covenant in {Compliant, Unassessed}
                                  || (v.covenant == Cure && !v.late)
                                  || (v.covenant == Waived && v.before != Breach && !(v.before == Cure && v.late)))
    ensures forall w | ReplyTo(v, needed, SecondDraw) == Mined(w, true) :: w.draws == v.draws - 1
    ensures ReplyTo(v, needed, Deposit) == Mined(v.(draws := needed), true)
  {
    assert v.draws > 0 && v.active && !v.covered ==> ReplyTo(v, needed, SecondDraw) == Mined(Drawn(v), true);
    assert v.draws > 0 && (v.covered || v.active) ==> ReplyTo(v, needed, FirstDraw) == Mined(Drawn(v), true);
    assert !v.active && !v.covered && Sync(v).covenant == Cure ==> ReplyTo(v, needed, RefusedDraw) == Mined(v, true);
  }

  /** A fresh run needs both draws funded, a resumed one the second alone, one that adopts the waiver none. */
  lemma DepositWhenShort(s: State, flags: Flags, answers: Answers)
    ensures Found(s, flags, answers).deposit <==>
      || (flags.adoptWaiver && s.vault.draws < 0)
      || (!flags.adoptWaiver && s.vault.draws < 1)
      || (!flags.adoptWaiver && !flags.resuming && s.vault.draws < 2)
  {
  }

  /** A proposal already mined is executed again, to its receipt. */
  predicate Again(s: State, e: Effect) {
    e == Land(Waiver) && s.mined
  }

  /** What stops the script before an effect. Executing a wasted waiver again finds its receipt, and throws. */
  predicate Throws(s: State, course: Course, e: Effect) {
    match e
    case Land(tx) => (tx == Waiver && WaiverWasted(s)) || ReplyTo(s.vault, course.needed, tx).NotSent?
    case Assess => s.vault.covered || s.vault.active
    case Propose => !course.clear
    case _ => false
  }

  /** The transaction is mined, and an assertion on it fails. */
  predicate Fails(s: State, course: Course, e: Effect) {
    e.Land? && !Again(s, e) && ReplyTo(s.vault, course.needed, e.tx).Mined?
    && !ReplyTo(s.vault, course.needed, e.tx).asserted
  }

  function Perform(s: State, course: Course, e: Effect): (s': State) {
    match e
    case Land(tx) =>
      var reply := ReplyTo(s.vault, course.needed, tx);
      if Again(s, e) || reply.NotSent? then s
      else s.(chain := s.chain + [Sent(tx, s.attempts, reply.asserted)], vault := reply.vault,
              mined := s.mined || (tx == Waiver && reply.asserted))
    case Assess => s
    case Propose => s.(open := true, proposals := s.proposals + 1)
    case Record => s.(open := false, mined := false)
    case Wait => s.(vault := s.vault.(active := false, late := s.vault.late || !course.outlasts))
  }

  datatype Progress = Progress(state: State, left: nat, stopped: bool)

  /** The process lives to see `left` effects. */
  function Exec(s: State, left: nat, course: Course, es: seq<Effect>): (r: Progress)
    decreases |es|
  {
    if es == [] then Progress(s, left, false)
    else if Throws(s, course, es[0]) then Progress(s, left, true)
    else if left == 0 then Progress(if course.spoils && es[0].Land? then Spoiled(s, es[0].tx) else s, 0, true)
    else if Fails(s, course, es[0]) then Progress(Perform(s, course, es[0]), left - 1, true)
    else Exec(Perform(s, course, es[0]), left - 1, course, es[1..])
  }

  /** Mined as a failure: the vault is as it was. */
  function Spoiled(s: State, tx: Tx): (s': State) {
    s.(chain := s.chain + [Sent(tx, s.attempts, false)])
  }

  function AttemptOf(s: State, flags: Flags, answers: Answers, budget: nat, spoils: bool): (s': State) {
    var begun := s.(attempts := s.attempts + 1);
    if Preflight(s, flags, answers).Some? then begun
    else Exec(begun, budget, CourseOf(flags, answers, spoils), Todo(flags, Found(s, flags, answers), 0)).state
  }

  /** Everything earlier attempts landed is adopted. */
  function Everything(s: State, resuming: bool, refreshExposure: bool): (flags: Flags) {
    Flags(resuming, (set p: Phase | p != W4 && Reaches(s, p)), Landed(s, Waiver), refreshExposure)
  }

  // ---- What happens, over time -------------------------------------------------------------------------

  datatype Event =
    // An attempt that adopts everything.
    | Attempt(resuming: bool, refreshExposure: bool, answers: Answers, budget: nat, spoils: bool)
    // The waiver runs out.
    | Lapse
    // The admin revokes it.
    | Revoke
    // The cure period runs out.
    | CurePeriodEnds
    // Anybody may have the covenant evaluated again.
    | Resync
    // Credentials come and go: the evaluation changes, with and without the run's own hedge.
    | CoverChanges(covered: bool, backed: bool)
    // Deposits, repayments and draws outside the run.
    | BalanceChanges(draws: int)
    // Privy closes the open intent, unsigned.
    | Close
    // Somebody executes the open action elsewhere, from the console or the CLI.
    | ExecuteElsewhere

  function Apply(s: State, event: Event): (s': State) {
    match event
    case Attempt(resuming, refreshExposure, answers, budget, spoils) =>
      AttemptOf(s, Everything(s, resuming, refreshExposure), answers, budget, spoils)
    case Lapse => s.(vault := s.vault.(active := false))
    case Revoke => if s.vault.active then s.(vault := Revoked(s.vault)) else s
    case CurePeriodEnds => s.(vault := s.vault.(late := true))
    case Resync => s.(vault := Sync(s.vault))
    case CoverChanges(covered, backed) => s.(vault := s.vault.(covered := covered, backed := backed))
    case BalanceChanges(draws) => s.(vault := s.vault.(draws := draws))
    case Close =>
      if s.open && !s.mined && !WaiverWasted(s) then s.(open := false, closed := s.closed + 1) else s
    case ExecuteElsewhere => if s.open && !WaiverWasted(s) then Elsewhere(s) else s
  }

  /** To its receipt and record, or mined as a failure when cover is no longer short. */
  function Elsewhere(s: State): (s': State) {
    if s.mined then s.(open := false, mined := false)
    else
      match CreateWaiver(s.vault)
      case Some(waived) => s.(chain := s.chain + [Sent(Waiver, s.attempts, true)], vault := waived, open := false)
      case None => Spoiled(s, Waiver)
  }

  /** Outside events leave the run's chain alone, but for an execution elsewhere; a waiver does not outlive its end. */
  lemma OutsideEvents(s: State, event: Event)
    ensures !event.Attempt? && !event.ExecuteElsewhere? ==> Apply(s, event).chain == s.chain
    ensures event.Lapse? || event.Revoke? ==> !Apply(s, event).vault.active
    ensures event.Revoke? && !s.vault.active ==> Apply(s, event) == s
    ensures event.Revoke? && s.vault.active && s.vault.before == Cure && !s.vault.late && !s.vault.covered ==>
      Apply(s, event).vault.covenant == Cure
    ensures event.ExecuteElsewhere? && s.open && !WaiverWasted(s) && (s.mined || CreateWaiver(s.vault).Some?) ==>
      !Apply(s, event).open && Landed(Apply(s, event), Waiver) == (Landed(s, Waiver) || !s.mined)
  {
    if event.ExecuteElsewhere? && s.open && !WaiverWasted(s) && !s.mined && CreateWaiver(s.vault).Some? {
      assert Sent(Waiver, s.attempts, true) in Apply(s, event).chain;
    }
  }

  function History(s: State, events: seq<Event>): (s': State)
    decreases |events|
  {
    if events == [] then s else History(Apply(s, events[0]), events[1..])
  }

  /** Before the first attempt. */
  function Fresh(vault: Vault): (s: State) {
    State([], vault, false, false, 0, 0, 0)
  }

  /** The script over the chain, the vault, the store and the clock. */
  class Scenario {
    var state: State

    constructor (vault: Vault)
      ensures state == Fresh(vault)
    {
      state := Fresh(vault);
    }

    /** A run of effects, as far as the process lives. */
    method Do(es: seq<Effect>, left: nat, course: Course) returns (remains: nat, go: bool)
      modifies this
      ensures Exec(old(state), left, course, es) == Progress(state, remains, !go)
      ensures (forall e | e in es :: e.Land?) ==> state.open == old(state).open
    {
      remains := left;
      for i := 0 to |es|
        invariant Exec(state, remains, course, es[i..]) == Exec(old(state), left, course, es)
        invariant (forall e | e in es :: e.Land?) ==> state.open == old(state).open
      {
        if Throws(state, course, es[i]) { return remains, false; }
        if remains == 0 {
          if course.spoils && es[i].Land? { state := Spoiled(state, es[i].tx); }
          return 0, false;
        }
        assert es[i..][0] == es[i] && es[i..][1..] == es[i + 1..];
        var fails := Fails(state, course, es[i]);
        state := Perform(state, course, es[i]);
        remains := remains - 1;
        if fails { return remains, false; }
      }
      return remains, true;
    }

    /** W-1: the deposit that is missing, with the allowance it needs, then the draw. */
    method FundAndDraw(found: Findings, left: nat, course: Course) returns (remains: nat, go: bool)
      modifies this
      ensures Exec(old(state), left, course, TxsOf(W1, found)) == Progress(state, remains, !go)
      ensures state.open == old(state).open
    {
      hide Exec;
      remains, go := left, true;
      ghost var all := TxsOf(W1, found);
      if found.deposit {
        if found.approve {
          remains, go := Do([Land(Approve)], remains, course);
          assert all == [Land(Approve)] + [Land(Deposit), Land(FirstDraw)];
          ExecConcat(old(state), left, course, [Land(Approve)], [Land(Deposit), Land(FirstDraw)]);
          if !go { return; }
        }
        ghost var before, had := state, remains;
        assert !found.approve ==> all == [Land(Deposit), Land(FirstDraw)];
        remains, go := Do([Land(Deposit)], remains, course);
        assert [Land(Deposit), Land(FirstDraw)] == [Land(Deposit)] + [Land(FirstDraw)];
        ExecConcat(before, had, course, [Land(Deposit)], [Land(FirstDraw)]);
        if !go { return; }
      }
      assert !found.deposit ==> all == [Land(FirstDraw)];
      remains, go := Do([Land(FirstDraw)], remains, course);
    }

    /** W-4: the readiness check; then adopt the waiver, or finish the open proposal, or make one. */
    method Waive(flags: Flags, found: Findings, left: nat, course: Course) returns (remains: nat, go: bool)
      requires found.open == state.open
      modifies this
      ensures Exec(old(state), left, course, Section(flags, found, W4)) == Progress(state, remains, !go)
    {
      hide Exec;
      remains, go := Do([Assess], left, course);
      ghost var assessed, had := state, remains;
      ExecConcat(old(state), left, course, [Assess], Waiving(flags.adoptWaiver, found));
      if !go { return; }
      if flags.adoptWaiver {
        remains, go := Do([], remains, course);
        return;
      }
      if !found.open {
        remains, go := Do([Propose], remains, course);
        ExecConcat(assessed, had, course, [Propose], TxsOf(W4, found));
        if !go { return; }
      } else {
        assert [] + TxsOf(W4, found) == TxsOf(W4, found);
      }
      remains, go := Do([Land(Waiver), Record], remains, course);
    }

    /** One attempt, from the preflight on. */
    method Attempt(flags: Flags, answers: Answers, budget: nat, spoils: bool) returns (refusal: Option<Refusal>)
      modifies this
      ensures refusal == Preflight(old(state), flags, answers)
      ensures state == AttemptOf(old(state), flags, answers, budget, spoils)
    {
      hide Exec, Section, Preflight, PlanRun;
      refusal := Preflight(state, flags, answers);
      var found, course := Found(state, flags, answers), CourseOf(flags, answers, spoils);
      state := state.(attempts := state.attempts + 1);
      if refusal.Some? { return; }
      ghost var goal := Exec(state, budget, course, Todo(flags, found, 0)).state;
      var left, go := budget, true;
      PhaseList();
      for k := 0 to 7
        invariant Exec(state, left, course, Todo(flags, found, k)).state == goal
        invariant k <= 3 ==> state.open == found.open
      {
        ghost var before, had := state, left;
        left, go := DoPhase(PHASES[k], flags, found, left, course);
        ExecConcat(before, had, course, Section(flags, found, PHASES[k]), Todo(flags, found, k + 1));
        if !go { return; }
      }
      assert Todo(flags, found, 7) == [];
      ExecNothing(state, left, course);
    }

    /** One phase of the script. */
    method DoPhase(p: Phase, flags: Flags, found: Findings, left: nat, course: Course) returns (remains: nat, go: bool)
      requires p.W4? ==> found.open == state.open
      modifies this
      ensures Exec(old(state), left, course, Section(flags, found, p)) == Progress(state, remains, !go)
      ensures p.W1? || p.W2? || p.W3? ==> state.open == old(state).open
    {
      hide Exec, PlanRun;
      var sends := p in PlanRun(flags.adopted, flags.adoptWaiver, flags.refreshExposure).send;
      remains, go := left, true;
      if p == W4 {
        remains, go := Waive(flags, found, left, course);
        return;
      }
      if p == W6 {
        remains, go := Do([Wait], remains, course);
        ExecConcat(old(state), left, course, [Wait], if sends then TxsOf(p, found) else []);
        ExecNothing(state, remains, course);
        if !go || !sends { return; }
        remains, go := Do(TxsOf(p, found), remains, course);
        return;
      }
      assert Section(flags, found, p) == if sends then TxsOf(p, found) else [];
      ExecNothing(state, remains, course);
      if !sends { return; }
      if p == W1 {
        remains, go := FundAndDraw(found, remains, course);
      } else {
        remains, go := Do(TxsOf(p, found), remains, course);
      }
    }

    /** Any number of attempts, each adopting everything, and whatever happens between them. */
    method Attempts(events: seq<Event>)
      modifies this
      ensures state == History(old(state), events)
    {
      for i := 0 to |events|
        invariant History(state, events[i..]) == History(old(state), events)
      {
        assert events[i..][0] == events[i] && events[i..][1..] == events[i + 1..];
        match events[i] {
          case Attempt(resuming, refreshExposure, answers, budget, spoils) =>
            var _ := Attempt(Everything(state, resuming, refreshExposure), answers, budget, spoils);
          case _ => state := Apply(state, events[i]);
        }
      }
    }
  }

  /** What W-1 does before its draw. */
  function Funding(found: Findings): (es: seq<Effect>) {
    if !found.deposit then []
    else if found.approve then [Land(Approve), Land(Deposit)]
    else [Land(Deposit)]
  }

  lemma FreshSection(found: Findings, refreshExposure: bool, p: Phase)
    ensures Section(Flags(false, {}, false, refreshExposure), found, p) ==
      if p == W4 then [Assess] + Waiving(false, found)
      else (if p == W6 then [Wait] else []) + (if p == W7 && !refreshExposure then [] else TxsOf(p, found))
  {
    hide PlanRun, TxsOf, Waiving;
    PlanDecidesOnce({}, false, refreshExposure);
  }

  lemma TxsAre(found: Findings)
    ensures TxsOf(W1, found) == Funding(found) + [Land(FirstDraw)]
    ensures forall p: Phase :: p != W1 ==> [] + TxsOf(p, found) == TxsOf(p, found) == match p
      case W2 => [Land(Hedge), Land(FirstSync)]
      case W3 => [Land(RefusedDraw)]
      case W4 => [Land(Waiver), Record]
      case W5 => [Land(SecondDraw)]
      case W6 => [Land(LastSync)]
      case _ => [Land(Exposure)]
  {
  }

  lemma FreshSections(found: Findings, refreshExposure: bool)
    ensures var flags := Flags(false, {}, false, refreshExposure);
            && Section(flags, found, W1) == Funding(found) + [Land(FirstDraw)]
            && Section(flags, found, W2) == [Land(Hedge), Land(FirstSync)]
            && Section(flags, found, W3) == [Land(RefusedDraw)]
            && Section(flags, found, W4) == [Assess] + ((if found.open then [] else [Propose]) + [Land(Waiver), Record])
            && Section(flags, found, W5) == [Land(SecondDraw)]
            && Section(flags, found, W6) == [Wait] + [Land(LastSync)]
            && Section(flags, found, W7) == if refreshExposure then [Land(Exposure)] else []
  {
    hide Section, TxsOf;
    TxsAre(found);
    forall p: Phase { FreshSection(found, refreshExposure, p); }
  }

  lemma Flattened<T>(f: seq<T>, p: seq<T>, x: seq<T>, a: T, b: T, c: T, d: T, e: T, g: T, h: T, i: T, j: T, k: T)
    ensures f + [a] + [b, c] + [d] + ([e] + (p + [g, h])) + [i] + ([j] + [k]) + x
         == f + [a, b, c, d, e] + p + [g, h, i, j, k] + x
  {
    assert f + [a] + [b, c] + [d] + [e] == f + [a, b, c, d, e];
    var front := f + [a] + [b, c] + [d];
    assert front + ([e] + (p + [g, h])) == front + [e] + p + [g, h];
    var middle := f + [a, b, c, d, e] + p;
    assert middle + [g, h] + [i] + ([j] + [k]) == middle + [g, h, i, j, k];
  }

  /** The whole script of a first attempt, effect by effect. */
  lemma FreshScript(found: Findings, refreshExposure: bool)
    ensures Todo(Flags(false, {}, false, refreshExposure), found, 0) ==
      Funding(found)
      + [Land(FirstDraw), Land(Hedge), Land(FirstSync), Land(RefusedDraw), Assess]
      + (if found.open then [] else [Propose])
      + [Land(Waiver), Record, Land(SecondDraw), Wait, Land(LastSync)]
      + (if refreshExposure then [Land(Exposure)] else [])
  {
    hide PlanRun, Section, Todo, Funding;
    var flags := Flags(false, {}, false, refreshExposure);
    PhaseNames();
    TodoUnfolds(flags, found);
    FreshSections(found, refreshExposure);
    Flattened(Funding(found), if found.open then [] else [Propose], if refreshExposure then [Land(Exposure)] else [],
              Land(FirstDraw), Land(Hedge), Land(FirstSync), Land(RefusedDraw), Assess,
              Land(Waiver), Record, Land(SecondDraw), Wait, Land(LastSync));
  }

  lemma PhaseNames()
    ensures PHASES == [W1, W2, W3, W4, W5, W6, W7]
  {
  }

  lemma TodoUnfolds(flags: Flags, found: Findings)
    ensures Todo(flags, found, 0) == Section(flags, found, PHASES[0]) + Section(flags, found, PHASES[1])
      + Section(flags, found, PHASES[2]) + Section(flags, found, PHASES[3]) + Section(flags, found, PHASES[4])
      + Section(flags, found, PHASES[5]) + Section(flags, found, PHASES[6])
  {
    hide Section, PHASES;
    assert |PHASES| == 7 by { PhaseList(); }
    assert Todo(flags, found, 6) == Section(flags, found, PHASES[6]) + Todo(flags, found, 7);
    assert Todo(flags, found, 5) == Section(flags, found, PHASES[5]) + Todo(flags, found, 6);
    assert Todo(flags, found, 4) == Section(flags, found, PHASES[4]) + Todo(flags, found, 5);
    assert Todo(flags, found, 3) == Section(flags, found, PHASES[3]) + Todo(flags, found, 4);
    assert Todo(flags, found, 2) == Section(flags, found, PHASES[2]) + Todo(flags, found, 3);
    assert Todo(flags, found, 1) == Section(flags, found, PHASES[1]) + Todo(flags, found, 2);
  }

  lemma PhaseList()
    ensures |PHASES| == 7 && PHASES[3] == W4
    ensures forall k :: 0 <= k < 7 ==> Index(PHASES[k]) == k
  {
    ThePhases();
  }

  lemma ExecNothing(s: State, left: nat, course: Course)
    ensures Exec(s, left, course, []) == Progress(s, left, false)
  {
  }

  lemma {:induction false} ExecConcat(s: State, left: nat, course: Course, a: seq<Effect>, b: seq<Effect>)
    ensures var first := Exec(s, left, course, a);
            Exec(s, left, course, a + b) == if first.stopped then first else Exec(first.state, first.left, course, b)
    decreases |a|
  {
    if a == [] {
      assert a + b == b;
    } else {
      assert (a + b)[1..] == a[1..] + b;
      hide Throws, Fails, Perform;
      if !Throws(s, course, a[0]) && left > 0 && !Fails(s, course, a[0]) {
        ExecConcat(Perform(s, course, a[0]), left - 1, course, a[1..], b);
      }
    }
  }
}
