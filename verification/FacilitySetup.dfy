// Setting up the quorum's facility: four admin calls, resumable wherever the script is interrupted.
module FacilitySetup {
  import opened Outcomes
  import opened Protocol
  import opened QuorumService
  import opened Transactions
  import opened Utf16

  /** What the registry holds for the planned facility. */
  datatype Facility = Absent | Present(admin: Address, exposureIssuer: bool, hedgeIssuer: bool, frozen: bool)

  datatype StepKind = Create | ApproveExposureIssuer | ApproveHedgeIssuer | Freeze

  datatype NextStep = Do(step: StepKind) | Complete | WrongAdmin

  /** `nextFacilitySetupStep`: reads the chain and names the first call that is missing. */
  function NextFacilitySetupStep(f: Facility, admin: Address): (n: NextStep) {
    if f.Absent? then Do(Create)
    else if !SameAddress(f.admin, admin) then WrongAdmin
    else if !f.exposureIssuer then Do(ApproveExposureIssuer)
    else if !f.hedgeIssuer then Do(ApproveHedgeIssuer)
    else if !f.frozen then Do(Freeze)
    else Complete
  }

  /** What a mined setup call leaves. A new facility has the planned policy: our admin, not frozen. */
  function After(f: Facility, step: StepKind, admin: Address): (f': Facility) {
    match step
    case Create => Present(admin, false, false, false)
    case ApproveExposureIssuer => if f.Present? then f.(exposureIssuer := true) else f
    case ApproveHedgeIssuer => if f.Present? then f.(hedgeIssuer := true) else f
    case Freeze => if f.Present? then f.(frozen := true) else f
  }

  /** Every call the facility still needs, in the only order they are made. */
  function Missing(f: Facility): (steps: seq<StepKind>)
    ensures |steps| <= 4
  {
    match f
    case Absent => [Create, ApproveExposureIssuer, ApproveHedgeIssuer, Freeze]
    case Present(_, e, h, frozen) =>
      (if e then [] else [ApproveExposureIssuer])
      + (if h then [] else [ApproveHedgeIssuer])
      + (if frozen then [] else [Freeze])
  }

  predicate Ours(f: Facility, admin: Address) {
    f.Absent? || SameAddress(f.admin, admin)
  }

  /**
   * The step named is the first one missing, and doing it leaves exactly the others: one fewer
   * every time, so at most four from anywhere. Freeze is named only with both issuers approved.
   */
  lemma StepIsFirstMissing(f: Facility, admin: Address)
    ensures NextFacilitySetupStep(f, admin).WrongAdmin? <==> !Ours(f, admin)
    ensures NextFacilitySetupStep(f, admin).Complete? <==> Ours(f, admin) && Missing(f) == []
    ensures NextFacilitySetupStep(f, admin).Do? ==>
      var step := NextFacilitySetupStep(f, admin).step;
      && Missing(f) == [step] + Missing(After(f, step, admin))
      && Ours(After(f, step, admin), admin)
      && (step.Freeze? ==> f.Present? && f.exposureIssuer && f.hedgeIssuer)
  {
  }

  /** The open action of the store: the call it pins, at which nonce, and what Privy has signed. */
  datatype OpenCall = OpenCall(step: StepKind, nonce: nat, raw: Option<SignedTx>)

  datatype PrivyMove = Signs(salt: Text) | StaysPending | Closes

  /**
   * What one drive meets: what Privy makes of the approvals, what Arc answers the send, the receipt a
   * block would give the transaction, and how many of its three effects the process lives to see.
   */
  datatype DriveInput = DriveInput(privy: PrivyMove, sending: SendOutcome, block: Option<Receipt>, killed: nat)

  /** Nothing goes wrong: Privy signs, Arc takes and mines the transaction, and nobody is killed. */
  predicate Smooth(d: DriveInput) {
    d.privy.Signs? && !d.sending.Refused? && d.block.Some? && d.block.value.success && d.killed >= 3
  }

  /** A call of the wallet at a nonce, signed. */
  function CallTx(wallet: Address, nonce: nat, salt: Text): (raw: SignedTx) {
    SignedTx(true, ARC_TESTNET, None, None, None, Some(nonce), None, None, None, wallet, salt)
  }

  /** The setup loop's bound. */
  const STEP_BOUND := 6

  /** The registry, Arc, and the store's one open action, as the script finds and leaves them. */
  class Provisioning {
    const admin: Address
    const arc: ArcNode
    var facility: Facility
    // Arc's pending nonce of the wallet, which only this store uses.
    var pending: nat
    var open: Option<OpenCall>
    // Every setup call that took effect on chain, over all attempts.
    ghost var landed: seq<StepKind>
    ghost const start: Facility

    ghost predicate Valid()
      reads this, arc
    {
      && NoncesUnique(arc.mined)
      && (forall r | r in arc.mined && SameAddress(r.signer, admin) :: OrZero(r.nonce) < pending)
      && (Ours(facility, admin) <==> Ours(start, admin))
      && landed + Missing(facility) == Missing(start)
      && (open.Some? ==> OpenOk(open.value))
    }

    /** The open call is the next one missing, or its nonce is spent on the transaction Privy signed for it. */
    ghost predicate OpenOk(c: OpenCall)
      reads this, arc
    {
      && Ours(facility, admin)
      && (c.raw.Some? ==> c.raw.value.signer == admin && OrZero(c.raw.value.nonce) == c.nonce)
      && if c.nonce == pending then NextFacilitySetupStep(facility, admin) == Do(c.step)
         else c.nonce < pending && c.raw.Some? && c.raw.value in arc.mined
    }

    /** The open call has been mined. */
    predicate Mined()
      reads this, arc
    {
      open.Some? && open.value.raw.Some? && open.value.raw.value in arc.mined
    }

    /** It was mined with a receipt `execute` refuses: the action stays executed at Privy and unrecorded. */
    predicate Dead()
      reads this, arc
    {
      Mined() && !arc.mined[open.value.raw.value].success
    }

    constructor (admin: Address, arc: ArcNode, facility: Facility, pending: nat)
      requires NoncesUnique(arc.mined)
      requires forall r | r in arc.mined && SameAddress(r.signer, admin) :: OrZero(r.nonce) < pending
      ensures Valid() && this.admin == admin && this.arc == arc && this.facility == facility
      ensures start == facility && landed == [] && open == None
    {
      this.admin, this.arc, this.facility, this.pending := admin, arc, facility, pending;
      open := None;
      landed := [];
      start := facility;
    }

    /** The approvals, and what Privy makes of them. What it signs has a nonce Arc has not seen. */
    method CollectSignature(privy: PrivyMove) returns (signed: bool)
      requires Valid() && open.Some?
      modifies this`open
      ensures Valid()
      ensures signed <==> old(open).value.raw.Some? || privy.Signs?
      ensures signed ==> open.Some? && open.value.raw.Some? && open.value.step == old(open).value.step && Mined() == old(Mined())
      ensures old(open).value.raw.Some? ==> open == old(open)
      ensures !signed && open.Some? ==> open == old(open)
    {
      hide Missing, Ours, NextFacilitySetupStep, NoncesUnique, Lower;
      if open.value.raw.None? {
        match privy {
          case Closes =>
            open := None;
            return false;
          case StaysPending => return false;
          case Signs(salt) =>
            open := Some(open.value.(raw := Some(CallTx(admin, open.value.nonce, salt))));
        }
      }
      return true;
    }

    /**
     * `execute`: sends whether or not the transaction was sent before, and waits for its receipt. It is
     * the chain that takes a nonce once; the registry executes the call in the block that mines it.
     */
    method Execute(sending: SendOutcome, block: Option<Receipt>, killed: bool) returns (done: bool)
      requires Valid() && open.Some? && open.value.raw.Some?
      modifies this, arc
      ensures Valid()
      ensures arc.mined == MinedAfter(old(arc.mined), old(open).value.raw.value, sending, block)
      ensures done <==> !sending.Refused? && !killed && open.None?
      ensures !done ==> open == old(open)
      ensures open.None? <==> && !sending.Refused? && !killed && old(open).value.raw.value in arc.mined
                              && arc.mined[old(open).value.raw.value].success
      ensures var c := old(open).value;
              if c.raw.value !in old(arc.mined) && c.raw.value in arc.mined && arc.mined[c.raw.value].success
              then landed == old(landed) + [c.step] && facility == After(old(facility), c.step, admin)
              else landed == old(landed) && facility == old(facility)
    {
      hide SameAddress, Missing, After, NextFacilitySetupStep, Ours, NoncesUnique, ChainGrows;
      StepIsFirstMissing(facility, admin);
      var c, raw := open.value, open.value.raw.value;
      if sending.Refused? { return false; }
      var known := raw in arc.mined;
      if !known { Free(raw); }
      var receipt := arc.WaitForReceipt(raw, block);
      if !known && receipt.Some? {
        pending := c.nonce + 1;
        if receipt.value.success {
          facility := After(facility, c.step, admin);
          landed := landed + [c.step];
        }
      }
      if killed || receipt.None? || !receipt.value.success { return false; }
      open := None;
      return true;
    }

    /** `drive`: approvals and Privy's signature, then execute. */
    method Drive(d: DriveInput) returns (done: bool)
      requires Valid() && open.Some?
      modifies this, arc
      ensures Valid()
      ensures Ours(facility, admin) == Ours(old(facility), admin)
      ensures done ==> open.None?
      ensures old(Mined()) ==> landed == old(landed) && facility == old(facility) && arc.mined == old(arc.mined)
      ensures !old(Mined()) && done ==>
        landed == old(landed) + [old(open).value.step] && facility == After(old(facility), old(open).value.step, admin)
      ensures old(landed) <= landed && |landed| <= |old(landed)| + 1
      ensures done && !old(Mined()) ==> |Missing(facility)| == |Missing(old(facility))| - 1
      ensures old(Dead()) ==> !done && Dead() && landed == old(landed) && open == old(open)
      ensures Smooth(d) ==> (done <==> !old(Dead()))
    {
      hide SameAddress, Missing, After, NextFacilitySetupStep, Ours, NoncesUnique, OpenOk;
      StepIsFirstMissing(facility, admin);
      if d.killed == 0 { return false; }
      OpenIsOurs();
      var signed := CollectSignature(d.privy);
      if !signed || d.killed == 1 { return false; }
      OpenIsNext();
      StepIsFirstMissing(facility, admin);
      done := Execute(d.sending, d.block, d.killed == 2);
    }

    lemma OpenIsNext()
      requires Valid() && open.Some?
      ensures Ours(facility, admin)
      ensures !Mined() ==> NextFacilitySetupStep(facility, admin) == Do(open.value.step)
    {
      hide SameAddress, Missing, NextFacilitySetupStep, NoncesUnique, Ours;
    }

    /** An open call that is not mined has a nonce Arc has not seen. */
    lemma Free(raw: SignedTx)
      requires Valid() && open.Some? && open.value.raw == Some(raw) && raw !in arc.mined
      ensures open.value.nonce == pending && NonceFree(arc.mined, raw)
    {
      hide Missing, Ours, NextFacilitySetupStep, NoncesUnique;
    }

    /**
     * One run of the script: finish what is open, then propose and drive until nothing is missing.
     * However earlier runs ended, no call takes effect twice and none out of order. A run in which
     * nothing goes wrong ends complete, well inside the bound, exactly when no open call was mined as a
     * failure; after that no run ever gets past it.
     */
    method Attempt(inputs: nat -> DriveInput) returns (complete: bool, drives: nat)
      requires Valid()
      modifies this, arc
      ensures Valid()
      ensures old(landed) <= landed
      ensures complete ==> Missing(facility) == [] && landed == Missing(start)
      ensures Ours(start, admin) && (forall k :: Smooth(inputs(k))) ==> (complete <==> !old(Dead()))
      ensures old(Dead()) ==> !complete && Dead() && landed == old(landed)
      ensures !Ours(start, admin) ==> !complete && landed == old(landed)
      ensures drives <= 5
    {
      hide SameAddress, Missing, After, NextFacilitySetupStep, Ours, NoncesUnique, OpenOk, Smooth;
      drives := 0;
      StepIsFirstMissing(facility, admin);
      OpenIsOurs();
      if open.Some? {
        drives := 1;
        var done := Drive(inputs(0));
        if !done { return false, drives; }
      }
      ghost var first := drives;
      ghost var before := |Missing(facility)|;
      StepIsFirstMissing(facility, admin);
      assert first + before <= 5;
      for step := 0 to STEP_BOUND
        invariant Valid() && old(landed) <= landed && open.None?
        invariant drives == first + step && |Missing(facility)| + step == before
        invariant !Ours(start, admin) ==> landed == old(landed)
      {
        StepIsFirstMissing(facility, admin);
        var next := NextFacilitySetupStep(facility, admin);
        if next.WrongAdmin? { return false, drives; }
        if next.Complete? {
          return true, drives;
        }
        open := Some(OpenCall(next.step, pending, None));
        ProposeOk(next.step);
        drives := drives + 1;
        var done := Drive(inputs(step + 1));
        if !done { return false, drives; }
      }
      assert false;
    }

    lemma OpenIsOurs()
      requires Valid()
      ensures open.Some? ==> Ours(start, admin)
    {
      hide SameAddress, Missing, NextFacilitySetupStep, NoncesUnique, Ours;
    }

    lemma ProposeOk(step: StepKind)
      requires NextFacilitySetupStep(facility, admin) == Do(step)
      ensures OpenOk(OpenCall(step, pending, None))
    {
      hide SameAddress, Missing, NoncesUnique;
    }
  }

  /** Over any number of attempts, each call takes effect at most once, and in order. */
  method Attempts(p: Provisioning, inputs: seq<nat -> DriveInput>) returns (complete: bool)
    requires p.Valid()
    modifies p, p.arc
    ensures p.Valid() && old(p.landed) <= p.landed <= Missing(p.start)
    ensures complete ==> p.landed == Missing(p.start)
    ensures old(p.Dead()) ==> !complete && p.Dead() && p.landed == old(p.landed)
  {
    complete := false;
    for i := 0 to |inputs|
      invariant p.Valid() && old(p.landed) <= p.landed
      invariant complete ==> p.landed == Missing(p.start)
      invariant old(p.Dead()) ==> !complete && p.Dead() && p.landed == old(p.landed)
    {
      if complete { break; }
      var done, _ := p.Attempt(inputs[i]);
      complete := done;
    }
  }

  /** What `Missing` lists it lists once, so a prefix of it is free of repetition. */
  lemma MissingOnce(f: Facility)
    ensures forall i, j :: 0 <= i < j < |Missing(f)| ==> Missing(f)[i] != Missing(f)[j]
  {
  }
}
