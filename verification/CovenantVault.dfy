// The facility's vault: what decides a draw, a synchronisation and a waiver.
module Vaults {
  import opened Outcomes

  datatype Covenant = Unassessed | Compliant | Cure | Breach | Waived

  /**
   * The stored covenant and the one a waiver interrupted; whether a waiver is active, and whether a cure
   * period is running out or over. `covered` is the evaluation of coverage as it stands, `backed` as it
   * would be with the hedge a waiver run submits. `draws` counts the draws of a run that the balance
   * allows above the reserve; it is negative while the balance is below the reserve.
   */
  datatype Vault = Vault(covenant: Covenant, before: Covenant, active: bool, late: bool,
                         covered: bool, backed: bool, draws: int)

  /** `_syncCovenant`. While a waiver is active nothing changes; a lapsed one gives way to what it interrupted. */
  function Sync(v: Vault): (v': Vault) {
    if v.active then v
    else
      var base := if v.covenant == Waived then v.before else v.covenant;
      if v.covered then v.(covenant := Compliant, late := false)
      else if base == Breach || (base == Cure && v.late) then v.(covenant := Breach)
      else v.(covenant := Cure, late := false)
  }

  /** Whether a draw goes through: covered or waived, and enough above the reserve. */
  predicate Permits(v: Vault) {
    (v.covered || v.active) && v.draws >= 1
  }

  function Drawn(v: Vault): (v': Vault) {
    Sync(v).(draws := v.draws - 1)
  }

  /** `createWaiver`: it synchronises first, and reverts when that finds the facility compliant or waived. */
  function CreateWaiver(v: Vault): (r: Option<Vault>) {
    var synced := Sync(v);
    if synced.covenant == Compliant || synced.covenant == Waived then None
    else Some(synced.(before := synced.covenant, covenant := Waived, active := true))
  }

  /** `revokeWaiver`, while one is active. */
  function Revoked(v: Vault): (v': Vault) {
    Sync(v.(covenant := v.before, active := false))
  }

  /**
   * A waiver leaves no trace: once it lapsed, a synchronisation finds the covenant where one would find it
   * had there been no waiver, however cover and the cure period went in between.
   */
  lemma LapsedLeavesNoTrace(v: Vault, covered: bool, late: bool)
    requires CreateWaiver(v).Some? && !v.active
    ensures var waived := CreateWaiver(v).value;
            var lapsed := waived.(active := false, covered := covered, late := late);
            Sync(lapsed).(before := v.before) == Sync(Sync(v).(covered := covered, late := late))
  {
  }

  /** A waiver is possible exactly while none is active and cover is short. */
  lemma WaivableExactlyWhen(v: Vault)
    requires v.active ==> v.covenant == Waived
    ensures CreateWaiver(v).Some? <==> !v.active && !v.covered
  {
  }

  /**
   * How a covenant moves when it is evaluated. Under an active waiver it does not. With cover it is
   * compliant. Without, a breach stays one, a cure becomes one when its period is over, and from anywhere
   * else a cure begins with a new period. A lapsed waiver counts as what it interrupted.
   */
  lemma CovenantMoves(v: Vault)
    ensures var base := if v.covenant.Waived? then v.before else v.covenant;
            var after := Sync(v).covenant;
            && (after == Waived ==> v.active || v.before == Waived)
            && (v.active ==> Sync(v) == v)
            && (!v.active ==> (after == Compliant <==> v.covered))
            && (!v.active && !v.covered ==>
                && (after == Breach <==> base == Breach || (base == Cure && v.late))
                && (after == Cure <==> !(base == Breach || (base == Cure && v.late)))
                && (after == Cure ==> !Sync(v).late))
    ensures Sync(Sync(v)) == Sync(v)
    ensures Sync(v) == v.(covenant := Sync(v).covenant, late := Sync(v).late)
  {
  }

  /** A waiver made while cover is short keeps what it interrupted, and draws go through while it lasts. */
  lemma WaiverPermits(v: Vault)
    requires CreateWaiver(v).Some? && !v.active && v.draws > 0
    ensures var waived := CreateWaiver(v).value;
            && waived.active && waived.covenant == Waived && waived.before == Sync(v).covenant
            && Permits(waived) && (Permits(Drawn(waived)) <==> v.draws > 1) && Drawn(waived).covenant == Waived
            && (!v.covered ==> !Permits(waived.(active := false)))
    ensures Revoked(CreateWaiver(v).value).covenant == Sync(v).covenant
  {
  }
}
