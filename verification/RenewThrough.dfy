// A mount's renewal through its connector: what the connector's renewal ends with is what the mount is answered.
module RenewThrough {
  import opened Wrappers
  import opened ConnectorRow
  import opened Renewal
  import opened RenewConnector
  import opened MountRenewal

  /** How each end of the connector's renewal reaches the mount. */
  predicate Answers(out: Outcome, via: ViaConnector) {
    match out
    case Given(access) => via.GotPair? && via.access == access && !via.rotated
    case Rotated(_, minted, _) => via.GotPair? && via.access == minted && via.refresh == Some(minted) && via.rotated
    case Unstored(_, minted, _) => via.ThrewUnstored? && via.access == minted && via.keptRefresh == minted
    case Gone => via.Missing?
    case IsBroken => via.ConnectorBroken?
    case Threw => via.ThrewOther?
    case _ => via.NoVerdict?
  }

  /** The expiries, and the refresh token of a pair merely read, are whatever they are. */
  function Answer(out: Outcome, refresh: Option<Pair>, expiresAt: Option<int>, until: int): (via: ViaConnector)
    ensures Answers(out, via)
  {
    match out
    case Given(access) => GotPair(access, refresh, expiresAt, false)
    case Rotated(_, minted, _) => GotPair(minted, Some(minted), Some(until), true)
    case Unstored(_, minted, _) => ThrewUnstored(minted, minted, until)
    case Gone => Missing
    case IsBroken => ConnectorBroken
    case Threw => ThrewOther
    case _ => NoVerdict
  }

  /**
   * The mount asks, the connector's renewal runs among whatever others do, and the mount takes its answer. A pair D1 would
   * not take is on the mount, access and refresh token both, and so is a pair stored; any other throw leaves the mount.
   */
  method RenewThrough(d: Deployment, m: Mount, r: Holder, why: Why, stale: Option<Pair>, now: int, bound: bool,
                      refresh: Option<Pair>, expiresAt: Option<int>, until: int)
    returns (out: Outcome, answered: Renewed)
    requires d.Ran() && r !in d.w.calls && m.AsksTheConnector(why, stale, now)
    modifies d, m
    ensures d.Ran() && d.start == old(d.start) && old(d.log) <= d.log && r in d.w.calls && d.w.calls[r].phase == Done(out)
    ensures out.Unstored? ==> answered.Rethrown? && m.access == Some(out.minted) && m.grant.Some? && m.grant.value.refresh == Some(out.minted)
    ensures out.Rotated? && bound ==> answered == Have(out.minted, true) && m.access == Some(out.minted)
    ensures out.Rotated? && bound && old(m.access) != Some(out.minted) ==> m.grant.Some? && m.grant.value.refresh == Some(out.minted)
    ensures out.Given? && bound ==> answered == Have(out.access, false) && m.access == Some(out.access)
    ensures out.Threw? ==> answered.Rethrown? && m.Unchanged(old(m.access), old(m.grant))
    ensures m.spent == old(m.spent) && m.marks == old(m.marks)
  {
    out := d.Renew(r, why, if stale.Some? then stale else m.access);
    answered := m.Renew(why, stale, now, Answer(out, refresh, expiresAt, until), bound, false, Unavailable);
  }
}
