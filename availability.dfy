/** The rule that decides whether a group counts as unclaimed. */
module Availability {
  import opened Types

  /**
   * A group is available when it has no owner, carries no `isLocked`
   * field at all, and, when closed groups are ignored, is open to the
   * public and has at least one member.
   */
  predicate IsAvailable(g: Group, cfg: Config)
    ensures IsAvailable(g, cfg) <==>
      && g.owner.None?
      && g.isLocked.None?
      && (cfg.ignoreClosedGroups ==> g.publicEntryAllowed && g.memberCount > 0)
  {
    if g.owner.Some? || g.isLocked.Some? then false
    else if cfg.ignoreClosedGroups && (!g.publicEntryAllowed || g.memberCount == 0) then false
    else true
  }

  /** Each way to fail the rule, and each way to pass it, on its own. */
  lemma AvailabilityRule(g: Group, cfg: Config)
    ensures g.owner.Some? ==> !IsAvailable(g, cfg)
    ensures g.isLocked == Some(false) ==> !IsAvailable(g, cfg)
    ensures g.isLocked.Some? ==> !IsAvailable(g, cfg)
    ensures cfg.ignoreClosedGroups && !g.publicEntryAllowed ==> !IsAvailable(g, cfg)
    ensures cfg.ignoreClosedGroups && g.memberCount == 0 ==> !IsAvailable(g, cfg)
    ensures g.owner.None? && g.isLocked.None? && !cfg.ignoreClosedGroups ==> IsAvailable(g, cfg)
    ensures g.owner.None? && g.isLocked.None? && g.publicEntryAllowed && g.memberCount > 0 ==> IsAvailable(g, cfg)
  {
  }
}
