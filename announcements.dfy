/**
 * The announcement queries of CampaignOperations (crud.py): which challenges
 * the announcing bot should post now, and which it should queue because they
 * release within the look-ahead horizon. Both look at the announcement flag,
 * the campaign's active flag and the computed release time; neither looks at
 * the release flag.
 */
module Announcements {
  import opened ChallengeModel

  /** get_pending_announcements: not announced, campaign active, release time reached. */
  predicate IsPending(c: Challenge, campaign: Campaign, now: int) {
    && !c.isAnnounced
    && campaign.isActive
    && now >= ReleaseTime(campaign.startTime, c.orderPosition, campaign.cadenceHours)
  }

  /** get_upcoming_announcements: not announced, campaign active, now < release time <= horizon. */
  predicate IsUpcoming(c: Challenge, campaign: Campaign, now: int, horizon: int) {
    && !c.isAnnounced
    && campaign.isActive
    && now < ReleaseTime(campaign.startTime, c.orderPosition, campaign.cadenceHours) <= horizon
  }

  /** For one clock reading no challenge is both pending and upcoming. */
  lemma PendingAndUpcomingDisjoint(c: Challenge, campaign: Campaign, now: int, horizon: int)
    ensures !(IsPending(c, campaign, now) && IsUpcoming(c, campaign, now, horizon))
  {
  }

  /** Pending means exactly "not announced, active campaign, and due" in the release clock's sense. */
  lemma PendingIsDueAndUnannounced(c: Challenge, campaign: Campaign, now: int)
    ensures IsPending(c, campaign, now)
        <==> !c.isAnnounced && campaign.isActive
             && ShouldBeReleased(now, campaign.startTime, c.orderPosition, campaign.cadenceHours)
  {
  }

  /** The release flag plays no part: flipping it never changes either answer. */
  lemma QueriesIgnoreReleaseFlag(c: Challenge, campaign: Campaign, now: int, horizon: int, flag: bool)
    ensures IsPending(c.(isReleased := flag), campaign, now) == IsPending(c, campaign, now)
    ensures IsUpcoming(c.(isReleased := flag), campaign, now, horizon) == IsUpcoming(c, campaign, now, horizon)
  {
  }

  /** An upcoming challenge becomes pending once the clock reaches the horizon, unless announced meanwhile. */
  lemma UpcomingBecomesPending(c: Challenge, campaign: Campaign, now: int, horizon: int, later: int)
    requires IsUpcoming(c, campaign, now, horizon)
    requires later >= horizon
    ensures IsPending(c, campaign, later)
  {
  }
}
