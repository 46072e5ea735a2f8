/**
 * The challenge campaign entities (models.py: Campaign, Challenge,
 * ChallengeInput, ChallengeSubmission) and the release clock
 * (Challenge.calculate_release_time / should_be_released).
 * Timestamps are integer seconds since the epoch, in UTC.
 */
module ChallengeModel {
  import opened Wrappers

  type CampaignId = nat
  type ChallengeId = nat
  type SquadId = nat
  type GuildId = string
  type UserId = string

  const SecondsPerHour: int := 3600

  /** A guild's timed sequence of challenges; the database keeps cadence within 1..168 hours. */
  datatype Campaign = Campaign(
    id: CampaignId,
    guildId: GuildId,
    title: string,
    startTime: int,
    cadenceHours: int,
    announcementChannels: seq<string>,
    isActive: bool)

  /** One puzzle of a campaign with its two independent release and announcement flags. */
  datatype Challenge = Challenge(
    id: ChallengeId,
    campaignId: CampaignId,
    title: string,
    description: string,
    orderPosition: int,
    pointsValue: int,
    inputGeneratorScript: Option<string>,
    isReleased: bool,
    releasedAt: Option<int>,
    isAnnounced: bool,
    announcedAt: Option<int>)

  /** The frozen (input, expected result) pair of one squad for one challenge. */
  datatype ChallengeInput = ChallengeInput(inputData: string, resultData: string, createdAt: int)

  /** One attempt, as appended to the submission log. */
  datatype ChallengeSubmission = ChallengeSubmission(
    challengeId: ChallengeId,
    squadId: SquadId,
    userId: UserId,
    username: string,
    submittedSolution: string,
    isCorrect: bool,
    isFirstSuccess: bool,
    pointsEarned: Option<int>,
    submittedAt: int)

  /** A keyword argument of a constructor call: left out, or passed with a value (possibly None). */
  datatype Arg<T> = Absent | Given(value: T)

  /**
   * Challenge(**kwargs): points default to 100, both flags default to false,
   * and a timestamp is filled in with the construction time only when its flag
   * is true and no explicit timestamp was passed.
   */
  function NewChallenge(
    id: ChallengeId, campaignId: CampaignId, title: string, description: string,
    orderPosition: int, script: Option<string>,
    pointsValue: Arg<int>, isReleased: Arg<bool>, releasedAt: Arg<Option<int>>,
    isAnnounced: Arg<bool>, announcedAt: Arg<Option<int>>, now: int): (c: Challenge)
    ensures c.id == id && c.campaignId == campaignId && c.orderPosition == orderPosition
    ensures c.pointsValue == (if pointsValue.Given? then pointsValue.value else 100)
    ensures c.isReleased <==> isReleased == Given(true)
    ensures c.isAnnounced <==> isAnnounced == Given(true)
    ensures releasedAt.Given? ==> c.releasedAt == releasedAt.value
    ensures announcedAt.Given? ==> c.announcedAt == announcedAt.value
    ensures releasedAt.Absent? ==> (c.releasedAt.Some? <==> c.isReleased)
    ensures announcedAt.Absent? ==> (c.announcedAt.Some? <==> c.isAnnounced)
    ensures releasedAt.Absent? && c.releasedAt.Some? ==> c.releasedAt.value == now
    ensures announcedAt.Absent? && c.announcedAt.Some? ==> c.announcedAt.value == now
  {
    var released := if isReleased.Given? then isReleased.value else false;
    var announced := if isAnnounced.Given? then isAnnounced.value else false;
    var rAt := if releasedAt.Given? then releasedAt.value else if released then Some(now) else None;
    var aAt := if announcedAt.Given? then announcedAt.value else if announced then Some(now) else None;
    Challenge(id, campaignId, title, description, orderPosition,
      if pointsValue.Given? then pointsValue.value else 100,
      script, released, rAt, announced, aAt)
  }

  /** calculate_release_time: start + (position - 1) * cadence hours. */
  function ReleaseTime(start: int, position: int, cadenceHours: int): int {
    start + (position - 1) * cadenceHours * SecondsPerHour
  }

  /** should_be_released: the release time has been reached. */
  predicate ShouldBeReleased(now: int, start: int, position: int, cadenceHours: int) {
    now >= ReleaseTime(start, position, cadenceHours)
  }

  /** Each later position releases exactly one cadence after the previous one. */
  lemma ReleaseTimeStep(start: int, position: int, cadenceHours: int)
    ensures ReleaseTime(start, position + 1, cadenceHours)
         == ReleaseTime(start, position, cadenceHours) + cadenceHours * SecondsPerHour
  {
  }

  /** With a positive cadence, release times strictly increase with the position. */
  lemma {:induction false} ReleaseTimeStrictlyIncreasing(start: int, p: int, q: int, cadenceHours: int)
    requires 1 <= cadenceHours <= 168
    requires p < q
    ensures ReleaseTime(start, p, cadenceHours) < ReleaseTime(start, q, cadenceHours)
    decreases q - p
  {
    ReleaseTimeStep(start, p, cadenceHours);
    if p + 1 < q {
      ReleaseTimeStrictlyIncreasing(start, p + 1, q, cadenceHours);
    }
  }

  /** Once due, a challenge stays due: the check is monotone in the clock. */
  lemma DueStaysDue(now: int, later: int, start: int, position: int, cadenceHours: int)
    requires ShouldBeReleased(now, start, position, cadenceHours)
    requires now <= later
    ensures ShouldBeReleased(later, start, position, cadenceHours)
  {
  }

  /**
   * The worked example: with a 24-hour cadence the third challenge releases
   * 48 hours after the start and is not due one minute earlier.
   */
  lemma ThirdChallengeOfDailyCampaign(start: int)
    ensures ReleaseTime(start, 3, 24) == start + 48 * SecondsPerHour
    ensures !ShouldBeReleased(start + 47 * SecondsPerHour + 59 * 60, start, 3, 24)
    ensures ShouldBeReleased(start + 48 * SecondsPerHour, start, 3, 24)
  {
  }
}
