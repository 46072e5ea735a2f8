/**
 * The challenges router (api/routers/challenges.py): each endpoint checks
 * its request in a fixed order, answers 404 or 403 on the first failed
 * check, and only then calls into the challenge tables. Every other
 * failure of the call below becomes a 500.
 */
module ChallengeRoutes {
  import opened Wrappers
  import opened ChallengeModel
  import opened Announcements
  import opened InputGenerator
  import opened SubmissionArbiter
  import opened ChallengeDatabase

  /** The HTTP outcome of an endpoint: 200 with a body, 404, 403 or 500. */
  datatype Response<+T> = Success(body: T) | NotFound | Forbidden | ServerError

  /** Why a request is turned away before the tables are touched. */
  datatype Refusal = NoSquad | NoChallenge | WrongGuild | NotReleased | NoGeneratorScript

  function StatusOf<T>(r: Refusal): (resp: Response<T>)
    ensures resp.NotFound? <==> r in {NoSquad, NoChallenge, NoGeneratorScript}
    ensures resp.Forbidden? <==> r in {WrongGuild, NotReleased}
  {
    match r
    case NoSquad => NotFound
    case NoChallenge => NotFound
    case WrongGuild => Forbidden
    case NotReleased => Forbidden
    case NoGeneratorScript => NotFound
  }

  /** get_challenge_with_campaign: the challenge with its campaign, if the challenge exists. */
  function LoadChallenge(db: ChallengeDb, id: ChallengeId): (loaded: Option<(Challenge, Campaign)>)
    reads db
    requires db.Valid()
    ensures loaded.Some? <==> id in db.challenges
    ensures loaded.Some? ==>
      loaded.value.0 == db.challenges[id] && loaded.value.1 == db.campaigns[db.challenges[id].campaignId]
  {
    if id in db.challenges then Some((db.challenges[id], db.campaigns[db.challenges[id].campaignId])) else None
  }

  /**
   * The checks of submit_solution, in order: the user has a squad, the
   * challenge exists, its campaign is in the request's guild, and it is
   * released. The first that fails decides the refusal.
   */
  function SubmitGuard(squad: Option<SquadId>, loaded: Option<(Challenge, Campaign)>, guildId: GuildId)
    : (r: Option<Refusal>)
    ensures r == Some(NoSquad) <==> squad.None?
    ensures r == Some(NoChallenge) <==> squad.Some? && loaded.None?
    ensures r == Some(WrongGuild) <==> squad.Some? && loaded.Some? && loaded.value.1.guildId != guildId
    ensures r == Some(NotReleased) <==>
      squad.Some? && loaded.Some? && loaded.value.1.guildId == guildId && !loaded.value.0.isReleased
    ensures r != Some(NoGeneratorScript)
  {
    if squad.None? then Some(NoSquad)
    else if loaded.None? then Some(NoChallenge)
    else if loaded.value.1.guildId != guildId then Some(WrongGuild)
    else if !loaded.value.0.isReleased then Some(NotReleased)
    else None
  }

  /** get_challenge_input: the submit checks, then a 404 when the challenge has no generator script. */
  function InputGuard(squad: Option<SquadId>, loaded: Option<(Challenge, Campaign)>, guildId: GuildId)
    : (r: Option<Refusal>)
    ensures SubmitGuard(squad, loaded, guildId).Some? ==> r == SubmitGuard(squad, loaded, guildId)
    ensures r == Some(NoGeneratorScript) <==>
      SubmitGuard(squad, loaded, guildId).None? && !HasScript(loaded.value.0.inputGeneratorScript)
  {
    var first := SubmitGuard(squad, loaded, guildId);
    if first.Some? then first
    else if !HasScript(loaded.value.0.inputGeneratorScript) then Some(NoGeneratorScript)
    else None
  }

  /** A request that passes the guard is for a released challenge of the caller's guild, made by a squad member. */
  lemma GuardedRequestIsAdmissible(squad: Option<SquadId>, loaded: Option<(Challenge, Campaign)>, guildId: GuildId)
    requires InputGuard(squad, loaded, guildId).None?
    ensures SubmitGuard(squad, loaded, guildId).None?
    ensures squad.Some? && loaded.Some?
    ensures loaded.value.1.guildId == guildId && loaded.value.0.isReleased
    ensures HasScript(loaded.value.0.inputGeneratorScript)
  {
  }

  /**
   * GET /{challenge_id}/input: refused requests change nothing; otherwise the
   * squad's input is fetched or generated, and any failure to generate it
   * is a 500 that changes nothing.
   */
  method GetChallengeInput(db: ChallengeDb, squad: Option<SquadId>, challengeId: ChallengeId, guildId: GuildId,
                           run: ScriptRunner, parse: JsonParser, now: int)
    returns (resp: Response<string>)
    requires db.Valid()
    modifies db
    ensures db.Valid()
    ensures var refusal := InputGuard(squad, old(LoadChallenge(db, challengeId)), guildId);
      && (refusal.Some? ==> resp == StatusOf(refusal.value) && unchanged(db))
      && (refusal.None? ==>
            var (r, table) := GetOrCreate(old(db.inputs), (challengeId, squad.value),
                                          old(db.challenges[challengeId].inputGeneratorScript), run, parse, now);
            && db.inputs == table
            && (resp.Success? <==> r.Ok?)
            && (r.Ok? ==> resp.body == r.value.0)
            && (r.Err? ==> resp == ServerError))
    ensures db.campaigns == old(db.campaigns) && db.challenges == old(db.challenges)
    ensures db.submissions == old(db.submissions)
  {
    var loaded := LoadChallenge(db, challengeId);
    var refusal := InputGuard(squad, loaded, guildId);
    if refusal.Some? {
      return StatusOf(refusal.value);
    }
    var generated := db.GetOrCreateInput(challengeId, squad.value, loaded.value.0.inputGeneratorScript, run, parse, now);
    if generated.Err? {
      return ServerError;
    }
    resp := Success(generated.value.0);
  }

  /**
   * POST /{challenge_id}/submit-solution: refused requests record nothing;
   * a squad without an input gets a 500 and nothing is recorded; otherwise
   * the verdict comes back and exactly one submission is appended.
   */
  method SubmitSolution(db: ChallengeDb, squad: Option<SquadId>, challengeId: ChallengeId, guildId: GuildId,
                        userId: UserId, username: string, submitted: string, now: int, scorer: Scorer)
    returns (resp: Response<Verdict>)
    requires db.Valid()
    modifies db
    ensures db.Valid()
    ensures var refusal := SubmitGuard(squad, old(LoadChallenge(db, challengeId)), guildId);
      && (refusal.Some? ==> resp == StatusOf(refusal.value) && unchanged(db))
      && (refusal.None? ==>
            var spec := Submit(old(db.campaigns), old(db.challenges), old(db.inputs), old(db.submissions),
                               challengeId, squad.value, userId, username, submitted, now, scorer);
            && (spec.Err? ==> resp == ServerError && db.submissions == old(db.submissions))
            && (spec.Ok? ==> resp == Success(spec.value.0) && db.submissions == old(db.submissions) + [spec.value.1]))
    ensures db.campaigns == old(db.campaigns) && db.challenges == old(db.challenges) && db.inputs == old(db.inputs)
  {
    var loaded := LoadChallenge(db, challengeId);
    var refusal := SubmitGuard(squad, loaded, guildId);
    if refusal.Some? {
      return StatusOf(refusal.value);
    }
    var verdict := db.SubmitSolution(challengeId, squad.value, userId, username, submitted, now, scorer);
    if verdict.Err? {
      return ServerError;
    }
    resp := Success(verdict.value);
  }

  /**
   * GET /{challenge_id}/input-exists: only the squad is checked (an unknown
   * challenge simply has no input); the answer is whether a row exists.
   */
  method CheckInputExists(db: ChallengeDb, squad: Option<SquadId>, challengeId: ChallengeId)
    returns (resp: Response<bool>)
    ensures squad.None? <==> resp.NotFound?
    ensures squad.Some? ==> resp == Success((challengeId, squad.value) in db.inputs)
  {
    if squad.None? {
      return NotFound;
    }
    var existing := db.GetInputBySquad(challengeId, squad.value);
    resp := Success(existing.Some?);
  }

  /** POST /{challenge_id}/mark-released: 404 exactly when no challenge has the id. */
  method MarkReleased(db: ChallengeDb, challengeId: ChallengeId, now: int) returns (resp: Response<bool>)
    requires db.Valid()
    modifies db
    ensures db.Valid()
    ensures resp.NotFound? <==> challengeId !in old(db.challenges)
    ensures !resp.NotFound? ==> resp == Success(true)
    ensures !resp.NotFound? ==> db.challenges == old(db.challenges)[challengeId := old(db.challenges)[challengeId].(isReleased := true, releasedAt := Some(now))]
    ensures resp.NotFound? ==> db.challenges == old(db.challenges)
    ensures db.campaigns == old(db.campaigns) && db.inputs == old(db.inputs) && db.submissions == old(db.submissions)
  {
    var success := db.MarkChallengeReleased(challengeId, now);
    if !success {
      return NotFound;
    }
    resp := Success(true);
  }

  /** POST /{challenge_id}/mark-announced: 404 exactly when no challenge has the id. */
  method MarkAnnounced(db: ChallengeDb, challengeId: ChallengeId, now: int) returns (resp: Response<bool>)
    requires db.Valid()
    modifies db
    ensures db.Valid()
    ensures resp.NotFound? <==> challengeId !in old(db.challenges)
    ensures !resp.NotFound? ==> resp == Success(true)
    ensures !resp.NotFound? ==> db.challenges == old(db.challenges)[challengeId := old(db.challenges)[challengeId].(isAnnounced := true, announcedAt := Some(now))]
    ensures resp.NotFound? ==> db.challenges == old(db.challenges)
    ensures db.campaigns == old(db.campaigns) && db.inputs == old(db.inputs) && db.submissions == old(db.submissions)
  {
    var success := db.MarkChallengeAnnounced(challengeId, now);
    if !success {
      return NotFound;
    }
    resp := Success(true);
  }

  /** The `seconds` query parameter's default. */
  const DefaultLookAheadSeconds := 45

  /** The release time the endpoint reports: start + cadence·(position − 1) hours. */
  function ReportedReleaseTime(camp: Campaign, c: Challenge): (t: int)
    ensures t == ReleaseTime(camp.startTime, c.orderPosition, camp.cadenceHours)
  {
    camp.startTime + camp.cadenceHours * (c.orderPosition - 1) * SecondsPerHour
  }

  /** One entry of the upcoming list: the challenge and the time it releases. */
  datatype UpcomingItem = UpcomingItem(challengeId: ChallengeId, releaseTime: int)

  function IdsOf(items: seq<UpcomingItem>): (ids: seq<ChallengeId>)
    ensures |ids| == |items| && forall k :: 0 <= k < |items| ==> ids[k] == items[k].challengeId
  {
    seq(|items|, k requires 0 <= k < |items| => items[k].challengeId)
  }

  /**
   * GET /upcoming-announcements: the challenges that release within the next
   * `seconds` seconds, each once, with its release time.
   */
  method UpcomingAnnouncements(db: ChallengeDb, now: int, seconds: int) returns (items: seq<UpcomingItem>)
    requires db.Valid()
    ensures forall id :: id in IdsOf(items) <==> db.UpcomingRow(id, now, now + seconds)
    ensures forall i, j :: 0 <= i < j < |items| ==> items[i].challengeId != items[j].challengeId
    ensures forall k :: 0 <= k < |items| ==>
      items[k].challengeId in db.challenges &&
      (var c := db.challenges[items[k].challengeId];
       var camp := db.campaigns[c.campaignId];
       && items[k].releaseTime == ReleaseTime(camp.startTime, c.orderPosition, camp.cadenceHours)
       && now < items[k].releaseTime <= now + seconds)
  {
    var horizon := now + seconds;
    var ids := db.GetUpcomingAnnouncements(now, horizon);
    assert forall j :: 0 <= j < |ids| ==> db.UpcomingRow(ids[j], now, horizon);
    items := [];
    for k := 0 to |ids|
      invariant |items| == k
      invariant forall j :: 0 <= j < k ==> items[j].challengeId == ids[j]
      invariant forall j :: 0 <= j < k ==>
        var c := db.challenges[ids[j]];
        items[j].releaseTime == ReleaseTime(db.campaigns[c.campaignId].startTime, c.orderPosition,
                                            db.campaigns[c.campaignId].cadenceHours)
    {
      var c := db.challenges[ids[k]];
      var camp := db.campaigns[c.campaignId];
      items := items + [UpcomingItem(ids[k], ReportedReleaseTime(camp, c))];
    }
    assert IdsOf(items) == ids;
  }

  /** A row of the campaign scoreboard query; SUM and COUNT can come back null. */
  datatype ScoreRow = ScoreRow(squadName: string, squadId: SquadId, totalPoints: Option<int>,
                               successfulSubmissions: Option<int>)

  datatype ScoreLine = ScoreLine(squadName: string, squadId: SquadId, totalPoints: int, successfulSubmissions: int)

  /** The body of GET /scoreboard: the campaign (if any), its lines and the two counts. */
  datatype ScoreboardBody = ScoreboardBody(campaign: Option<CampaignId>, scoreboard: seq<ScoreLine>,
                                           totalSubmissions: nat, totalChallenges: nat)

  /** The formatting loop of GET /scoreboard: null totals and counts are reported as 0, order kept. */
  method FormatScoreboard(rows: seq<ScoreRow>) returns (lines: seq<ScoreLine>)
    ensures |lines| == |rows|
    ensures forall k :: 0 <= k < |rows| ==>
      && lines[k].squadName == rows[k].squadName && lines[k].squadId == rows[k].squadId
      && (rows[k].totalPoints.Some? ==> lines[k].totalPoints == rows[k].totalPoints.value)
      && (rows[k].totalPoints.None? ==> lines[k].totalPoints == 0)
      && (rows[k].successfulSubmissions.Some? ==> lines[k].successfulSubmissions == rows[k].successfulSubmissions.value)
      && (rows[k].successfulSubmissions.None? ==> lines[k].successfulSubmissions == 0)
  {
    lines := [];
    for k := 0 to |rows|
      invariant |lines| == k
      invariant forall j :: 0 <= j < k ==>
        && lines[j].squadName == rows[j].squadName && lines[j].squadId == rows[j].squadId
        && lines[j].totalPoints == rows[j].totalPoints.GetOr(0)
        && lines[j].successfulSubmissions == rows[j].successfulSubmissions.GetOr(0)
    {
      var row := rows[k];
      lines := lines + [ScoreLine(row.squadName, row.squadId, row.totalPoints.GetOr(0),
                                  row.successfulSubmissions.GetOr(0))];
    }
  }

  /**
   * GET /scoreboard: with no current campaign the scoreboard is empty and
   * both counts are 0, whatever the tables hold.
   */
  method Scoreboard(current: Option<CampaignId>, rows: seq<ScoreRow>, totalSubmissions: nat, totalChallenges: nat)
    returns (body: ScoreboardBody)
    ensures current.None? <==> body.campaign.None?
    ensures current.None? ==> body.scoreboard == [] && body.totalSubmissions == 0 && body.totalChallenges == 0
    ensures current.Some? ==>
      && body.campaign == current && |body.scoreboard| == |rows|
      && body.totalSubmissions == totalSubmissions && body.totalChallenges == totalChallenges
    ensures current.Some? ==> forall k :: 0 <= k < |rows| ==>
      body.scoreboard[k] == ScoreLine(rows[k].squadName, rows[k].squadId, rows[k].totalPoints.GetOr(0),
                                      rows[k].successfulSubmissions.GetOr(0))
  {
    if current.None? {
      return ScoreboardBody(None, [], 0, 0);
    }
    var lines := FormatScoreboard(rows);
    body := ScoreboardBody(current, lines, totalSubmissions, totalChallenges);
  }
}
