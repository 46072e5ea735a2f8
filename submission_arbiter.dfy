/**
 * ChallengeSubmissionOperations (crud.py): the strip-and-compare correctness
 * check, the per-(challenge, squad) first-success decision over the
 * append-only submission log, and the points wrapper around the scoring
 * function. The scoring curve itself (scoring.py) is not part of this model:
 * it is a parameter, and None stands for it raising.
 */
module SubmissionArbiter {
  import opened Wrappers
  import opened Text
  import opened ChallengeModel

  type InputKey = (ChallengeId, SquadId)

  /** calculate_challenge_points(input_generated_at, submission_time, challenge_end_time). */
  type Scorer = (int, int, int) -> Option<int>

  const MaxPoints: int := 4096

  /** The range the scoring function's documentation promises. */
  ghost predicate ScorerInRange(scorer: Scorer) {
    forall a, b, c :: scorer(a, b, c).Some? ==> 0 <= scorer(a, b, c).value <= MaxPoints
  }

  /** The comparison: expected result and submission are equal once surrounding whitespace is stripped. */
  predicate IsCorrect(expected: string, submitted: string) {
    Strip(expected) == Strip(submitted)
  }

  /** A row that _get_first_success_for_squad would find for the pair. */
  predicate IsWin(s: ChallengeSubmission, cid: ChallengeId, sid: SquadId) {
    s.challengeId == cid && s.squadId == sid && s.isCorrect && s.isFirstSuccess
  }

  /** _get_first_success_for_squad: the earliest winning row of the pair, by position in the log. */
  function FirstSuccess(log: seq<ChallengeSubmission>, cid: ChallengeId, sid: SquadId): (r: Option<nat>)
    ensures r.Some? ==> r.value < |log| && IsWin(log[r.value], cid, sid)
    ensures r.Some? ==> forall j :: 0 <= j < r.value ==> !IsWin(log[j], cid, sid)
    ensures r.None? <==> forall j :: 0 <= j < |log| ==> !IsWin(log[j], cid, sid)
  {
    if log == [] then None
    else match FirstSuccess(log[..|log| - 1], cid, sid)
      case Some(i) => Some(i)
      case None => if IsWin(log[|log| - 1], cid, sid) then Some(|log| - 1) else None
  }

  /** End of the whole campaign schedule: start + (number of challenges) * cadence hours. */
  function CampaignEndTime(start: int, numChallenges: int, cadenceHours: int): int {
    start + numChallenges * cadenceHours * SecondsPerHour
  }

  /** The campaign ends when a challenge after the last one would have been released. */
  lemma EndIsNextReleaseSlot(start: int, numChallenges: int, cadenceHours: int)
    ensures CampaignEndTime(start, numChallenges, cadenceHours) == ReleaseTime(start, numChallenges + 1, cadenceHours)
  {
  }

  /** Every position of the campaign releases strictly before its end. */
  lemma ReleasesBeforeEnd(start: int, position: int, numChallenges: int, cadenceHours: int)
    requires 1 <= cadenceHours <= 168
    requires 1 <= position <= numChallenges
    ensures ReleaseTime(start, position, cadenceHours) < CampaignEndTime(start, numChallenges, cadenceHours)
  {
    EndIsNextReleaseSlot(start, numChallenges, cadenceHours);
    ReleaseTimeStrictlyIncreasing(start, position, numChallenges + 1, cadenceHours);
  }

  /** The challenges of one campaign, counted as SELECT count(*) does. */
  function ChallengeCount(challenges: map<ChallengeId, Challenge>, campaignId: CampaignId): nat {
    |set id | id in challenges && challenges[id].campaignId == campaignId|
  }

  /**
   * _calculate_points: 0 when the challenge or its campaign is missing, when
   * the campaign has no challenges or when scoring raises; otherwise what
   * the scorer gives for (input time, submission time, campaign end).
   */
  function CalculatePoints(campaigns: map<CampaignId, Campaign>, challenges: map<ChallengeId, Challenge>,
                           cid: ChallengeId, inputAt: int, now: int, scorer: Scorer): (p: int)
    ensures cid !in challenges || challenges[cid].campaignId !in campaigns ==> p == 0
    ensures cid in challenges && challenges[cid].campaignId in campaigns ==>
      var campaignId := challenges[cid].campaignId;
      var camp := campaigns[campaignId];
      var n := ChallengeCount(challenges, campaignId);
      p == if n == 0 then 0 else scorer(inputAt, now, CampaignEndTime(camp.startTime, n, camp.cadenceHours)).GetOr(0)
    ensures ScorerInRange(scorer) ==> 0 <= p <= MaxPoints
  {
    if cid !in challenges || challenges[cid].campaignId !in campaigns then 0
    else
      var c := challenges[cid];
      var camp := campaigns[c.campaignId];
      var n := ChallengeCount(challenges, c.campaignId);
      if n == 0 then 0
      else
        match scorer(inputAt, now, CampaignEndTime(camp.startTime, n, camp.cadenceHours))
        case None => 0
        case Some(v) => v
  }

  /** A challenge's own campaign always counts it, so the zero-challenge fallback never applies to it. */
  lemma CountIncludesChallenge(challenges: map<ChallengeId, Challenge>, cid: ChallengeId)
    requires cid in challenges
    ensures ChallengeCount(challenges, challenges[cid].campaignId) >= 1
  {
    var ids := set id | id in challenges && challenges[id].campaignId == challenges[cid].campaignId;
    assert cid in ids;
  }

  /** The answer of submit_solution: (is_correct, is_first_success, points_earned). */
  datatype Verdict = Verdict(isCorrect: bool, isFirstSuccess: bool, pointsEarned: Option<int>)

  /** The ValueError raised when the squad has no input for the challenge. */
  datatype SubmitError = NoInputForSquad

  /**
   * submit_solution: the verdict and the row it appends. The row carries the
   * submission text as sent (unstripped) and the verdict's three fields.
   */
  function Submit(campaigns: map<CampaignId, Campaign>, challenges: map<ChallengeId, Challenge>,
                  inputs: map<InputKey, ChallengeInput>, log: seq<ChallengeSubmission>,
                  cid: ChallengeId, sid: SquadId, userId: UserId, username: string,
                  submitted: string, now: int, scorer: Scorer)
    : Result<(Verdict, ChallengeSubmission), SubmitError>
  {
    if (cid, sid) !in inputs then Err(NoInputForSquad)
    else
      var input := inputs[(cid, sid)];
      var correct := IsCorrect(input.resultData, submitted);
      var first := correct && FirstSuccess(log, cid, sid).None?;
      var points := if first then Some(CalculatePoints(campaigns, challenges, cid, input.createdAt, now, scorer)) else None;
      var v := Verdict(correct, first, points);
      Ok((v, ChallengeSubmission(cid, sid, userId, username, submitted, correct, first, points, now)))
  }

  /**
   * The submit contract: no input is the only error; the verdict's correctness
   * is the stripped comparison; first success means correct and no earlier win
   * of the same pair; points are present exactly on a first success.
   */
  lemma SubmitVerdict(campaigns: map<CampaignId, Campaign>, challenges: map<ChallengeId, Challenge>,
                      inputs: map<InputKey, ChallengeInput>, log: seq<ChallengeSubmission>,
                      cid: ChallengeId, sid: SquadId, userId: UserId, username: string,
                      submitted: string, now: int, scorer: Scorer)
    ensures var r := Submit(campaigns, challenges, inputs, log, cid, sid, userId, username, submitted, now, scorer);
      && (r.Err? <==> (cid, sid) !in inputs)
      && (r.Ok? ==>
        var (v, row) := r.value;
        && (v.isCorrect <==> Strip(inputs[(cid, sid)].resultData) == Strip(submitted))
        && (v.isFirstSuccess <==> v.isCorrect && forall j :: 0 <= j < |log| ==> !IsWin(log[j], cid, sid))
        && (v.pointsEarned.Some? <==> v.isFirstSuccess)
        && row == ChallengeSubmission(cid, sid, userId, username, submitted,
                                      v.isCorrect, v.isFirstSuccess, v.pointsEarned, now))
  {
  }

  /** Invariant of the submission log: at most one winning row per (challenge, squad), points only on wins. */
  ghost predicate LogWellFormed(log: seq<ChallengeSubmission>) {
    && (forall i :: 0 <= i < |log| ==> (log[i].pointsEarned.Some? <==> log[i].isFirstSuccess))
    && (forall i :: 0 <= i < |log| ==> log[i].isFirstSuccess ==> log[i].isCorrect)
    && (forall i, j :: 0 <= i < j < |log| && log[i].isFirstSuccess && log[j].isFirstSuccess ==>
          (log[i].challengeId, log[i].squadId) != (log[j].challengeId, log[j].squadId))
  }

  /** A row may be appended when its points mark its win and a win comes only for a pair without one. */
  lemma {:induction false} AppendKeepsLogWellFormed(log: seq<ChallengeSubmission>, row: ChallengeSubmission)
    requires LogWellFormed(log)
    requires row.pointsEarned.Some? <==> row.isFirstSuccess
    requires row.isFirstSuccess ==> row.isCorrect
    requires row.isFirstSuccess ==> forall j :: 0 <= j < |log| ==> !IsWin(log[j], row.challengeId, row.squadId)
    ensures LogWellFormed(log + [row])
  {
    var log' := log + [row];
    forall i, j | 0 <= i < j < |log'| && log'[i].isFirstSuccess && log'[j].isFirstSuccess
      ensures (log'[i].challengeId, log'[i].squadId) != (log'[j].challengeId, log'[j].squadId)
    {
      if j == |log| {
        assert !IsWin(log[i], row.challengeId, row.squadId);
      } else {
        assert log'[i] == log[i] && log'[j] == log[j];
      }
    }
  }

  /** Appending the row of any accepted submission keeps the log well formed. */
  lemma SubmitPreservesLog(campaigns: map<CampaignId, Campaign>, challenges: map<ChallengeId, Challenge>,
                           inputs: map<InputKey, ChallengeInput>, log: seq<ChallengeSubmission>,
                           cid: ChallengeId, sid: SquadId, userId: UserId, username: string,
                           submitted: string, now: int, scorer: Scorer)
    requires LogWellFormed(log)
    requires Submit(campaigns, challenges, inputs, log, cid, sid, userId, username, submitted, now, scorer).Ok?
    ensures LogWellFormed(log + [Submit(campaigns, challenges, inputs, log, cid, sid, userId, username, submitted, now, scorer).value.1])
  {
    var row := Submit(campaigns, challenges, inputs, log, cid, sid, userId, username, submitted, now, scorer).value.1;
    AppendKeepsLogWellFormed(log, row);
  }

  /** Once a squad has won a challenge, a later submission of that squad never wins or earns points. */
  lemma NoSecondWin(campaigns: map<CampaignId, Campaign>, challenges: map<ChallengeId, Challenge>,
                    inputs: map<InputKey, ChallengeInput>, log: seq<ChallengeSubmission>,
                    cid: ChallengeId, sid: SquadId, userId: UserId, username: string,
                    submitted: string, now: int, scorer: Scorer, k: nat)
    requires k < |log| && IsWin(log[k], cid, sid)
    requires Submit(campaigns, challenges, inputs, log, cid, sid, userId, username, submitted, now, scorer).Ok?
    ensures var v := Submit(campaigns, challenges, inputs, log, cid, sid, userId, username, submitted, now, scorer).value.0;
      !v.isFirstSuccess && v.pointsEarned.None?
  {
  }

  /** Squads do not compete: a row of another squad or challenge never changes a pair's first success. */
  lemma {:induction false} OtherPairsIndependent(log: seq<ChallengeSubmission>, row: ChallengeSubmission,
                                                 cid: ChallengeId, sid: SquadId)
    requires row.challengeId != cid || row.squadId != sid
    ensures FirstSuccess(log + [row], cid, sid) == FirstSuccess(log, cid, sid)
  {
    assert (log + [row])[..|log|] == log;
  }
}
