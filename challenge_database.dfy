/**
 * The challenge tables and the CampaignOperations, ChallengeInputOperations
 * and ChallengeSubmissionOperations that read and change them (crud.py).
 * Each table is a field: campaigns and challenges keyed by id, inputs keyed
 * by (challenge, squad) as the compound primary key demands, and the
 * submission log as an append-only sequence. One request runs at a time.
 */
module ChallengeDatabase {
  import opened Wrappers
  import opened ChallengeModel
  import opened Announcements
  import opened InputGenerator
  import opened SubmissionArbiter

  /** Foreign keys hold, rows sit under their own ids, and the log is well formed. */
  ghost predicate TablesConsistent(campaigns: map<CampaignId, Campaign>, challenges: map<ChallengeId, Challenge>,
                                   inputs: map<InputKey, ChallengeInput>, submissions: seq<ChallengeSubmission>)
  {
    && (forall id :: id in challenges ==> challenges[id].id == id && challenges[id].campaignId in campaigns)
    && (forall id :: id in campaigns ==> campaigns[id].id == id)
    && (forall k :: k in inputs ==> k.0 in challenges)
    && LogWellFormed(submissions)
  }

  /** The verdict steps of submit_solution: compare, look for an earlier win, score a first success. */
  method JudgeSubmission(campaigns: map<CampaignId, Campaign>, challenges: map<ChallengeId, Challenge>,
                         inputs: map<InputKey, ChallengeInput>, log: seq<ChallengeSubmission>, input: ChallengeInput,
                         cid: ChallengeId, sid: SquadId, userId: UserId, username: string,
                         submitted: string, now: int, scorer: Scorer)
    returns (v: Verdict, row: ChallengeSubmission)
    requires (cid, sid) in inputs && inputs[(cid, sid)] == input
    ensures Submit(campaigns, challenges, inputs, log, cid, sid, userId, username, submitted, now, scorer) == Ok((v, row))
  {
    var correct := IsCorrect(input.resultData, submitted);
    var first := false;
    var points: Option<int> := None;
    if correct {
      first := FirstSuccess(log, cid, sid).None?;
      if first {
        points := Some(CalculatePoints(campaigns, challenges, cid, input.createdAt, now, scorer));
      }
    }
    v := Verdict(correct, first, points);
    row := ChallengeSubmission(cid, sid, userId, username, submitted, correct, first, points, now);
  }

  class ChallengeDb {
    var campaigns: map<CampaignId, Campaign>
    var challenges: map<ChallengeId, Challenge>
    var inputs: map<InputKey, ChallengeInput>
    var submissions: seq<ChallengeSubmission>

    /** Foreign keys hold, rows sit under their own ids, and the log is well formed. */
    ghost predicate Valid()
      reads this
    {
      TablesConsistent(campaigns, challenges, inputs, submissions)
    }

    constructor ()
      ensures Valid()
      ensures campaigns == map[] && challenges == map[] && inputs == map[] && submissions == []
    {
      campaigns, challenges, inputs, submissions := map[], map[], map[], [];
    }

    /** The challenge is joined to its campaign and pending at `now`. */
    predicate PendingRow(id: ChallengeId, now: int)
      reads this
    {
      id in challenges && challenges[id].campaignId in campaigns
      && IsPending(challenges[id], campaigns[challenges[id].campaignId], now)
    }

    /** The challenge is joined to its campaign and releases within (now, horizon]. */
    predicate UpcomingRow(id: ChallengeId, now: int, horizon: int)
      reads this
    {
      id in challenges && challenges[id].campaignId in campaigns
      && IsUpcoming(challenges[id], campaigns[challenges[id].campaignId], now, horizon)
    }

    /** The rows the SQL part of both announcement queries selects: unannounced, in an active campaign. */
    function UnannouncedInActiveCampaigns(): (ids: set<ChallengeId>)
      reads this
      ensures forall id :: id in ids <==>
        id in challenges && challenges[id].campaignId in campaigns
        && !challenges[id].isAnnounced && campaigns[challenges[id].campaignId].isActive
    {
      set id | id in challenges && challenges[id].campaignId in campaigns
        && !challenges[id].isAnnounced && campaigns[challenges[id].campaignId].isActive
    }

    /**
     * get_pending_announcements: the selected rows filtered in a loop by
     * release time; the result lists every pending challenge once, in no
     * particular order (the query has no ORDER BY).
     */
    method GetPendingAnnouncements(now: int) returns (ready: seq<ChallengeId>)
      ensures forall i, j :: 0 <= i < j < |ready| ==> ready[i] != ready[j]
      ensures forall id :: id in ready <==> PendingRow(id, now)
    {
      var rest := UnannouncedInActiveCampaigns();
      ghost var all := rest;
      ready := [];
      while rest != {}
        invariant rest <= all
        invariant forall i, j :: 0 <= i < j < |ready| ==> ready[i] != ready[j]
        invariant forall id :: id in ready ==> id in all && id !in rest && PendingRow(id, now)
        invariant forall id :: id in all && id !in rest && PendingRow(id, now) ==> id in ready
        decreases rest
      {
        var id :| id in rest;
        rest := rest - {id};
        var c := challenges[id];
        var camp := campaigns[c.campaignId];
        if now >= ReleaseTime(camp.startTime, c.orderPosition, camp.cadenceHours) {
          ready := ready + [id];
        }
      }
    }

    /**
     * get_upcoming_announcements: the selected rows whose release time lies
     * in (now, horizon], each once.
     */
    method GetUpcomingAnnouncements(now: int, horizon: int) returns (upcoming: seq<ChallengeId>)
      ensures forall i, j :: 0 <= i < j < |upcoming| ==> upcoming[i] != upcoming[j]
      ensures forall id :: id in upcoming <==> UpcomingRow(id, now, horizon)
    {
      var rest := UnannouncedInActiveCampaigns();
      ghost var all := rest;
      upcoming := [];
      while rest != {}
        invariant rest <= all
        invariant forall i, j :: 0 <= i < j < |upcoming| ==> upcoming[i] != upcoming[j]
        invariant forall id :: id in upcoming ==> id in all && id !in rest && UpcomingRow(id, now, horizon)
        invariant forall id :: id in all && id !in rest && UpcomingRow(id, now, horizon) ==> id in upcoming
        decreases rest
      {
        var id :| id in rest;
        rest := rest - {id};
        var c := challenges[id];
        var camp := campaigns[c.campaignId];
        var releaseTime := ReleaseTime(camp.startTime, c.orderPosition, camp.cadenceHours);
        if now < releaseTime <= horizon {
          upcoming := upcoming + [id];
        }
      }
    }

    /**
     * mark_challenge_released: sets the flag and re-stamps released_at on
     * every call; false exactly when no row has the id.
     */
    method MarkChallengeReleased(id: ChallengeId, now: int) returns (found: bool)
      requires Valid()
      modifies this
      ensures Valid()
      ensures found <==> id in old(challenges)
      ensures challenges == if found
        then old(challenges)[id := old(challenges)[id].(isReleased := true, releasedAt := Some(now))]
        else old(challenges)
      ensures campaigns == old(campaigns) && inputs == old(inputs) && submissions == old(submissions)
    {
      found := id in challenges;
      if found {
        challenges := challenges[id := challenges[id].(isReleased := true, releasedAt := Some(now))];
      }
    }

    /**
     * mark_challenge_announced: sets the flag and re-stamps announced_at on
     * every call, whether or not the challenge was released; false exactly
     * when no row has the id.
     */
    method MarkChallengeAnnounced(id: ChallengeId, now: int) returns (found: bool)
      requires Valid()
      modifies this
      ensures Valid()
      ensures found <==> id in old(challenges)
      ensures challenges == if found
        then old(challenges)[id := old(challenges)[id].(isAnnounced := true, announcedAt := Some(now))]
        else old(challenges)
      ensures campaigns == old(campaigns) && inputs == old(inputs) && submissions == old(submissions)
    {
      found := id in challenges;
      if found {
        challenges := challenges[id := challenges[id].(isAnnounced := true, announcedAt := Some(now))];
      }
    }

    /** get_input_by_squad / get_existing_input: the stored row of the pair, if any. */
    function GetInputBySquad(cid: ChallengeId, sid: SquadId): (r: Option<ChallengeInput>)
      reads this
      ensures r.Some? <==> (cid, sid) in inputs
      ensures r.Some? ==> r.value == inputs[(cid, sid)]
    {
      if (cid, sid) in inputs then Some(inputs[(cid, sid)]) else None
    }

    /**
     * get_or_create_input: a stored row is returned as it is; otherwise the
     * script runs once and its pair is stored; failures change nothing.
     */
    method GetOrCreateInput(cid: ChallengeId, sid: SquadId, script: Option<string>,
                            run: ScriptRunner, parse: JsonParser, now: int)
      returns (r: Result<(string, string), InputError>)
      requires Valid()
      requires cid in challenges
      modifies this
      ensures Valid()
      ensures (r, inputs) == GetOrCreate(old(inputs), (cid, sid), script, run, parse, now)
      ensures campaigns == old(campaigns) && challenges == old(challenges) && submissions == old(submissions)
    {
      var key := (cid, sid);
      var table := inputs;
      if key in table {
        r := Ok((table[key].inputData, table[key].resultData));
      } else if !HasScript(script) {
        r := Err(NoScript);
      } else {
        var generated := RunScript(script.value, run, parse);
        if generated.Err? {
          r := Err(GenerationFailed(generated.error));
        } else {
          var pair := generated.value;
          table := table[key := ChallengeInput(pair.0, pair.1, now)];
          r := Ok(pair);
        }
      }
      assert TablesConsistent(campaigns, challenges, table, submissions);
      inputs := table;
    }

    /**
     * submit_solution: with no input for the pair nothing is written and the
     * ValueError is returned; otherwise exactly one row is appended, correct
     * or not, and the log stays well formed.
     */
    method SubmitSolution(cid: ChallengeId, sid: SquadId, userId: UserId, username: string,
                          submitted: string, now: int, scorer: Scorer)
      returns (r: Result<Verdict, SubmitError>)
      requires Valid()
      modifies this`submissions
      ensures Valid()
      ensures var spec := Submit(old(campaigns), old(challenges), old(inputs), old(submissions),
                                 cid, sid, userId, username, submitted, now, scorer);
        && (spec.Err? ==> r == Err(spec.error) && submissions == old(submissions))
        && (spec.Ok? ==> r == Ok(spec.value.0) && submissions == old(submissions) + [spec.value.1])
      ensures campaigns == old(campaigns) && challenges == old(challenges) && inputs == old(inputs)
    {
      var input := GetInputBySquad(cid, sid);
      if input.None? {
        return Err(NoInputForSquad);
      }
      var v, row := JudgeSubmission(campaigns, challenges, inputs, submissions, input.value,
                                    cid, sid, userId, username, submitted, now, scorer);
      SubmitPreservesLog(campaigns, challenges, inputs, submissions, cid, sid, userId, username, submitted, now, scorer);
      submissions := submissions + [row];
      r := Ok(v);
    }
  }
}
