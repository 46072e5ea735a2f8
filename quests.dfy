/**
 * QuestInputOperations and QuestSubmissionOperations (crud.py): the daily
 * quest variant of the challenge engine. One input is generated per daily
 * quest and shared by every squad; a correct submission is a squad's first
 * success when the squad has no earlier winning row for the quest, and a
 * first success is worth a fixed 20 bytes to every member of the squad.
 */
module Quests {
  import opened Wrappers
  import opened Text
  import opened BytesLedger
  import InputGenerator
  import ChallengeModel
  import opened SeqFacts

  type QuestId = nat
  type SquadId = ChallengeModel.SquadId

  /** _calculate_points: every first success is worth the same. */
  const QuestPoints: int := 20
  const RewardReason: string := "Daily quest reward (first correct solution)"

  /** The one input row of a daily quest. */
  datatype QuestInput = QuestInput(inputData: string, resultData: string)

  datatype QuestSubmission = QuestSubmission(
    dailyQuestId: QuestId,
    guildId: GuildId,
    squadId: SquadId,
    userId: UserId,
    username: string,
    submittedSolution: string,
    isCorrect: bool,
    isFirstSuccess: bool,
    pointsEarned: Option<int>)

  // ---------------------------------------------------------------------
  // Input: generated once per quest
  // ---------------------------------------------------------------------

  /**
   * get_or_create_input keyed by the daily quest alone: a stored row is
   * returned as it is, otherwise the script's pair is stored; every failure
   * leaves the table as it was.
   */
  function GetOrCreateQuestInput(inputs: map<QuestId, QuestInput>, questId: QuestId, script: Option<string>,
                                 run: InputGenerator.ScriptRunner, parse: InputGenerator.JsonParser)
    : (r: (Result<(string, string), InputGenerator.InputError>, map<QuestId, QuestInput>))
    ensures questId in inputs ==> r == (Ok((inputs[questId].inputData, inputs[questId].resultData)), inputs)
    ensures questId !in inputs && !InputGenerator.HasScript(script) ==> r == (Err(InputGenerator.NoScript), inputs)
    ensures questId !in inputs && InputGenerator.HasScript(script) ==>
      var gen := InputGenerator.ExecuteScript(script.value, run, parse);
      && (r.0.Ok? <==> gen.Ok?)
      && (r.0.Ok? ==> r.0 == Ok(gen.value) && r.1 == inputs[questId := QuestInput(gen.value.0, gen.value.1)])
    ensures r.0.Err? ==> r.1 == inputs
  {
    if questId in inputs then
      (Ok((inputs[questId].inputData, inputs[questId].resultData)), inputs)
    else if !InputGenerator.HasScript(script) then
      (Err(InputGenerator.NoScript), inputs)
    else
      StoreGenerated(inputs, questId, InputGenerator.ExecuteScript(script.value, run, parse))
  }

  /** The outcome of running the generator for a quest without an input: stored on success, nothing stored on failure. */
  function StoreGenerated(inputs: map<QuestId, QuestInput>, questId: QuestId,
                          generated: Result<(string, string), InputGenerator.ScriptError>)
    : (Result<(string, string), InputGenerator.InputError>, map<QuestId, QuestInput>)
  {
    match generated
    case Err(e) => (Err(InputGenerator.GenerationFailed(e)), inputs)
    case Ok(pair) => (Ok(pair), inputs[questId := QuestInput(pair.0, pair.1)])
  }

  /**
   * The input is shared: once a call succeeds, every later call for the quest,
   * from any squad and with any script, gets the same pair and runs nothing.
   */
  lemma QuestInputShared(inputs: map<QuestId, QuestInput>, questId: QuestId, script: Option<string>,
                         run: InputGenerator.ScriptRunner, parse: InputGenerator.JsonParser,
                         script2: Option<string>, run2: InputGenerator.ScriptRunner, parse2: InputGenerator.JsonParser)
    requires GetOrCreateQuestInput(inputs, questId, script, run, parse).0.Ok?
    ensures var (r1, t1) := GetOrCreateQuestInput(inputs, questId, script, run, parse);
      GetOrCreateQuestInput(t1, questId, script2, run2, parse2) == (r1, t1)
  {
  }

  // ---------------------------------------------------------------------
  // Submission
  // ---------------------------------------------------------------------

  /** A row _get_first_success_for_squad would find. */
  predicate IsQuestWin(s: QuestSubmission, questId: QuestId, squadId: SquadId) {
    s.dailyQuestId == questId && s.squadId == squadId && s.isFirstSuccess
  }

  predicate SquadHasWon(log: seq<QuestSubmission>, questId: QuestId, squadId: SquadId) {
    exists i :: 0 <= i < |log| && IsQuestWin(log[i], questId, squadId)
  }

  /** The answer of submit_solution: (is_correct, is_first_success, points_earned). */
  datatype QuestVerdict = QuestVerdict(isCorrect: bool, isFirstSuccess: bool, pointsEarned: Option<int>)

  /**
   * InputNotGenerated is the ValueError for a quest without an input;
   * RewardFailed is the DatabaseOperationError that create_system_reward
   * raises when asked to add a missing amount to a balance.
   */
  datatype QuestSubmitError = InputNotGenerated | RewardFailed

  /** The verdict before any crediting: stripped comparison, then the squad's first win. */
  function Judge(expected: string, log: seq<QuestSubmission>, questId: QuestId, squadId: SquadId,
                 submitted: string): QuestVerdict
  {
    var correct := Strip(expected) == Strip(submitted);
    var first := correct && !SquadHasWon(log, questId, squadId);
    QuestVerdict(correct, first, if first then Some(QuestPoints) else None)
  }

  /** create_system_reward for each member in turn. */
  function CreditMembers(balances: map<Account, Balance>, guild: GuildId, members: seq<UserId>, amount: int)
    : map<Account, Balance>
    decreases |members|
  {
    if members == [] then balances
    else SystemReward(CreditMembers(balances, guild, members[..|members| - 1], amount), guild, members[|members| - 1], amount)
  }

  /** The reward transactions recorded for those members, in order. */
  function RewardTransactions(guild: GuildId, members: seq<UserId>, amount: int, reason: string): (txs: seq<Transaction>)
    ensures |txs| == |members|
    decreases |members|
  {
    if members == [] then []
    else RewardTransactions(guild, members[..|members| - 1], amount, reason)
         + [Transaction(guild, SystemId, members[|members| - 1], amount, Reward(reason))]
  }

  /** One SYSTEM reward per member, in member order. */
  lemma {:induction false} RewardTransactionsPerMember(guild: GuildId, members: seq<UserId>, amount: int, reason: string)
    ensures forall i :: 0 <= i < |members| ==>
      RewardTransactions(guild, members, amount, reason)[i] == Transaction(guild, SystemId, members[i], amount, Reward(reason))
    decreases |members|
  {
    if members != [] {
      RewardTransactionsPerMember(guild, members[..|members| - 1], amount, reason);
    }
  }

  /** One more member: one more reward on the balances and one more transaction at the end. */
  lemma RewardStep(balances: map<Account, Balance>, guild: GuildId, members: seq<UserId>, i: nat,
                   amount: int, reason: string)
    requires i < |members|
    ensures CreditMembers(balances, guild, members[..i + 1], amount)
         == SystemReward(CreditMembers(balances, guild, members[..i], amount), guild, members[i], amount)
    ensures RewardTransactions(guild, members[..i + 1], amount, reason)
         == RewardTransactions(guild, members[..i], amount, reason) + [Transaction(guild, SystemId, members[i], amount, Reward(reason))]
  {
    assert members[..i + 1][..i] == members[..i];
  }

  /** What a successful submission produces: the answer, the row, the balances and the reward log. */
  datatype QuestOutcome = QuestOutcome(verdict: QuestVerdict, row: QuestSubmission,
                                       balances: map<Account, Balance>, rewards: seq<Transaction>)

  function Row(questId: QuestId, guild: GuildId, squadId: SquadId, userId: UserId, username: string,
               submitted: string, v: QuestVerdict): QuestSubmission {
    QuestSubmission(questId, guild, squadId, userId, username, submitted, v.isCorrect, v.isFirstSuccess, v.pointsEarned)
  }

  /**
   * submit_solution as written: every correct submission credits all members
   * with points_earned, which is None unless this is the first success; a
   * None amount fails the reward and the whole submission is rolled back.
   */
  function SubmitQuestSolutionAsWritten(inputs: map<QuestId, QuestInput>, log: seq<QuestSubmission>,
                                        balances: map<Account, Balance>, members: seq<UserId>,
                                        questId: QuestId, guild: GuildId, squadId: SquadId,
                                        userId: UserId, username: string, submitted: string)
    : Result<QuestOutcome, QuestSubmitError>
  {
    if questId !in inputs then Err(InputNotGenerated)
    else
      var v := Judge(inputs[questId].resultData, log, questId, squadId, submitted);
      if v.isCorrect && v.pointsEarned.None? && members != [] then Err(RewardFailed)
      else
        var credited := if v.isCorrect then members else [];
        Ok(QuestOutcome(v, Row(questId, guild, squadId, userId, username, submitted, v),
                        CreditMembers(balances, guild, credited, QuestPoints),
                        RewardTransactions(guild, credited, QuestPoints, RewardReason)))
  }

  /** submit_solution as evidently intended: members are credited on the first success only. */
  function SubmitQuestSolution(inputs: map<QuestId, QuestInput>, log: seq<QuestSubmission>,
                               balances: map<Account, Balance>, members: seq<UserId>,
                               questId: QuestId, guild: GuildId, squadId: SquadId,
                               userId: UserId, username: string, submitted: string)
    : Result<QuestOutcome, QuestSubmitError>
  {
    if questId !in inputs then Err(InputNotGenerated)
    else
      var v := Judge(inputs[questId].resultData, log, questId, squadId, submitted);
      var credited := if v.isFirstSuccess then members else [];
      Ok(QuestOutcome(v, Row(questId, guild, squadId, userId, username, submitted, v),
                      CreditMembers(balances, guild, credited, QuestPoints),
                      RewardTransactions(guild, credited, QuestPoints, RewardReason)))
  }

  /**
   * The defect: once a squad has won a quest, a further correct answer from
   * any of its members (the squad has at least one) is refused and not recorded.
   */
  lemma RepeatCorrectAnswerFailsAsWritten(inputs: map<QuestId, QuestInput>, log: seq<QuestSubmission>,
                                          balances: map<Account, Balance>, members: seq<UserId>,
                                          questId: QuestId, guild: GuildId, squadId: SquadId,
                                          userId: UserId, username: string, submitted: string)
    requires questId in inputs && Strip(inputs[questId].resultData) == Strip(submitted)
    requires SquadHasWon(log, questId, squadId) && members != []
    ensures SubmitQuestSolutionAsWritten(inputs, log, balances, members, questId, guild, squadId,
                                         userId, username, submitted) == Err(RewardFailed)
  {
  }

  /** The padded answer of the example below strips to the stored result. */
  lemma PaddedAnswerStrips()
    ensures Strip(" 42\n") == "42"
  {
    assert IsSpace(' ') && !IsSpace('4') && IsSpace('\n') && !IsSpace('2');
    assert " 42\n"[0] == ' ' && " 42\n"[1..] == "42\n";
    assert DropWhile(" 42\n", IsSpace) == DropWhile("42\n", IsSpace);
    assert "42\n"[0] == '4';
    assert DropWhile("42\n", IsSpace) == "42\n";
    assert "42\n"[2] == '\n' && "42\n"[..2] == "42";
    assert DropWhileEnd("42\n", IsSpace) == DropWhileEnd("42", IsSpace);
    assert "42"[1] == '2';
    assert DropWhileEnd("42", IsSpace) == "42";
  }

  /** The stored result of the example below is already stripped. */
  lemma StoredAnswerStrips()
    ensures Strip("42") == "42"
  {
    assert DropWhile("42", IsSpace) == "42";
    assert DropWhileEnd("42", IsSpace) == "42";
  }

  /** A concrete case: squad 1 has already won quest 0, and its member answers correctly again. */
  lemma RepeatCorrectAnswerExample()
    ensures var inputs := map[0 := QuestInput("in", "42")];
      var won := QuestSubmission(0, "g", 1, "u", "alice", "42", true, true, Some(QuestPoints));
      var asWritten := SubmitQuestSolutionAsWritten(inputs, [won], map[], ["u"], 0, "g", 1, "u", "alice", " 42\n");
      var corrected := SubmitQuestSolution(inputs, [won], map[], ["u"], 0, "g", 1, "u", "alice", " 42\n");
      && asWritten == Err(RewardFailed)
      && corrected.Ok? && corrected.value.verdict == QuestVerdict(true, false, None)
      && corrected.value.balances == map[] && corrected.value.rewards == []
  {
    var inputs := map[0 := QuestInput("in", "42")];
    var won := QuestSubmission(0, "g", 1, "u", "alice", "42", true, true, Some(QuestPoints));
    assert IsQuestWin([won][0], 0, 1);
    PaddedAnswerStrips();
    StoredAnswerStrips();
    RepeatCorrectAnswerFailsAsWritten(inputs, [won], map[], ["u"], 0, "g", 1, "u", "alice", " 42\n");
  }

  /** Outside that case the correction changes nothing: both definitions agree. */
  lemma CorrectionOnlyTouchesRepeatWins(inputs: map<QuestId, QuestInput>, log: seq<QuestSubmission>,
                                        balances: map<Account, Balance>, members: seq<UserId>,
                                        questId: QuestId, guild: GuildId, squadId: SquadId,
                                        userId: UserId, username: string, submitted: string)
    requires questId in inputs ==>
      !(Strip(inputs[questId].resultData) == Strip(submitted) && SquadHasWon(log, questId, squadId) && members != [])
    ensures SubmitQuestSolutionAsWritten(inputs, log, balances, members, questId, guild, squadId, userId, username, submitted)
         == SubmitQuestSolution(inputs, log, balances, members, questId, guild, squadId, userId, username, submitted)
  {
  }

  /**
   * The submit contract: a missing input is the only error; correctness is the
   * stripped comparison; a first success is a correct answer from a squad
   * without a win; only a first success carries points and rewards, and the
   * row records the verdict with the text as sent.
   */
  lemma SubmitQuestVerdict(inputs: map<QuestId, QuestInput>, log: seq<QuestSubmission>,
                           balances: map<Account, Balance>, members: seq<UserId>,
                           questId: QuestId, guild: GuildId, squadId: SquadId,
                           userId: UserId, username: string, submitted: string)
    ensures var r := SubmitQuestSolution(inputs, log, balances, members, questId, guild, squadId, userId, username, submitted);
      && (r.Err? <==> questId !in inputs)
      && (r.Ok? ==>
        var v := r.value.verdict;
        && (v.isCorrect <==> Strip(inputs[questId].resultData) == Strip(submitted))
        && (v.isFirstSuccess <==> v.isCorrect && !SquadHasWon(log, questId, squadId))
        && (v.pointsEarned == if v.isFirstSuccess then Some(QuestPoints) else None)
        && (|r.value.rewards| == if v.isFirstSuccess then |members| else 0)
        && r.value.row == QuestSubmission(questId, guild, squadId, userId, username, submitted,
                                          v.isCorrect, v.isFirstSuccess, v.pointsEarned))
  {
  }

  /**
   * Crediting distinct members adds the amount to each member's balance in
   * the guild and leaves every other account as it was.
   */
  lemma {:induction false} CreditMembersEffect(balances: map<Account, Balance>, guild: GuildId,
                                               members: seq<UserId>, amount: int, a: Account)
    requires forall i, j :: 0 <= i < j < |members| ==> members[i] != members[j]
    ensures GetOrCreate(CreditMembers(balances, guild, members, amount), a).balance ==
      GetOrCreate(balances, a).balance + (if a.0 == guild && a.1 in members then amount else 0)
    ensures (a.0 != guild || a.1 !in members) && a in balances ==>
      a in CreditMembers(balances, guild, members, amount) &&
      CreditMembers(balances, guild, members, amount)[a] == balances[a]
    decreases |members|
  {
    if members != [] {
      var init := members[..|members| - 1];
      var last := members[|members| - 1];
      CreditMembersEffect(balances, guild, init, amount, a);
      assert a.1 in members <==> a.1 in init || a.1 == last;
      if a == (guild, last) {
        assert last !in init;
      }
    }
  }

  /** The log holds at most one win per (quest, squad), and a win always carries its points. */
  ghost predicate QuestLogWellFormed(log: seq<QuestSubmission>) {
    && (forall i :: 0 <= i < |log| ==> (log[i].isFirstSuccess <==> log[i].pointsEarned.Some?))
    && (forall i, j :: 0 <= i < j < |log| && log[i].isFirstSuccess && log[j].isFirstSuccess ==>
          (log[i].dailyQuestId, log[i].squadId) != (log[j].dailyQuestId, log[j].squadId))
  }

  /** A row may be appended when its points mark its win and a win comes only for a squad without one. */
  lemma {:induction false} AppendKeepsQuestLogWellFormed(log: seq<QuestSubmission>, row: QuestSubmission)
    requires QuestLogWellFormed(log)
    requires row.isFirstSuccess <==> row.pointsEarned.Some?
    requires row.isFirstSuccess ==> !SquadHasWon(log, row.dailyQuestId, row.squadId)
    ensures QuestLogWellFormed(log + [row])
  {
    var log' := log + [row];
    forall i, j | 0 <= i < j < |log'| && log'[i].isFirstSuccess && log'[j].isFirstSuccess
      ensures (log'[i].dailyQuestId, log'[i].squadId) != (log'[j].dailyQuestId, log'[j].squadId)
    {
      if j == |log| {
        assert !IsQuestWin(log[i], row.dailyQuestId, row.squadId);
      } else {
        assert log'[i] == log[i] && log'[j] == log[j];
      }
    }
  }

  /** Every recorded submission keeps the log well formed. */
  lemma SubmitKeepsLogWellFormed(inputs: map<QuestId, QuestInput>, log: seq<QuestSubmission>,
                                 balances: map<Account, Balance>, members: seq<UserId>,
                                 questId: QuestId, guild: GuildId, squadId: SquadId,
                                 userId: UserId, username: string, submitted: string)
    requires QuestLogWellFormed(log)
    requires SubmitQuestSolution(inputs, log, balances, members, questId, guild, squadId, userId, username, submitted).Ok?
    ensures QuestLogWellFormed(log + [SubmitQuestSolution(inputs, log, balances, members, questId, guild, squadId,
                                                          userId, username, submitted).value.row])
  {
    var v := Judge(inputs[questId].resultData, log, questId, squadId, submitted);
    AppendKeepsQuestLogWellFormed(log, Row(questId, guild, squadId, userId, username, submitted, v));
  }

  /** The quest tables: the shared inputs and the append-only submission log. */
  class QuestOperations {
    var inputs: map<QuestId, QuestInput>
    var submissions: seq<QuestSubmission>

    constructor ()
      ensures inputs == map[] && submissions == []
    {
      inputs, submissions := map[], [];
    }

    /** get_or_create_input: the table changes only by the one generated row. */
    method GetOrCreateInput(questId: QuestId, script: Option<string>,
                            run: InputGenerator.ScriptRunner, parse: InputGenerator.JsonParser)
      returns (r: Result<(string, string), InputGenerator.InputError>)
      modifies this
      ensures (r, inputs) == GetOrCreateQuestInput(old(inputs), questId, script, run, parse)
      ensures submissions == old(submissions)
    {
      if questId in inputs {
        return Ok((inputs[questId].inputData, inputs[questId].resultData));
      }
      if script.None? || script.value == "" {
        return Err(InputGenerator.NoScript);
      }
      r := GenerateInput(questId, script.value, run, parse);
    }

    /** Runs the generator and stores its pair; a failure stores nothing. */
    method GenerateInput(questId: QuestId, script: string,
                         run: InputGenerator.ScriptRunner, parse: InputGenerator.JsonParser)
      returns (r: Result<(string, string), InputGenerator.InputError>)
      modifies this`inputs
      ensures (r, inputs) == StoreGenerated(old(inputs), questId, InputGenerator.ExecuteScript(script, run, parse))
    {
      var generated := InputGenerator.RunScript(script, run, parse);
      if generated.Err? {
        r := Err(InputGenerator.GenerationFailed(generated.error));
      } else {
        inputs := inputs[questId := QuestInput(generated.value.0, generated.value.1)];
        r := Ok(generated.value);
      }
      assert (r, inputs) == StoreGenerated(old(inputs), questId, generated);
    }

    /** _get_first_success_for_squad as a scan of the log. */
    method HasFirstSuccess(questId: QuestId, squadId: SquadId) returns (found: bool)
      ensures found <==> SquadHasWon(submissions, questId, squadId)
    {
      found := false;
      for i := 0 to |submissions|
        invariant found <==> exists k :: 0 <= k < i && IsQuestWin(submissions[k], questId, squadId)
      {
        if IsQuestWin(submissions[i], questId, squadId) {
          found := true;
        }
      }
    }

    /**
     * submit_solution, with the members of the squad given in query order:
     * the verdict, the rewards of a first success, and one appended row.
     */
    method SubmitSolution(ledger: Ledger, members: seq<UserId>, questId: QuestId, guild: GuildId,
                          squadId: SquadId, userId: UserId, username: string, submitted: string)
      returns (r: Result<QuestVerdict, QuestSubmitError>)
      requires ledger.Valid()
      modifies this, ledger
      ensures ledger.Valid()
      ensures inputs == old(inputs)
      ensures var spec := SubmitQuestSolution(old(inputs), old(submissions), old(ledger.balances), members,
                                              questId, guild, squadId, userId, username, submitted);
        && (spec.Err? ==> r == Err(spec.error) && submissions == old(submissions)
                          && ledger.balances == old(ledger.balances) && ledger.transactions == old(ledger.transactions))
        && (spec.Ok? ==> r == Ok(spec.value.verdict) && submissions == old(submissions) + [spec.value.row]
                         && ledger.balances == spec.value.balances
                         && ledger.transactions == old(ledger.transactions) + spec.value.rewards)
    {
      if questId !in inputs {
        return Err(InputNotGenerated);
      }
      ghost var judged := Judge(inputs[questId].resultData, submissions, questId, squadId, submitted);
      var expected := Strip(inputs[questId].resultData);
      var isCorrect := expected == Strip(submitted);
      var isFirstSuccess := false;
      var pointsEarned: Option<int> := None;
      if isCorrect {
        var existing := HasFirstSuccess(questId, squadId);
        isFirstSuccess := !existing;
        if isFirstSuccess {
          pointsEarned := Some(QuestPoints);
          RewardMembers(ledger, members, guild, RewardReason);
        }
      }
      if !isFirstSuccess {
        NothingAppended(old(ledger.transactions));
      }
      var v := QuestVerdict(isCorrect, isFirstSuccess, pointsEarned);
      assert v == judged;
      submissions := submissions + [Row(questId, guild, squadId, userId, username, submitted, v)];
      r := Ok(v);
    }

    /** The reward loop: create_system_reward for every member, in order. */
    method RewardMembers(ledger: Ledger, members: seq<UserId>, guild: GuildId, reason: string)
      requires ledger.Valid()
      modifies ledger
      ensures ledger.Valid()
      ensures ledger.balances == CreditMembers(old(ledger.balances), guild, members, QuestPoints)
      ensures ledger.transactions == old(ledger.transactions) + RewardTransactions(guild, members, QuestPoints, reason)
    {
      for i := 0 to |members|
        invariant ledger.Valid()
        invariant ledger.balances == CreditMembers(old(ledger.balances), guild, members[..i], QuestPoints)
        invariant ledger.transactions == old(ledger.transactions) + RewardTransactions(guild, members[..i], QuestPoints, reason)
      {
        RewardStep(old(ledger.balances), guild, members, i, QuestPoints, reason);
        ghost var before := old(ledger.transactions);
        ghost var done := RewardTransactions(guild, members[..i], QuestPoints, reason);
        var tx := ledger.CreateSystemReward(guild, members[i], QuestPoints, reason);
        AppendAfterConcat(before, done, tx);
      }
      assert members[..|members|] == members;
    }
  }
}
