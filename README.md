# Challenge campaign engine of smarter-dev, in Dafny

This project models the challenge campaign engine of the smarter-dev Discord
community platform, together with the smaller helpers around it.

## What is modelled

### The campaign engine (`smarter_dev/web/models.py`, `smarter_dev/web/crud.py`)

- **Release clock.** A challenge at order position `p` of a campaign that
  starts at `start` with a cadence of `c` hours releases at
  `start + (p - 1)·c` hours.
- **Announcement queries.** They pick out:
  - the pending challenges: not announced, campaign active, release time
    reached;
  - the upcoming challenges: not announced, campaign active, release time in
    `(now, horizon]`.
- **Mark operations.** They set the released and announced flags and stamp
  the time.
- **Per-squad inputs.** Each (challenge, squad) pair gets its input from a
  generator script, generated once and stored.
- **Submission arbiter.** It decides three things:
  - correctness, by comparing stripped strings;
  - first success, per (challenge, squad) pair over the append-only
    submission log;
  - points, only on a first success, through a wrapper around the scoring
    function.
- **Detailed campaign scoreboard.** Winning rows are grouped per challenge
  and per squad, summed, then sorted three ways.
- **Daily-quest variant.** One input per quest, shared by all squads, and a
  fixed reward credited to each squad member.
- **Squad join and switch.** Their guards, their fees, and the discount from
  the best active sale event.
- **Bytes ledger.** Transfers, system charges, system rewards and the daily
  claim.
- **Repeating messages.** Their send schedule.
- **Three model predicates.**
  - API key validity;
  - subscription expiry;
  - blog excerpt.

### The admin views (`smarter_dev/web/admin/views.py`)

- The slug generator.
- The forum-agent form validator.
- The campaign form checks.
- The next order position of a new challenge.
- The attachment-extension parser.

### The challenges router (`smarter_dev/web/api/routers/challenges.py`)

- The 404/403 guard chains, in the order they run.
- The mark endpoints.
- The look-ahead list of upcoming announcements.
- The scoreboard formatting.

### The bot client (`smarter_dev/bot/client.py`)

- The daily-claim cache.
- The squad-role diff.
- The agent-response filter.
- The topic notification builder.

### How the model is shaped

Database tables are fields of classes:
- `ChallengeDatabase.ChallengeDb`;
- `BytesLedger.Ledger`;
- `Squads.SquadOperations`;
- `Quests.QuestOperations`;
- `BotClient.DailyClaimCache`;
- `RepeatingMessages.RepeatingMessage`.

Keyed tables are `map`s and logs are `seq`s. The methods change the fields
in place and are proved against value-level functions. Loops in the code are
`while`/`for` loops with invariants in the model. Pure computations are
functions with lemmas.

Parameters replace the outside world:
- time is integer seconds, and the clock reading `now` (or `today`) is a
  parameter;
- generator scripts, `json.loads`, `int()` and the scoring curve
  (`smarter_dev/web/scoring.py`, which is not part of this model) are
  function parameters;
- the SQL queries are filters over the tables.

### Where the code and its description disagree

The model follows the code in each of these cases:
- `mark_challenge_released` and `mark_challenge_announced` re-stamp their
  timestamp on every call.
- Announcing does not require the challenge to be released.
- The announcement queries never look at `is_released`.
- The challenge `submit_solution` credits no bytes ledger; only the quest
  variant does.
- A submission for a squad without an input raises `ValueError`. The route
  turns that into a 500, not a 4xx.
- `join_squad` does not check that the squad belongs to the guild.
- In the role sync, a squad role id of 0 is falsy and so counts as "no
  squad".

## Model

| member | source | states |
|---|---|---|
| ChallengeModel.NewChallenge | smarter_dev/web/models.py:1944-1960 | points default to 100; flags default to false; a timestamp is set to the construction time exactly when its flag is true and none was passed, and an explicit timestamp is kept |
| ChallengeModel.ReleaseTimeStep | smarter_dev/web/models.py:1962-1966 | each next position releases exactly one cadence later |
| ChallengeModel.ReleaseTimeStrictlyIncreasing | smarter_dev/web/models.py:1962-1966 | with a cadence in 1..168 hours (the table's check constraint) release times strictly increase with the position |
| ChallengeModel.DueStaysDue | smarter_dev/web/models.py:1968-1971 | once `should_be_released` holds it holds at every later time |
| ChallengeModel.ThirdChallengeOfDailyCampaign | smarter_dev/web/models.py:1962-1971 | the third challenge of a daily campaign releases 48 hours after the start and is not due a minute earlier |
| Announcements.PendingAndUpcomingDisjoint | smarter_dev/web/crud.py:3452-3508 | for one clock reading no challenge is both pending and upcoming |
| Announcements.PendingIsDueAndUnannounced | smarter_dev/web/crud.py:3452-3468 | pending iff not announced, campaign active and due in the release clock's sense |
| Announcements.QueriesIgnoreReleaseFlag | smarter_dev/web/crud.py:3452-3508 | flipping `is_released` never changes either query's answer |
| Announcements.UpcomingBecomesPending | smarter_dev/web/crud.py:3452-3508 | an upcoming challenge is pending once the clock reaches the horizon |
| ChallengeDatabase.ChallengeDb.GetPendingAnnouncements | smarter_dev/web/crud.py:3438-3473 | the result lists every pending challenge, each once, and nothing else |
| ChallengeDatabase.ChallengeDb.GetUpcomingAnnouncements | smarter_dev/web/crud.py:3475-3513 | the result lists every challenge releasing in (now, horizon], each once, and nothing else |
| ChallengeDatabase.ChallengeDb.MarkChallengeReleased | smarter_dev/web/crud.py:3543-3569 | false iff no row has the id; otherwise the flag is set and `released_at` re-stamped to now, nothing else changes |
| ChallengeDatabase.ChallengeDb.MarkChallengeAnnounced | smarter_dev/web/crud.py:3515-3541 | false iff no row has the id; otherwise the flag is set and `announced_at` re-stamped, `is_released` untouched |
| ChallengeDatabase.ChallengeDb.GetInputBySquad | smarter_dev/web/crud.py:3714-3760 | the stored row of the (challenge, squad) pair exactly when one exists |
| ChallengeDatabase.ChallengeDb.GetOrCreateInput | smarter_dev/web/crud.py:3665-3712 | the new table and answer are those of `InputGenerator.GetOrCreate`; the other tables are unchanged |
| ChallengeDatabase.JudgeSubmission | smarter_dev/web/crud.py:3870-3897 | the verdict and row built step by step are exactly those of `SubmissionArbiter.Submit` |
| ChallengeDatabase.ChallengeDb.SubmitSolution | smarter_dev/web/crud.py:3838-3908 | no input: the ValueError and no write; otherwise the verdict and exactly one appended row, and the log stays well formed |
| InputGenerator.ExecuteScript | smarter_dev/web/crud.py:3762-3815 | Ok exactly when the script ran and its stripped output parses to an object holding both "input" and "result", and then it is those two values |
| InputGenerator.RunScript | smarter_dev/web/crud.py:3762-3815 | running, stripping, parsing and checking step by step gives `ExecuteScript`'s result |
| InputGenerator.GetOrCreate | smarter_dev/web/crud.py:3665-3712 | a stored row is returned unchanged without running anything; with no row and no script it fails; otherwise exactly the script's pair is stored, stamped now; a failure leaves the table unchanged |
| InputGenerator.GetOrCreateIdempotent | smarter_dev/web/crud.py:3665-3712 | after a success every later call for the pair returns the same pair, runs nothing and changes nothing |
| InputGenerator.StoredInputFrozen | smarter_dev/web/models.py:1979-2001 | no call for any pair changes a stored input (one row per primary key) |
| InputGenerator.GeneratedRowIsScriptOutput | smarter_dev/web/crud.py:3687-3706 | a fresh pair stores exactly the script's (input, result) with the creation time |
| SubmissionArbiter.FirstSuccess | smarter_dev/web/crud.py:3910-3936 | the earliest winning row of the pair, or None exactly when the log has no win for the pair |
| SubmissionArbiter.CalculatePoints | smarter_dev/web/crud.py:3966-4031 | 0 without challenge or campaign, for a campaign with no challenges, or when scoring raises; otherwise the scorer's value at the campaign end; within 0..4096 when the scorer is |
| SubmissionArbiter.EndIsNextReleaseSlot | smarter_dev/web/crud.py:3995-4005 | the campaign end is the release time of a position one past the last |
| SubmissionArbiter.ReleasesBeforeEnd | smarter_dev/web/crud.py:3995-4005 | every position of the campaign releases strictly before its end |
| SubmissionArbiter.CountIncludesChallenge | smarter_dev/web/crud.py:3995-4005 | a challenge's own campaign counts at least one challenge |
| SubmissionArbiter.SubmitVerdict | smarter_dev/web/crud.py:3864-3902 | the only error is a missing input; correct iff the stripped strings agree; first success iff correct and no earlier win; points iff first success; the row holds the verdict and the text as sent |
| SubmissionArbiter.AppendKeepsLogWellFormed | smarter_dev/web/crud.py:3875-3899 | appending a row whose points mark its win, for a pair without a win, keeps at most one win per pair |
| SubmissionArbiter.SubmitPreservesLog | smarter_dev/web/crud.py:3875-3899 | every accepted submission keeps the log well formed |
| SubmissionArbiter.NoSecondWin | smarter_dev/web/crud.py:3879-3885 | once a pair has a win, no later submission of it wins or earns points |
| SubmissionArbiter.OtherPairsIndependent | smarter_dev/web/crud.py:3910-3936 | a row of another pair never changes a pair's first success |
| Scoreboard.CampaignWins | smarter_dev/web/crud.py:4093-4115 | every row joins a correct first success of one of the campaign's challenges to that challenge's title and an existing squad's name, and some log entry witnesses it |
| Scoreboard.CampaignWinsIsFilterMap | smarter_dev/web/crud.py:4093-4115 | the query is the log filtered by the WHERE and JOIN conditions, then mapped to the selected columns |
| Scoreboard.CampaignWinsSelection | smarter_dev/web/crud.py:4093-4115 | the rows are exactly the qualifying submissions, each once and in log order: an increasing index map sends each row to a qualifying submission with the same columns and covers every qualifying submission, so two winning submissions of one pair give two rows |
| Scoreboard.Titles | smarter_dev/web/crud.py:4128-4129 | the titles of the rows, each listed once |
| Scoreboard.SquadOrder | smarter_dev/web/crud.py:4138-4144 | the squads of the rows, each listed once |
| Scoreboard.SquadWins | smarter_dev/web/crud.py:4147 | a squad's completed count is the number of its rows |
| Scoreboard.TitlesCover | smarter_dev/web/crud.py:4128-4129 | a title is listed iff some row has it |
| Scoreboard.SquadOrderCovers | smarter_dev/web/crud.py:4138-4144 | a squad is listed iff some row has it |
| Scoreboard.UnseenTitleHasNoEntries | smarter_dev/web/crud.py:4128-4135 | a title without rows has no entries |
| Scoreboard.UnseenSquadHasNothing | smarter_dev/web/crud.py:4138-4147 | a squad without rows has no points and no wins |
| Scoreboard.TitleLeTotalPreorder | smarter_dev/web/crud.py:4160 | ordering by title is a total preorder, as `sort` needs |
| Scoreboard.TitlesStep | smarter_dev/web/crud.py:4128-4129 | one more row adds its title only when new |
| Scoreboard.EntriesStep | smarter_dev/web/crud.py:4131-4135 | one more row appends its entry to its own title only |
| Scoreboard.SquadOrderStep | smarter_dev/web/crud.py:4138-4144 | one more row adds its squad only when new |
| Scoreboard.TotalOfStep | smarter_dev/web/crud.py:4146-4147 | one more row adds its points (null as 0) and one win to its own squad only |
| Scoreboard.GroupRows | smarter_dev/web/crud.py:4121-4147 | the grouping loop yields, per title and per squad, exactly the entries and totals of the rows, with keys in first-appearance order |
| Scoreboard.AddEntry | smarter_dev/web/crud.py:4128-4135 | one row into `challenges_breakdown` |
| Scoreboard.AddToTotal | smarter_dev/web/crud.py:4138-4147 | one row into `squad_totals` |
| Scoreboard.SortEachChallenge | smarter_dev/web/crud.py:4150-4157 | each challenge's list is sorted by points descending, titles in key order |
| Scoreboard.DetailedScoreboard | smarter_dev/web/crud.py:4121-4169 | the result is the sorted breakdown and the sorted squad totals of the rows |
| Scoreboard.BreakdownSortedByTitle | smarter_dev/web/crud.py:4160 | the challenges come out ordered by title |
| Scoreboard.BreakdownEntriesSorted | smarter_dev/web/crud.py:4150-4157 | each challenge lists exactly its rows' entries, sorted by points descending |
| Scoreboard.BreakdownCoversTitles | smarter_dev/web/crud.py:4150-4160 | every title of the rows has its challenge in the breakdown |
| Scoreboard.TotalsSortedByPoints | smarter_dev/web/crud.py:4163-4164 | the squad totals are ordered by points descending, one per squad |
| Scoreboard.TotalsAreSums | smarter_dev/web/crud.py:4125-4147 | each squad's total is the sum of its points (null as 0) and its count the number of its rows |
| Scoreboard.TotalsCoverSquads | smarter_dev/web/crud.py:4138-4164 | every squad of the rows has its total in the list |
| Scoreboard.SumPointsStep | smarter_dev/web/crud.py:4146 | one more row adds its points to the sum over the listed squads exactly once |
| Scoreboard.TotalsAddUp | smarter_dev/web/crud.py:4121-4147 | the squad totals add up to the points of all rows: none lost, none counted twice |
| Scoreboard.SumPointsAppend | smarter_dev/web/crud.py:4146 | listing one more squad adds that squad's points |
| Sorting.Insert | smarter_dev/web/crud.py:4153-4164 | insertion keeps the elements (as a multiset) and adds exactly the new one |
| Sorting.InsertSorted | smarter_dev/web/crud.py:4153-4164 | insertion into a sorted list under a total preorder gives a sorted list |
| Sorting.Sort | smarter_dev/web/crud.py:4153-4164 | `list.sort` is a permutation of its input |
| Sorting.SortSorted | smarter_dev/web/crud.py:4153-4164 | `list.sort` under a total preorder gives a sorted list |
| Sorting.SortKeepsElement | smarter_dev/web/crud.py:4153-4164 | every input element has a position in the output |
| Sorting.SortedUnique | smarter_dev/web/crud.py:4153-4164 | under an antisymmetric order two sorted arrangements of the same elements are equal |
| Sorting.TailsSameElements | smarter_dev/web/crud.py:4153-4164 | two arrangements with the same elements and head have the same remaining elements |
| Sorting.SortedHeadsAgree | smarter_dev/web/crud.py:4153-4164 | two sorted arrangements of the same non-empty elements start with the same element |
| Quests.GetOrCreateQuestInput | smarter_dev/web/crud.py:2817-2857 | a stored row is returned unchanged; with no script it fails; otherwise the script's pair is stored; a failure changes nothing |
| Quests.QuestInputShared | smarter_dev/web/crud.py:2817-2857 | after a success every later call for the quest, from any squad, returns the same pair and runs nothing |
| Quests.RewardTransactions | smarter_dev/web/crud.py:2967-2975 | one SYSTEM reward transaction per member, in member order |
| Quests.RewardTransactionsPerMember | smarter_dev/web/crud.py:2967-2975 | the k-th transaction pays the k-th member the amount with the reason |
| Quests.RewardStep | smarter_dev/web/crud.py:2967-2975 | one more member is one more reward on the balances and one more transaction at the end |
| Quests.RepeatCorrectAnswerFailsAsWritten | smarter_dev/web/crud.py:2950-2975 | as written, a further correct answer from a squad that has won is refused and not recorded |
| Quests.PaddedAnswerStrips | smarter_dev/web/crud.py:2943-2945 | the padded answer of the example strips to the stored result |
| Quests.StoredAnswerStrips | smarter_dev/web/crud.py:2943-2945 | the stored result of the example is already stripped |
| Quests.RepeatCorrectAnswerExample | smarter_dev/web/crud.py:2950-2975 | a concrete squad and answer that the code as written refuses |
| Quests.CorrectionOnlyTouchesRepeatWins | smarter_dev/web/crud.py:2950-2975 | outside that case the corrected submit agrees with the code as written |
| Quests.SubmitQuestVerdict | smarter_dev/web/crud.py:2935-2992 | the only error is a missing input; correct iff stripped strings agree; first success iff correct and the squad has no win; points and rewards only on a first success |
| Quests.CreditMembersEffect | smarter_dev/web/crud.py:2967-2975 | crediting distinct members adds the amount to each member's balance and leaves every other account alone |
| Quests.AppendKeepsQuestLogWellFormed | smarter_dev/web/crud.py:2977-2990 | appending a row whose points mark its win, for a squad without a win, keeps at most one win per (quest, squad) |
| Quests.SubmitKeepsLogWellFormed | smarter_dev/web/crud.py:2977-2990 | every recorded submission keeps the quest log well formed |
| Quests.QuestOperations.GetOrCreateInput | smarter_dev/web/crud.py:2817-2857 | the table changes only as `GetOrCreateQuestInput` says |
| Quests.QuestOperations.GenerateInput | smarter_dev/web/crud.py:2836-2857 | the script's pair is stored, or nothing on failure |
| Quests.QuestOperations.HasFirstSuccess | smarter_dev/web/crud.py:3002-3014 | the scan finds a win iff the squad has won the quest |
| Quests.QuestOperations.SubmitSolution | smarter_dev/web/crud.py:2922-3000 | the verdict, balances, transactions and log are those of `SubmitQuestSolution` |
| Quests.QuestOperations.RewardMembers | smarter_dev/web/crud.py:2962-2975 | the reward loop credits every member and appends their transactions in order |
| BytesLedger.GetOrCreate | smarter_dev/web/crud.py:928-969 | the stored row, or a fresh all-zero row |
| BytesLedger.Debit | smarter_dev/web/crud.py:1013-1015 | the row's balance goes down and `total_sent` up by the amount; other rows are unchanged |
| BytesLedger.Credit | smarter_dev/web/crud.py:1016-1017 | the row's balance and `total_received` go up by the amount; other rows are unchanged |
| BytesLedger.Transfer | smarter_dev/web/crud.py:971-1041 | refused iff the giver holds less than the amount; otherwise giver debited and receiver credited |
| BytesLedger.TransferMovesAmount | smarter_dev/web/crud.py:1007-1017 | between two users, what one loses the other gains, and nobody else changes |
| BytesLedger.SelfTransferKeepsBalance | smarter_dev/web/crud.py:1007-1017 | a gift to oneself keeps the balance and counts the amount as sent and received |
| BytesLedger.SystemCharge | smarter_dev/web/crud.py:1043-1102 | refused iff the balance is short; otherwise a debit |
| BytesLedger.SystemReward | smarter_dev/web/crud.py:1104-1157 | never refused; a credit |
| BytesLedger.DailyReward | smarter_dev/web/crud.py:1273-1347 | requires an existing row; reward = daily amount × streak bonus; the streak becomes the given count or one more; the claim date defaults to today |
| BytesLedger.OperationsKeepConsistent | smarter_dev/web/crud.py:1007-1017 | transfer, charge and reward keep each balance equal to received minus sent |
| BytesLedger.DailyKeepsConsistent | smarter_dev/web/crud.py:1308-1325 | the daily claim keeps each balance equal to received minus sent |
| BytesLedger.OperationsKeepNonNegative | smarter_dev/web/crud.py:1007-1017 | with non-negative amounts no balance drops below zero |
| BytesLedger.Ledger.GetBalance | smarter_dev/web/crud.py:890-926 | the stored row, or an error when missing |
| BytesLedger.Ledger.CreateTransaction | smarter_dev/web/crud.py:971-1041 | balances as `Transfer` says and one transaction appended, or nothing on a short balance |
| BytesLedger.Ledger.CreateSystemCharge | smarter_dev/web/crud.py:1043-1102 | balances as `SystemCharge` says and one transaction appended, or nothing |
| BytesLedger.Ledger.CreateSystemReward | smarter_dev/web/crud.py:1104-1157 | balances as `SystemReward` says and one transaction appended |
| BytesLedger.Ledger.UpdateDailyReward | smarter_dev/web/crud.py:1273-1347 | balances as `DailyReward` says and one transaction appended, or nothing when the row is missing |
| Squads.JoinGuard | smarter_dev/web/crud.py:296-317 | the first failing check of join_squad: missing squad, inactive, default, already a member, full |
| Squads.SwitchGuard | smarter_dev/web/crud.py:420-443 | the first failing check of switch_squad: no squad, same squad, missing, inactive, default, full |
| Squads.CountAfterAdd | smarter_dev/web/crud.py:348-354 | adding one user raises the squad's count by exactly one |
| Squads.CountsAfterMove | smarter_dev/web/crud.py:474-483 | moving one user lowers the old count and raises the new one by one each |
| Squads.JoinOutcome | smarter_dev/web/crud.py:272-361 | a join records the squad, never pushes a limited squad past its limit, and charges the discounted join fee; a refusal changes nothing |
| Squads.JoinErrors | smarter_dev/web/crud.py:296-346 | a refusal is the first failed check or the charge |
| Squads.SwitchMovesMember | smarter_dev/web/crud.py:395-490 | a switch moves the user: old squad −1, new squad +1 within its limit, discounted switch fee charged |
| Squads.ChargeFeeEffect | smarter_dev/web/crud.py:319-346 | the fee step touches only balances and transactions, and charges the cost when the listed fee is positive |
| Squads.OperationsKeepMembershipsResolved | smarter_dev/web/crud.py:272-490 | both operations keep every membership pointing at an existing squad |
| Squads.SquadOperations.GetUserSquad | smarter_dev/web/crud.py:492-524 | the user's squad in the guild, if any |
| Squads.SquadOperations.Charge | smarter_dev/web/crud.py:319-346 | the ledger changes as `ChargeFee` says |
| Squads.SquadOperations.JoinSquad | smarter_dev/web/crud.py:272-361 | memberships and ledger change as `Join` says; nothing on failure |
| Squads.SquadOperations.SwitchSquad | smarter_dev/web/crud.py:395-490 | memberships and ledger change as `Switch` says; nothing on failure |
| SaleEvents.TruncDiv | smarter_dev/web/models.py:2433-2435 | Python's `int()` of a quotient: truncation toward zero, with its bounds for either sign |
| SaleEvents.PercentOfCostBounded | smarter_dev/web/models.py:2433-2435 | a percentage of at most 100 of a non-negative cost is at most the cost |
| SaleEvents.ApplyDiscount | smarter_dev/web/models.py:2433-2437 | the cost less the truncated percentage, never negative and never above the cost |
| SaleEvents.EventDiscountedCost | smarter_dev/web/models.py:2419-2437 | the original cost outside the window or at 0%, the discounted cost otherwise |
| SaleEvents.ActiveEvents | smarter_dev/web/crud.py:4692-4728 | an event is kept iff it belongs to the guild, is switched on and its window contains now |
| SaleEvents.ActiveEventsKeepStartOrder | smarter_dev/web/crud.py:4709-4725 | rows returned in start-time order (the ORDER BY) stay in start-time order after the filter |
| SaleEvents.GetActiveSaleEvents | smarter_dev/web/crud.py:4692-4728 | the filtering loop gives `ActiveEvents` |
| SaleEvents.BestOffer | smarter_dev/web/crud.py:4808-4822 | the largest percentage above 0 and the first event offering it; 0 and no event otherwise |
| SaleEvents.BestDiscount | smarter_dev/web/crud.py:4808-4822 | the best-so-far loop gives `BestOffer` |
| SaleEvents.DiscountedCost | smarter_dev/web/crud.py:4788-4830 | the original cost without an offer, otherwise the cost under the best percentage with its event |
| SaleEvents.TieGoesToEarliestStart | smarter_dev/web/crud.py:4808-4822 | with the rows in start-time order, no other active event offering the chosen percentage starts before the chosen one: a tie goes to the earliest sale |
| SaleEvents.CalculateDiscountedCost | smarter_dev/web/crud.py:4788-4830 | the method gives `DiscountedCost` |
| SaleEvents.DiscountNeverRaisesFee | smarter_dev/web/models.py:2363-2364 | with percentages in 0..100 the charged fee never exceeds the listed fee |
| RepeatingMessages.StepsToReach | smarter_dev/web/models.py:2605-2606 | the least number of whole steps that brings t to or past now |
| RepeatingMessages.CatchUpIsLeast | smarter_dev/web/models.py:2605-2606 | the caught-up time is the least grid point at or after now |
| RepeatingMessages.NextSendTimeOnGrid | smarter_dev/web/models.py:2586-2611 | the next send is after the missed one, not before now, on its grid, and the earliest such point |
| RepeatingMessages.MissedElevenNowThirteen | smarter_dev/web/models.py:2589-2590 | missed at xx:11, now xx:13, 2-minute interval: the next send is xx:13 |
| RepeatingMessages.DueWindowUpperEndDecides | smarter_dev/web/crud.py:5029-5030 | only the upper end of the ±60 s window decides; a one-minute message that is overdue is always due |
| RepeatingMessages.RepeatingMessage.constructor | smarter_dev/web/models.py:2562-2574 | active, nothing sent, first send at the start time |
| RepeatingMessages.RepeatingMessage.CalculateNextSendTime | smarter_dev/web/models.py:2586-2611 | the loop gives `NextSendTime` |
| RepeatingMessages.RepeatingMessage.UpdateAfterSend | smarter_dev/web/models.py:2613-2627 | `total_sent` up by exactly one, `last_sent_at` now, next send time advanced, other fields unchanged |
| RepeatingMessages.RepeatingMessage.FormattedMessage | smarter_dev/web/models.py:2629-2633 | the content, plus a role mention after a blank line when a role is set |
| RepeatingMessages.MessageWithMention | smarter_dev/web/models.py:2629-2633 | the content is a prefix; the mention is added iff a non-empty role is set |
| RepeatingMessages.CatchUpLoop | smarter_dev/web/crud.py:5023-5025 | the catch-up loop gives `CatchUp` |
| RepeatingMessages.DueMessages | smarter_dev/web/crud.py:5006-5033 | exactly the messages that are active, overdue and within the window |
| RepeatingMessages.GetDueRepeatingMessages | smarter_dev/web/crud.py:4993-5038 | returns `DueMessages`; returned messages get the caught-up time, the others keep theirs |
| ModelPredicates.ApiKeyValidityRunsOut | smarter_dev/web/models.py:570-579 | a key valid now was valid earlier; without expiry it is valid iff active; it is still valid at its expiry instant |
| ModelPredicates.SubscriptionLifetime | smarter_dev/web/models.py:1443-1462 | live when touched and for at least an hour after; once expired stays expired; forever never expires |
| ModelPredicates.Excerpt | smarter_dev/web/models.py:967-979 | bodies of at most 200 characters are returned whole; longer ones give a prefix plus "..." of at most 203 characters |
| ModelPredicates.ExcerptCutsAtLastSpace | smarter_dev/web/models.py:967-979 | the cut is at the last space of the first 200 characters when past index 100, otherwise after 200 characters |
| Slugs.DropSpecials | smarter_dev/web/admin/views.py:1466 | never longer; from lowercase input only slug characters and whitespace remain; with no word character only separators remain; input made of slug characters is unchanged |
| Slugs.DropSpecialsMembers | smarter_dev/web/admin/views.py:1466 | a character survives iff it occurs in the input and is a word character, whitespace or a hyphen |
| Slugs.Collapse | smarter_dev/web/admin/views.py:1467 | no whitespace and no double hyphen remain; empty iff the input is; starts with a hyphen iff the input starts with a separator; separators alone become "" or "-"; already collapsed input is unchanged |
| Slugs.StrippedLowered | smarter_dev/web/admin/views.py:1463 | lowering then stripping leaves no capitals, and no word characters if there were none |
| Slugs.StrippedIsSlice | smarter_dev/web/admin/views.py:1463 | the stripped text is a contiguous piece of the input |
| Slugs.SliceKeepsShape | smarter_dev/web/admin/views.py:1479 | a slice of a slug-shaped string is slug-shaped |
| Slugs.CollapsedTitleShape | smarter_dev/web/admin/views.py:1463-1467 | after collapsing, only slug characters and no double hyphen |
| Slugs.StripHyphensShape | smarter_dev/web/admin/views.py:1470 | stripping hyphens leaves nothing or no hyphen at either end |
| Slugs.NormalizeShape | smarter_dev/web/admin/views.py:1463-1470 | the normalized title is empty or well formed |
| Slugs.FallbackShape | smarter_dev/web/admin/views.py:1473-1475 | "post-" and the timestamp's digits is well formed |
| Slugs.TruncateKeepsShape | smarter_dev/web/admin/views.py:1477-1479 | cutting to 180 and dropping trailing hyphens keeps it well formed |
| Slugs.SlugIsWellFormed | smarter_dev/web/admin/views.py:1458-1481 | every slug has 1..180 lowercase word characters and hyphens, no whitespace, no edge hyphen, no double hyphen |
| Slugs.FixedUnderLowerStrip | smarter_dev/web/admin/views.py:1463 | a well-formed slug survives lowercasing and stripping |
| Slugs.WellFormedSlugIsFixedPoint | smarter_dev/web/admin/views.py:1458-1481 | a well-formed slug is its own slug |
| Slugs.GenerateSlugIdempotent | smarter_dev/web/admin/views.py:1458-1481 | slugging a slug changes nothing |
| Slugs.NoWordCharactersNormalizeToNothing | smarter_dev/web/admin/views.py:1463-1470 | a title without word characters normalizes to the empty string |
| Slugs.NoWordCharactersFallsBack | smarter_dev/web/admin/views.py:1472-1479 | such a title gets the timestamp fallback |
| ForumAgentForm.StrippedNonBlank | smarter_dev/web/admin/views.py:1533 | the kept entries are non-empty |
| ForumAgentForm.StrippedNonBlankIsStripped | smarter_dev/web/admin/views.py:1533 | the kept entries are already stripped |
| ForumAgentForm.StrippedNonBlankMembers | smarter_dev/web/admin/views.py:1533 | x is kept iff it is non-empty and the strip of some entry |
| ForumAgentForm.TopicLengthErrors | smarter_dev/web/admin/views.py:1564-1568 | one error per topic longer than 100 characters |
| ForumAgentForm.TopicLengthErrorsStep | smarter_dev/web/admin/views.py:1564-1568 | one more topic adds its error only when too long |
| ForumAgentForm.TopicLengthErrorsEmpty | smarter_dev/web/admin/views.py:1564-1568 | no length error iff every topic has 1..100 characters |
| ForumAgentForm.PadOrTrim | smarter_dev/web/admin/views.py:1576-1581 | exactly n descriptions: the stripped ones, then "" |
| ForumAgentForm.DescriptionsFor | smarter_dev/web/admin/views.py:1574-1584 | one description per topic, all "" when the value is not a list |
| ForumAgentForm.BaseErrorsEmpty | smarter_dev/web/admin/views.py:1496-1544 | the base checks pass iff every field they look at is acceptable |
| ForumAgentForm.NameErrorsEmpty | smarter_dev/web/admin/views.py:1496-1499 | the name check passes iff the name is not blank and has at most 100 characters |
| ForumAgentForm.PromptErrorsEmpty | smarter_dev/web/admin/views.py:1501-1507 | the prompt check passes iff the stripped prompt has 10..10000 characters |
| ForumAgentForm.TopicErrorsEmpty | smarter_dev/web/admin/views.py:1551-1568 | with tagging on, the topic checks pass iff the topics are a list of 1..25 entries of at most 100 characters |
| ForumAgentForm.FormValidIff | smarter_dev/web/admin/views.py:1484-1590 | the form is accepted iff all of name, prompt, threshold, rate limit, forums, mode and topic conditions hold |
| ForumAgentForm.CleanedFormShape | smarter_dev/web/admin/views.py:1527-1588 | forums and topics written back stripped without blanks, one description per topic, none with tagging off |
| ForumAgentForm.ValidateForumAgentData | smarter_dev/web/admin/views.py:1484-1590 | valid iff no errors; the errors and written-back values are `FormErrors` and `CleanedForm` |
| ForumAgentForm.CheckBaseFields | smarter_dev/web/admin/views.py:1496-1544 | the base errors and the cleaned forum list |
| ForumAgentForm.CheckText | smarter_dev/web/admin/views.py:1496-1507 | the name errors followed by the prompt errors |
| ForumAgentForm.CheckName | smarter_dev/web/admin/views.py:1496-1499 | the name errors |
| ForumAgentForm.CheckPrompt | smarter_dev/web/admin/views.py:1501-1507 | the prompt errors |
| ForumAgentForm.CheckNumbers | smarter_dev/web/admin/views.py:1509-1525 | the threshold and rate-limit errors appended to the earlier ones |
| ForumAgentForm.CheckTopics | smarter_dev/web/admin/views.py:1551-1584 | the topic errors, cleaned topics and matching descriptions |
| ForumAgentForm.CheckTopicLengths | smarter_dev/web/admin/views.py:1564-1568 | the loop gives `TopicLengthErrors` |
| ForumAgentForm.CleanList | smarter_dev/web/admin/views.py:1533 | the comprehension gives `StrippedNonBlank` |
| ForumAgentForm.MatchDescriptions | smarter_dev/web/admin/views.py:1574-1584 | the descriptions written back are `DescriptionsFor` |
| ForumAgentForm.PaddedDescriptions | smarter_dev/web/admin/views.py:1576-1581 | the strip, pad-while-short and cut give `PadOrTrim` |
| CampaignForm.TextErrors | smarter_dev/web/admin/views.py:2248-2255 | no error iff title, description and start time are filled and a channel is chosen; never a cadence error |
| CampaignForm.CadenceErrors | smarter_dev/web/admin/views.py:2257-2263 | no error iff the cadence is an integer in 1..168; otherwise exactly one cadence error |
| CampaignForm.ValidateCampaignFields | smarter_dev/web/admin/views.py:2246-2263 | the errors in append order, and the cadence used (24 when it did not parse) |
| CampaignForm.CheckTextFields | smarter_dev/web/admin/views.py:2248-2255 | the required-field checks give `TextErrors` |
| CampaignForm.CampaignFormValidIff | smarter_dev/web/admin/views.py:2426-2441 | the form passes iff all required fields are present and the cadence is in 1..168; a cadence error appears iff it is not |
| CampaignForm.AcceptedCadenceOrdersReleases | smarter_dev/web/admin/views.py:2257-2263 | an accepted cadence releases a campaign's challenges strictly one after another |
| CampaignForm.MaxPosition | smarter_dev/web/admin/views.py:2977 | the largest existing order position, which is one of them |
| CampaignForm.NextOrderPositionIsAfterAll | smarter_dev/web/admin/views.py:2974-2985 | 1 for an empty campaign; otherwise one past the largest, after every existing position |
| CampaignForm.NewChallengeReleasesLast | smarter_dev/web/admin/views.py:2974-2985 | with a valid cadence the new challenge releases after every existing one |
| AttachmentFilter.NormalizeExtension | smarter_dev/web/admin/views.py:4241-4245 | empty iff the line strips to nothing; otherwise it starts with a dot |
| AttachmentFilter.Entries | smarter_dev/web/admin/views.py:4240-4246 | every collected entry is non-empty and dotted |
| AttachmentFilter.Dedupe | smarter_dev/web/admin/views.py:4248 | the same elements with no repeats |
| AttachmentFilter.FirstIndex | smarter_dev/web/admin/views.py:4248 | the position where a value first occurs, or the length when it does not occur |
| AttachmentFilter.DedupeFirstOccurrences | smarter_dev/web/admin/views.py:4248 | `list(dict.fromkeys(xs))` keeps first occurrences: the values come out in the order of their first positions in xs |
| AttachmentFilter.LinesHaveNoSeparator | smarter_dev/web/admin/views.py:4240 | no line holds a comma or a newline |
| AttachmentFilter.SplitPartsWithin | smarter_dev/web/admin/views.py:4240 | every character of a split piece comes from the split string |
| AttachmentFilter.ParsedExtensionsShape | smarter_dev/web/admin/views.py:4236-4248 | no duplicates, all dotted and non-blank, x is listed iff some line normalizes to it, and the entries come in the order of their first occurrences among the lines' entries |
| AttachmentFilter.DedupeKeepsShape | smarter_dev/web/admin/views.py:4248 | deduplicating keeps every entry non-empty and dotted |
| AttachmentFilter.EntriesMembers | smarter_dev/web/admin/views.py:4240-4246 | x is collected iff it is non-empty and some line normalizes to it |
| AttachmentFilter.ParseExtensions | smarter_dev/web/admin/views.py:4236-4248 | the loop and dedupe give `ParsedExtensions` |
| AttachmentFilter.NormalizeLine | smarter_dev/web/admin/views.py:4241-4245 | the loop body gives `NormalizeExtension` |
| AttachmentFilter.EntriesStep | smarter_dev/web/admin/views.py:4240-4246 | one more line adds its entry only when it has one |
| AttachmentFilter.DedupeInOrder | smarter_dev/web/admin/views.py:4248 | keep-if-unseen gives `Dedupe` |
| ChallengeRoutes.StatusOf | smarter_dev/web/api/routers/challenges.py:751-782 | a missing squad or challenge is 404, a wrong guild or unreleased challenge is 403 |
| ChallengeRoutes.LoadChallenge | smarter_dev/web/crud.py:3571-3589 | the challenge with its campaign iff the challenge exists |
| ChallengeRoutes.SubmitGuard | smarter_dev/web/api/routers/challenges.py:751-782 | the first failing of: squad, challenge, guild, released |
| ChallengeRoutes.InputGuard | smarter_dev/web/api/routers/challenges.py:637-674 | the submit checks, then no generator script |
| ChallengeRoutes.GuardedRequestIsAdmissible | smarter_dev/web/api/routers/challenges.py:751-782 | a passed request is a squad member's, for a released challenge of the guild |
| ChallengeRoutes.GetChallengeInput | smarter_dev/web/api/routers/challenges.py:614-729 | refused requests change nothing; otherwise the input is fetched or generated, and a failure is a 500 with no change |
| ChallengeRoutes.SubmitSolution | smarter_dev/web/api/routers/challenges.py:730-829 | refused requests record nothing; no input is a 500 with no change; otherwise the verdict and one appended row |
| ChallengeRoutes.CheckInputExists | smarter_dev/web/api/routers/challenges.py:566-613 | only the squad is checked; the answer is whether a row exists |
| ChallengeRoutes.MarkReleased | smarter_dev/web/api/routers/challenges.py:165-207 | 404 iff no challenge has the id, success otherwise |
| ChallengeRoutes.MarkAnnounced | smarter_dev/web/api/routers/challenges.py:208-250 | 404 iff no challenge has the id, success otherwise |
| ChallengeRoutes.ReportedReleaseTime | smarter_dev/web/api/routers/challenges.py:63-70 | the reported time equals the release clock's |
| ChallengeRoutes.UpcomingAnnouncements | smarter_dev/web/api/routers/challenges.py:44-109 | the challenges releasing within the next `seconds`, each once, with their release time |
| ChallengeRoutes.FormatScoreboard | smarter_dev/web/api/routers/challenges.py:316-324 | null totals and counts become 0, order kept |
| ChallengeRoutes.Scoreboard | smarter_dev/web/api/routers/challenges.py:251-351 | with no campaign: empty and zero counts; otherwise line k is row k with null totals and counts reported as 0, and the counts are passed through |
| BotClient.CacheKeyInjective | smarter_dev/bot/client.py:135 | colon-free ids give distinct keys |
| BotClient.Cleaned | smarter_dev/bot/client.py:148-154 | exactly the entries dated today remain |
| BotClient.MarkAffectsOnlyItsUser | smarter_dev/bot/client.py:140-144 | a mark makes the user's claim visible and leaves every other answer unchanged |
| BotClient.CleanupKeepsTodaysAnswers | smarter_dev/bot/client.py:148-154 | cleanup never changes a today answer and forgets every other day |
| BotClient.DroppingStaleKeysCleans | smarter_dev/bot/client.py:151-153 | removing the keys dated another day leaves `Cleaned` |
| BotClient.DailyClaimCache.HasClaimedToday | smarter_dev/bot/client.py:133-137 | true iff the user's key maps to today |
| BotClient.DailyClaimCache.MarkClaimedToday | smarter_dev/bot/client.py:140-144 | only the user's key is set to today |
| BotClient.DailyClaimCache.CleanupOldCacheEntries | smarter_dev/bot/client.py:148-154 | the cache becomes `Cleaned` |
| BotClient.RoleDiff | smarter_dev/bot/client.py:210-238 | adds the expected role iff not held; removes every other held squad role, or all without an expected role; add and remove are disjoint |
| BotClient.RoleDiffReconciles | smarter_dev/bot/client.py:210-238 | applying the diff leaves exactly the expected squad role and keeps every non-squad role |
| BotClient.SyncSquadRoles | smarter_dev/bot/client.py:210-238 | the lists built by the loops hold exactly the sets of `RoleDiff`, each once |
| BotClient.ListOf | smarter_dev/bot/client.py:238 | `list(set)`: each element once |
| BotClient.PostedContents | smarter_dev/bot/client.py:744-760 | the posted messages |
| BotClient.PostedContentsStripped | smarter_dev/bot/client.py:749-751 | every posted message is non-blank and stripped |
| BotClient.PostedIffPostable | smarter_dev/bot/client.py:739-765 | something is posted iff some response asks to respond and has content |
| BotClient.PostedIsFilterMap | smarter_dev/bot/client.py:739-765 | the posted messages are the stripped contents of the responses that ask to respond and have content |
| BotClient.PostedSelection | smarter_dev/bot/client.py:739-765 | an increasing index map sends the k-th posted message to a postable response whose stripped content it is, and covers every postable response: exactly those texts are posted, in response order |
| BotClient.PostAgentResponses | smarter_dev/bot/client.py:726-765 | the posted messages, and true iff any was posted |
| BotClient.NotificationLine | smarter_dev/bot/client.py:789-790 | "-# ", the topic, a space and the sorted mentions joined by spaces |
| BotClient.NotificationLines | smarter_dev/bot/client.py:788-790 | one line per topic, in order |
| BotClient.MentionIds | smarter_dev/bot/client.py:793-795 | the ids of a topic's mentions, or None at a mention that does not parse |
| BotClient.MentionIdsMembers | smarter_dev/bot/client.py:793-795 | an id is collected iff some mention parses to it |
| BotClient.AllUserIdsDefined | smarter_dev/bot/client.py:788-795 | the ids are collected iff every mention of every topic parses |
| BotClient.AllUserIdsMembers | smarter_dev/bot/client.py:788-795 | an id is collected iff some topic's mentions yield it |
| BotClient.PostUserNotifications | smarter_dev/bot/client.py:768-811 | the message and ids the loops build are those of `Notification` |
| BotClient.NoUserIdsPastAFailure | smarter_dev/bot/client.py:793-795 | a topic with an unparsable mention fails the whole collection |
| BotClient.TopicIds | smarter_dev/bot/client.py:793-795 | the inner loop gives `MentionIds` |
| BotClient.NoIdsPastAFailure | smarter_dev/bot/client.py:794 | one unparsable mention fails the list |
| BotClient.NotificationLineCanonical | smarter_dev/bot/client.py:789 | the line does not depend on the set's iteration order |
| BotClient.StrLeTotalPreorder | smarter_dev/bot/client.py:789 | string order is a total preorder, as `sorted` needs |
| BotClient.UserIdsFromMentions | smarter_dev/bot/client.py:788-795 | the collected ids are exactly those some mention reads as |
| BotClient.NotificationMentions | smarter_dev/bot/client.py:779-801 | the message enables a user iff some topic lists a mention of that id |
| Text.StripByShape | smarter_dev/web/crud.py:3871-3872 | `strip` leaves a contiguous piece without removable characters at either end |
| Text.StripByIdempotent | smarter_dev/web/crud.py:3871-3872 | stripping twice is stripping once |
| Text.SplitJoin | smarter_dev/web/admin/views.py:4240 | splitting on a character and joining with it gives back the input |
| Text.DigitsRoundTrip | smarter_dev/web/admin/views.py:1475 | reading back the decimal rendering of a number gives the number |

## Left out

- Running generator scripts (`exec`) and `json.loads` are oracles passed as parameters. The model does not interpret Python.
- The scoring curve `calculate_challenge_points` lives in `smarter_dev/web/scoring.py`, which is not part of this model. It is a parameter, and None stands for it raising. Its 0..4096 range is assumed only where a lemma asks for it.
- SQL machinery is not modelled: sessions, commit/rollback/flush, eager loading. Tables are maps and sequences, and a failed operation leaves them as they were. The GROUP BY of `get_campaign_scoreboard` and the username CTE are not modelled. The scoreboard endpoint takes the rows such a query returns.
- Concurrency is not modelled: the check-then-insert races of input generation and first-success detection. One request runs at a time.
- Discord and HTTP plumbing are not modelled:
  - Hikari/lightbulb events and REST calls;
  - the status rotation and cache-cleanup loops;
  - Redis publishing, templates and middleware.

  The bot functions return what they would send.
- The quest routers and bot plugin stubs are not modelled.
- Floating point is not modelled:
  - The forum-agent threshold is given as the outcome of its parse and range test.
  - The discount `int(cost * pct / 100)` is exact integer division truncated toward zero. Python computes it through a float.
- The wall clock is not modelled. `now`, `today` and the slug fallback's timestamp are parameters.
- Parsing and checking of the campaign start time is not modelled. The start-time field is only checked for presence.
- `int()` of form fields and of mention ids is given as its outcome (a datatype or a parser parameter).
- Character classes (`\w`, `\s`, `str.isspace`, `str.lower`) are those of Python restricted to ASCII. Unicode is not modelled.
- The free-text transaction reasons are modelled as strings built from the same parts, without the f-string formatting details of numbers.
- `_auto_assign_default_squad_if_needed` and the username fallback of the fee charge are not modelled.
- The sort stability of Python's `list.sort` is not stated. Only "ordered and a permutation" is, plus uniqueness under an antisymmetric order.
- Scoreboard.Titles: the first-appearance order of the titles is not stated; the breakdown is sorted by title afterwards, so only that sorted order is promised.
- Scoreboard.SquadOrder: the first-appearance order of the squads is not stated; it decides only the order of squads with equal totals under the stable sort, whose stability is not stated either.
- Scoreboard.CampaignWins: the ORDER BY title, squad name of the submissions query is not modelled; the rows come in log order. That order only decides ties among equal keys in the later sorts.
- ChallengeDatabase.ChallengeDb.GetPendingAnnouncements: the order of the result is not stated, because the query has no ORDER BY.
- ChallengeDatabase.ChallengeDb.GetUpcomingAnnouncements: the order of the result is not stated, because the query has no ORDER BY.

## Findings

| source | as written | input that shows it | evidently intended | confidence | as-written member | corrected member |
|---|---|---|---|---|---|---|
| smarter_dev/web/crud.py:2950-2975 | every correct submission credits each squad member with `points_earned`, which is None unless this is the squad's first success; `create_system_reward` then fails on the None amount and the whole submission is rolled back | quest 0 with stored result "42"; squad 1 (member "u") already has a winning row; user "alice" of squad 1 submits " 42\n" | members are credited only on the first success, and a repeated correct answer is recorded with no reward | not executed | Quests.RepeatCorrectAnswerFailsAsWritten | Quests.SubmitQuestVerdict |
