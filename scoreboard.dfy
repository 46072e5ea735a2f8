/**
 * ChallengeSubmissionOperations.get_detailed_campaign_scoreboard (crud.py):
 * the winning submissions of a campaign are grouped per challenge and per
 * squad in one loop, then each challenge's entries are sorted by points
 * (highest first), the challenges by title, and the squad totals by points
 * (highest first).
 */
module Scoreboard {
  import opened Wrappers
  import opened Text
  import opened Sorting
  import opened ChallengeModel
  import opened SeqFacts

  /** One result row of the submissions query. */
  datatype WinRow = WinRow(challengeTitle: string, challengeId: ChallengeId, pointsEarned: Option<int>,
                           squadName: string, squadId: SquadId)

  datatype Entry = Entry(squadName: string, squadId: SquadId, pointsEarned: int)
  datatype ChallengeBreakdown = ChallengeBreakdown(challengeTitle: string, submissions: seq<Entry>)
  datatype SquadTotal = SquadTotal(squadName: string, squadId: SquadId, totalPoints: int, challengesCompleted: nat)

  /** A log row is the source of a result row: a correct first success with the same pair and points. */
  predicate Witnesses(sub: ChallengeSubmission, row: WinRow) {
    sub.isCorrect && sub.isFirstSuccess && sub.challengeId == row.challengeId
    && sub.squadId == row.squadId && sub.pointsEarned == row.pointsEarned
  }

  /** The WHERE and JOIN conditions of the query for one submission. */
  predicate Qualifies(challenges: map<ChallengeId, Challenge>, squadNames: map<SquadId, string>,
                      campaignId: CampaignId, s: ChallengeSubmission) {
    s.isCorrect && s.isFirstSuccess && s.challengeId in challenges
    && challenges[s.challengeId].campaignId == campaignId && s.squadId in squadNames
  }

  /** The selected columns for one submission joined to its challenge and squad. */
  function RowOf(challenges: map<ChallengeId, Challenge>, squadNames: map<SquadId, string>,
                 s: ChallengeSubmission): WinRow {
    WinRow(if s.challengeId in challenges then challenges[s.challengeId].title else "", s.challengeId,
           s.pointsEarned, if s.squadId in squadNames then squadNames[s.squadId] else "", s.squadId)
  }

  /**
   * The query without its ORDER BY: the correct first-success submissions
   * whose challenge belongs to the campaign, joined to their challenge and
   * squad (rows whose challenge or squad is missing drop out of the join).
   */
  function CampaignWins(challenges: map<ChallengeId, Challenge>, squadNames: map<SquadId, string>,
                        log: seq<ChallengeSubmission>, campaignId: CampaignId): (rows: seq<WinRow>)
    ensures |rows| <= |log|
    ensures forall k :: 0 <= k < |rows| ==>
      && rows[k].challengeId in challenges
      && challenges[rows[k].challengeId].campaignId == campaignId
      && rows[k].challengeTitle == challenges[rows[k].challengeId].title
      && rows[k].squadId in squadNames && rows[k].squadName == squadNames[rows[k].squadId]
    ensures forall k :: 0 <= k < |rows| ==> exists j :: 0 <= j < |log| && Witnesses(log[j], rows[k])
    decreases |log|
  {
    if log == [] then []
    else
      var init := log[..|log| - 1];
      var s := log[|log| - 1];
      var rest := CampaignWins(challenges, squadNames, init, campaignId);
      assert forall k :: 0 <= k < |rest| ==> exists j :: 0 <= j < |log| && Witnesses(log[j], rest[k]) by {
        forall k | 0 <= k < |rest|
          ensures exists j :: 0 <= j < |log| && Witnesses(log[j], rest[k])
        {
          var j :| 0 <= j < |init| && Witnesses(init[j], rest[k]);
          assert log[j] == init[j];
        }
      }
      if Qualifies(challenges, squadNames, campaignId, s) then
        var row := RowOf(challenges, squadNames, s);
        assert Witnesses(log[|log| - 1], row);
        rest + [row]
      else rest
  }

  /** The query is a filter of the log by Qualifies followed by RowOf. */
  lemma {:induction false} CampaignWinsIsFilterMap(challenges: map<ChallengeId, Challenge>,
                                                   squadNames: map<SquadId, string>,
                                                   log: seq<ChallengeSubmission>, campaignId: CampaignId)
    ensures CampaignWins(challenges, squadNames, log, campaignId)
      == FilterMap(log, s => Qualifies(challenges, squadNames, campaignId, s), s => RowOf(challenges, squadNames, s))
    decreases |log|
  {
    if log != [] {
      CampaignWinsIsFilterMap(challenges, squadNames, log[..|log| - 1], campaignId);
    }
  }

  /**
   * The rows are exactly the qualifying submissions, each once and in log
   * order: the k-th row is the row of the idx[k]-th submission, which
   * qualifies; idx increases; and every qualifying submission is among them.
   * Two winning submissions of one pair give two rows.
   */
  lemma CampaignWinsSelection(challenges: map<ChallengeId, Challenge>, squadNames: map<SquadId, string>,
                              log: seq<ChallengeSubmission>, campaignId: CampaignId) returns (idx: seq<nat>)
    ensures |idx| == |CampaignWins(challenges, squadNames, log, campaignId)|
    ensures forall k :: 0 <= k < |idx| ==>
      && idx[k] < |log| && Qualifies(challenges, squadNames, campaignId, log[idx[k]])
      && CampaignWins(challenges, squadNames, log, campaignId)[k] == RowOf(challenges, squadNames, log[idx[k]])
    ensures forall k, k' :: 0 <= k < k' < |idx| ==> idx[k] < idx[k']
    ensures forall j :: 0 <= j < |log| && Qualifies(challenges, squadNames, campaignId, log[j]) ==> j in idx
  {
    CampaignWinsIsFilterMap(challenges, squadNames, log, campaignId);
    idx := FilterMapIndices(log, s => Qualifies(challenges, squadNames, campaignId, s),
                            s => RowOf(challenges, squadNames, s));
  }

  /** `points_earned or 0` */
  function Points(r: WinRow): int {
    r.pointsEarned.GetOr(0)
  }

  function EntryOf(r: WinRow): Entry {
    Entry(r.squadName, r.squadId, Points(r))
  }

  predicate HasTitle(rows: seq<WinRow>, t: string) {
    exists i :: 0 <= i < |rows| && rows[i].challengeTitle == t
  }

  predicate HasSquad(rows: seq<WinRow>, s: SquadId) {
    exists i :: 0 <= i < |rows| && rows[i].squadId == s
  }

  /** The titles in the order they first appear (the key order of challenges_breakdown). */
  function Titles(rows: seq<WinRow>): (r: seq<string>)
    ensures forall i, j :: 0 <= i < j < |r| ==> r[i] != r[j]
    decreases |rows|
  {
    if rows == [] then []
    else
      var r := Titles(rows[..|rows| - 1]);
      var t := rows[|rows| - 1].challengeTitle;
      if t in r then r else r + [t]
  }

  /** The entries of one challenge, in row order. */
  function EntriesFor(rows: seq<WinRow>, t: string): seq<Entry>
    decreases |rows|
  {
    if rows == [] then []
    else
      var last := rows[|rows| - 1];
      EntriesFor(rows[..|rows| - 1], t) + (if last.challengeTitle == t then [EntryOf(last)] else [])
  }

  /** The squads in the order they first appear (the key order of squad_totals). */
  function SquadOrder(rows: seq<WinRow>): (r: seq<SquadId>)
    ensures forall i, j :: 0 <= i < j < |r| ==> r[i] != r[j]
    decreases |rows|
  {
    if rows == [] then []
    else
      var r := SquadOrder(rows[..|rows| - 1]);
      var s := rows[|rows| - 1].squadId;
      if s in r then r else r + [s]
  }

  /** The name recorded with a squad's first row. */
  function SquadNameOf(rows: seq<WinRow>, s: SquadId): string
    decreases |rows|
  {
    if rows == [] then ""
    else
      var init := rows[..|rows| - 1];
      if s in SquadOrder(init) then SquadNameOf(init, s)
      else if rows[|rows| - 1].squadId == s then rows[|rows| - 1].squadName
      else ""
  }

  /** The sum of a squad's points, null counted as 0. */
  function SquadPoints(rows: seq<WinRow>, s: SquadId): int
    decreases |rows|
  {
    if rows == [] then 0
    else
      var last := rows[|rows| - 1];
      SquadPoints(rows[..|rows| - 1], s) + (if last.squadId == s then Points(last) else 0)
  }

  /** The number of a squad's rows: one per challenge it solved first. */
  function SquadWins(rows: seq<WinRow>, s: SquadId): (r: nat)
    ensures r <= |rows|
    decreases |rows|
  {
    if rows == [] then 0
    else
      var last := rows[|rows| - 1];
      SquadWins(rows[..|rows| - 1], s) + (if last.squadId == s then 1 else 0)
  }

  /** The titles listed are exactly those of the rows. */
  lemma {:induction false} TitlesCover(rows: seq<WinRow>, t: string)
    ensures t in Titles(rows) <==> HasTitle(rows, t)
    decreases |rows|
  {
    if rows != [] {
      var init := rows[..|rows| - 1];
      TitlesCover(init, t);
      if HasTitle(init, t) {
        var i :| 0 <= i < |init| && init[i].challengeTitle == t;
        assert rows[i] == init[i];
      }
      if HasTitle(rows, t) && rows[|rows| - 1].challengeTitle != t {
        var i :| 0 <= i < |rows| && rows[i].challengeTitle == t;
        assert init[i] == rows[i];
      }
    }
  }

  /** The squads listed are exactly those of the rows. */
  lemma {:induction false} SquadOrderCovers(rows: seq<WinRow>, s: SquadId)
    ensures s in SquadOrder(rows) <==> HasSquad(rows, s)
    decreases |rows|
  {
    if rows != [] {
      var init := rows[..|rows| - 1];
      SquadOrderCovers(init, s);
      if HasSquad(init, s) {
        var i :| 0 <= i < |init| && init[i].squadId == s;
        assert rows[i] == init[i];
      }
      if HasSquad(rows, s) && rows[|rows| - 1].squadId != s {
        var i :| 0 <= i < |rows| && rows[i].squadId == s;
        assert init[i] == rows[i];
      }
    }
  }

  /** A title not yet seen has no entries. */
  lemma {:induction false} UnseenTitleHasNoEntries(rows: seq<WinRow>, t: string)
    requires t !in Titles(rows)
    ensures EntriesFor(rows, t) == []
    decreases |rows|
  {
    if rows != [] {
      UnseenTitleHasNoEntries(rows[..|rows| - 1], t);
    }
  }

  /** A squad not yet seen has no points and no wins. */
  lemma {:induction false} UnseenSquadHasNothing(rows: seq<WinRow>, s: SquadId)
    requires s !in SquadOrder(rows)
    ensures SquadPoints(rows, s) == 0 && SquadWins(rows, s) == 0
    decreases |rows|
  {
    if rows != [] {
      UnseenSquadHasNothing(rows[..|rows| - 1], s);
    }
  }

  function TotalOf(rows: seq<WinRow>, s: SquadId): SquadTotal {
    SquadTotal(SquadNameOf(rows, s), s, SquadPoints(rows, s), SquadWins(rows, s))
  }

  /** Every squad's total, in first-appearance order. */
  function Totals(rows: seq<WinRow>): seq<SquadTotal> {
    var order := SquadOrder(rows);
    seq(|order|, k requires 0 <= k < |order| => TotalOf(rows, order[k]))
  }

  /** Every challenge with its entries sorted by points, in first-appearance order. */
  function Breakdown(rows: seq<WinRow>): seq<ChallengeBreakdown> {
    var titles := Titles(rows);
    seq(|titles|, k requires 0 <= k < |titles| =>
      ChallengeBreakdown(titles[k], Sort(EntriesFor(rows, titles[k]), EntryDesc)))
  }

  /** `key=points_earned, reverse=True` */
  predicate EntryDesc(a: Entry, b: Entry) {
    a.pointsEarned >= b.pointsEarned
  }

  /** `key=challenge_title` */
  predicate TitleLe(a: ChallengeBreakdown, b: ChallengeBreakdown) {
    StrLe(a.challengeTitle, b.challengeTitle)
  }

  /** `key=total_points, reverse=True` */
  predicate TotalDesc(a: SquadTotal, b: SquadTotal) {
    a.totalPoints >= b.totalPoints
  }

  lemma TitleLeTotalPreorder()
    ensures TotalPreorder(TitleLe)
  {
    forall a: ChallengeBreakdown, b: ChallengeBreakdown ensures TitleLe(a, b) || TitleLe(b, a) {
      StrLeTotal(a.challengeTitle, b.challengeTitle);
    }
    forall a: ChallengeBreakdown, b: ChallengeBreakdown, c: ChallengeBreakdown | TitleLe(a, b) && TitleLe(b, c)
      ensures TitleLe(a, c)
    {
      StrLeTransitive(a.challengeTitle, b.challengeTitle, c.challengeTitle);
    }
  }

  lemma TitlesStep(rows: seq<WinRow>, i: nat)
    requires i < |rows|
    ensures Titles(rows[..i + 1]) ==
      if rows[i].challengeTitle in Titles(rows[..i]) then Titles(rows[..i]) else Titles(rows[..i]) + [rows[i].challengeTitle]
  {
    assert rows[..i + 1][..i] == rows[..i];
  }

  lemma EntriesStep(rows: seq<WinRow>, i: nat, t: string)
    requires i < |rows|
    ensures EntriesFor(rows[..i + 1], t) ==
      EntriesFor(rows[..i], t) + (if rows[i].challengeTitle == t then [EntryOf(rows[i])] else [])
  {
    assert rows[..i + 1][..i] == rows[..i];
  }

  lemma SquadOrderStep(rows: seq<WinRow>, i: nat)
    requires i < |rows|
    ensures SquadOrder(rows[..i + 1]) ==
      if rows[i].squadId in SquadOrder(rows[..i]) then SquadOrder(rows[..i]) else SquadOrder(rows[..i]) + [rows[i].squadId]
  {
    assert rows[..i + 1][..i] == rows[..i];
  }

  lemma TotalOfStep(rows: seq<WinRow>, i: nat, s: SquadId)
    requires i < |rows|
    ensures var row := rows[i];
      TotalOf(rows[..i + 1], s) ==
      if row.squadId != s then TotalOf(rows[..i], s)
      else if s in SquadOrder(rows[..i]) then
        TotalOf(rows[..i], s).(totalPoints := TotalOf(rows[..i], s).totalPoints + Points(row),
                               challengesCompleted := TotalOf(rows[..i], s).challengesCompleted + 1)
      else SquadTotal(row.squadName, s, Points(row), 1)
  {
    assert rows[..i + 1][..i] == rows[..i];
    if s !in SquadOrder(rows[..i]) {
      UnseenSquadHasNothing(rows[..i], s);
    }
  }

  /** The grouping loop of get_detailed_campaign_scoreboard: the two dicts and their key orders. */
  method GroupRows(rows: seq<WinRow>)
    returns (titles: seq<string>, byTitle: map<string, seq<Entry>>, order: seq<SquadId>, bySquad: map<SquadId, SquadTotal>)
    ensures titles == Titles(rows)
    ensures forall t :: t in byTitle <==> t in titles
    ensures forall t :: t in byTitle ==> byTitle[t] == EntriesFor(rows, t)
    ensures order == SquadOrder(rows)
    ensures forall s :: s in bySquad <==> s in order
    ensures forall s :: s in bySquad ==> bySquad[s] == TotalOf(rows, s)
  {
    titles, byTitle, order, bySquad := [], map[], [], map[];
    for i := 0 to |rows|
      invariant titles == Titles(rows[..i])
      invariant forall t :: t in byTitle <==> t in titles
      invariant forall t :: t in byTitle ==> byTitle[t] == EntriesFor(rows[..i], t)
      invariant order == SquadOrder(rows[..i])
      invariant forall s :: s in bySquad <==> s in order
      invariant forall s :: s in bySquad ==> bySquad[s] == TotalOf(rows[..i], s)
    {
      titles, byTitle := AddEntry(rows, i, rows[i], titles, byTitle);
      order, bySquad := AddToTotal(rows, i, rows[i], order, bySquad);
    }
    assert rows[..|rows|] == rows;
  }

  /** One row into challenges_breakdown: a new title gets an empty list, then the row's entry is appended. */
  method AddEntry(ghost rows: seq<WinRow>, ghost i: nat, row: WinRow, titles: seq<string>, byTitle: map<string, seq<Entry>>)
    returns (titles': seq<string>, byTitle': map<string, seq<Entry>>)
    requires i < |rows| && row == rows[i]
    requires titles == Titles(rows[..i])
    requires forall t :: t in byTitle <==> t in titles
    requires forall t :: t in byTitle ==> byTitle[t] == EntriesFor(rows[..i], t)
    ensures titles' == Titles(rows[..i + 1])
    ensures forall t :: t in byTitle' <==> t in titles'
    ensures forall t :: t in byTitle' ==> byTitle'[t] == EntriesFor(rows[..i + 1], t)
  {
    ghost var p := rows[..i];
    TitlesStep(rows, i);
    titles', byTitle' := titles, byTitle;
    if row.challengeTitle !in byTitle' {
      UnseenTitleHasNoEntries(p, row.challengeTitle);
      titles' := titles' + [row.challengeTitle];
      byTitle' := byTitle'[row.challengeTitle := []];
    }
    var points := row.pointsEarned.GetOr(0);
    byTitle' := byTitle'[row.challengeTitle := byTitle'[row.challengeTitle] + [Entry(row.squadName, row.squadId, points)]];
    forall u | u in byTitle' ensures byTitle'[u] == EntriesFor(rows[..i + 1], u) {
      EntriesStep(rows, i, u);
    }
  }

  /** One row into squad_totals: a new squad starts at zero, then gains the row's points and one win. */
  method AddToTotal(ghost rows: seq<WinRow>, ghost i: nat, row: WinRow, order: seq<SquadId>, bySquad: map<SquadId, SquadTotal>)
    returns (order': seq<SquadId>, bySquad': map<SquadId, SquadTotal>)
    requires i < |rows| && row == rows[i]
    requires order == SquadOrder(rows[..i])
    requires forall s :: s in bySquad <==> s in order
    requires forall s :: s in bySquad ==> bySquad[s] == TotalOf(rows[..i], s)
    ensures order' == SquadOrder(rows[..i + 1])
    ensures forall s :: s in bySquad' <==> s in order'
    ensures forall s :: s in bySquad' ==> bySquad'[s] == TotalOf(rows[..i + 1], s)
  {
    SquadOrderStep(rows, i);
    order', bySquad' := order, bySquad;
    if row.squadId !in bySquad' {
      order' := order' + [row.squadId];
      bySquad' := bySquad'[row.squadId := SquadTotal(row.squadName, row.squadId, 0, 0)];
    }
    var points := row.pointsEarned.GetOr(0);
    var t := bySquad'[row.squadId];
    bySquad' := bySquad'[row.squadId := t.(totalPoints := t.totalPoints + points,
                                           challengesCompleted := t.challengesCompleted + 1)];
    forall u | u in bySquad' ensures bySquad'[u] == TotalOf(rows[..i + 1], u) {
      TotalOfStep(rows, i, u);
    }
  }

  /** The loop over challenges_breakdown.items(): each challenge's entries sorted by points, in key order. */
  method SortEachChallenge(titles: seq<string>, byTitle: map<string, seq<Entry>>)
    returns (challengesList: seq<ChallengeBreakdown>)
    requires forall t :: t in titles ==> t in byTitle
    ensures |challengesList| == |titles|
    ensures forall j :: 0 <= j < |titles| ==>
      challengesList[j] == ChallengeBreakdown(titles[j], Sort(byTitle[titles[j]], EntryDesc))
  {
    challengesList := [];
    for k := 0 to |titles|
      invariant |challengesList| == k
      invariant forall j :: 0 <= j < k ==>
        challengesList[j] == ChallengeBreakdown(titles[j], Sort(byTitle[titles[j]], EntryDesc))
    {
      var squads := byTitle[titles[k]];
      var item := ChallengeBreakdown(titles[k], Sort(squads, EntryDesc));
      ghost var before := challengesList;
      challengesList := challengesList + [item];
      forall j | 0 <= j < k + 1
        ensures challengesList[j] == ChallengeBreakdown(titles[j], Sort(byTitle[titles[j]], EntryDesc))
      {
        if j < k {
          assert challengesList[j] == before[j];
        }
      }
    }
  }

  /**
   * get_detailed_campaign_scoreboard after the query: the grouping pass,
   * then the three sorts.
   */
  method DetailedScoreboard(rows: seq<WinRow>) returns (breakdown: seq<ChallengeBreakdown>, totals: seq<SquadTotal>)
    ensures breakdown == Sort(Breakdown(rows), TitleLe)
    ensures totals == Sort(Totals(rows), TotalDesc)
  {
    var titles, byTitle, order, bySquad := GroupRows(rows);
    var challengesList := SortEachChallenge(titles, byTitle);
    ghost var specList := Breakdown(rows);
    forall j | 0 <= j < |specList| ensures challengesList[j] == specList[j] {
      assert byTitle[titles[j]] == EntriesFor(rows, titles[j]);
    }
    assert challengesList == specList;
    breakdown := Sort(challengesList, TitleLe);

    var totalsList := seq(|order|, k requires 0 <= k < |order| => bySquad[order[k]]);
    ghost var spec := Totals(rows);
    forall k | 0 <= k < |spec| ensures totalsList[k] == spec[k] {
      assert order[k] in bySquad;
    }
    assert totalsList == spec;
    totals := Sort(totalsList, TotalDesc);
  }

  /** The challenges come out ordered by title. */
  lemma BreakdownSortedByTitle(rows: seq<WinRow>)
    ensures SortedBy(Sort(Breakdown(rows), TitleLe), TitleLe)
  {
    TitleLeTotalPreorder();
    SortSorted(Breakdown(rows), TitleLe);
  }

  /** Each challenge lists exactly its rows' entries, highest points first. */
  lemma BreakdownEntriesSorted(rows: seq<WinRow>, k: nat)
    requires k < |Sort(Breakdown(rows), TitleLe)|
    ensures var b := Sort(Breakdown(rows), TitleLe)[k];
      && HasTitle(rows, b.challengeTitle)
      && SortedBy(b.submissions, EntryDesc)
      && multiset(b.submissions) == multiset(EntriesFor(rows, b.challengeTitle))
  {
    var list := Breakdown(rows);
    var b := Sort(list, TitleLe)[k];
    assert b in multiset(list);
    var j :| 0 <= j < |list| && list[j] == b;
    TitlesCover(rows, b.challengeTitle);
    SortSorted(EntriesFor(rows, b.challengeTitle), EntryDesc);
  }

  /** Every title of the rows has its challenge in the breakdown. */
  lemma BreakdownCoversTitles(rows: seq<WinRow>, t: string)
    requires HasTitle(rows, t)
    ensures exists k :: 0 <= k < |Sort(Breakdown(rows), TitleLe)| && Sort(Breakdown(rows), TitleLe)[k].challengeTitle == t
  {
    var list := Breakdown(rows);
    TitlesCover(rows, t);
    var j :| 0 <= j < |Titles(rows)| && Titles(rows)[j] == t;
    assert list[j].challengeTitle == t;
    SortKeepsElement(list, TitleLe, j);
  }

  /** The squad totals come out ordered by points, highest first, one per squad of the rows. */
  lemma TotalsSortedByPoints(rows: seq<WinRow>)
    ensures SortedBy(Sort(Totals(rows), TotalDesc), TotalDesc)
    ensures |Sort(Totals(rows), TotalDesc)| == |SquadOrder(rows)|
  {
    SortSorted(Totals(rows), TotalDesc);
  }

  /** Each squad total is the sum of the squad's points and the count of its rows. */
  lemma TotalsAreSums(rows: seq<WinRow>, k: nat)
    requires k < |Sort(Totals(rows), TotalDesc)|
    ensures var t := Sort(Totals(rows), TotalDesc)[k];
      && HasSquad(rows, t.squadId)
      && t.totalPoints == SquadPoints(rows, t.squadId)
      && t.challengesCompleted == SquadWins(rows, t.squadId)
  {
    var list := Totals(rows);
    var t := Sort(list, TotalDesc)[k];
    assert t in multiset(list);
    var j :| 0 <= j < |list| && list[j] == t;
    SquadOrderCovers(rows, t.squadId);
  }

  /** Every squad of the rows has its total in the list. */
  lemma TotalsCoverSquads(rows: seq<WinRow>, s: SquadId)
    requires HasSquad(rows, s)
    ensures exists k :: 0 <= k < |Sort(Totals(rows), TotalDesc)| && Sort(Totals(rows), TotalDesc)[k].squadId == s
  {
    var list := Totals(rows);
    var ts := Sort(list, TotalDesc);
    SquadOrderCovers(rows, s);
    var j :| 0 <= j < |SquadOrder(rows)| && SquadOrder(rows)[j] == s;
    assert list[j] in multiset(ts);
    var k :| 0 <= k < |ts| && ts[k] == list[j];
  }

  /** Points of all rows. */
  function RowsPoints(rows: seq<WinRow>): int
    decreases |rows|
  {
    if rows == [] then 0 else RowsPoints(rows[..|rows| - 1]) + Points(rows[|rows| - 1])
  }

  /** The sum of SquadPoints over a list of squads. */
  function SumPoints(order: seq<SquadId>, rows: seq<WinRow>): int
    decreases |order|
  {
    if order == [] then 0 else SumPoints(order[..|order| - 1], rows) + SquadPoints(rows, order[|order| - 1])
  }

  /** A further row adds its points to the sum exactly when its squad is listed (once). */
  lemma {:induction false} SumPointsStep(order: seq<SquadId>, rows: seq<WinRow>)
    requires rows != []
    requires forall i, j :: 0 <= i < j < |order| ==> order[i] != order[j]
    ensures SumPoints(order, rows) ==
      SumPoints(order, rows[..|rows| - 1]) + (if rows[|rows| - 1].squadId in order then Points(rows[|rows| - 1]) else 0)
    decreases |order|
  {
    if order != [] {
      var init := order[..|order| - 1];
      var s := order[|order| - 1];
      var last := rows[|rows| - 1];
      SumPointsStep(init, rows);
      assert last.squadId in order <==> last.squadId in init || last.squadId == s;
      assert last.squadId == s ==> last.squadId !in init;
    }
  }

  /** The squad totals add up to the points of all the rows: no row is lost or counted twice. */
  lemma {:induction false} TotalsAddUp(rows: seq<WinRow>)
    ensures SumPoints(SquadOrder(rows), rows) == RowsPoints(rows)
    decreases |rows|
  {
    if rows != [] {
      var init := rows[..|rows| - 1];
      var last := rows[|rows| - 1];
      TotalsAddUp(init);
      var order := SquadOrder(init);
      SumPointsStep(order, rows);
      if last.squadId !in order {
        UnseenSquadHasNothing(init, last.squadId);
        SumPointsAppend(order, last.squadId, rows);
      }
    }
  }

  /** Listing one more squad adds that squad's points. */
  lemma SumPointsAppend(order: seq<SquadId>, s: SquadId, rows: seq<WinRow>)
    ensures SumPoints(order + [s], rows) == SumPoints(order, rows) + SquadPoints(rows, s)
  {
    assert (order + [s])[..|order|] == order;
  }
}
