/**
 * Bot-side state of the Discord client (bot/client.py): the daily-claim
 * cache, the squad-role reconciliation diff, and the two message builders
 * for forum-agent replies and topic notifications. Discord calls are not
 * part of this model; what the bot would send is returned instead.
 */
module BotClient {
  import opened Wrappers
  import opened Text
  import opened Sorting
  import opened SeqFacts

  // ---------------------------------------------------------------------
  // Daily-claim cache: "guild:user" -> "YYYY-MM-DD"
  // ---------------------------------------------------------------------

  /** The cache key f"{guild_id}:{user_id}". */
  function CacheKey(guildId: string, userId: string): string {
    guildId + ":" + userId
  }

  /** Discord snowflakes hold no colon, so their keys never collide. */
  lemma {:induction false} CacheKeyInjective(g: string, u: string, g': string, u': string)
    requires ':' !in g && ':' !in g'
    requires CacheKey(g, u) == CacheKey(g', u')
    ensures g == g' && u == u'
  {
    var k := CacheKey(g, u);
    assert k[|g|] == ':' && k[|g'|] == ':';
    assert forall i :: 0 <= i < |g| ==> k[i] == g[i] != ':';
    assert forall i :: 0 <= i < |g'| ==> k[i] == g'[i] != ':';
    assert |g| == |g'|;
    assert g == k[..|g|] == g';
    assert u == k[|g| + 1..] == u';
  }

  /** has_claimed_today over a cache value. */
  predicate Claimed(cache: map<string, string>, guildId: string, userId: string, today: string) {
    CacheKey(guildId, userId) in cache && cache[CacheKey(guildId, userId)] == today
  }

  /** What cleanup_old_cache_entries leaves: the entries dated today. */
  function Cleaned(cache: map<string, string>, today: string): (r: map<string, string>)
    ensures forall k :: k in r <==> k in cache && cache[k] == today
    ensures forall k :: k in r ==> r[k] == today
  {
    map k | k in cache && cache[k] == today :: cache[k]
  }

  /** A mark makes the user's claim visible and leaves every other user's answer as it was. */
  lemma MarkAffectsOnlyItsUser(cache: map<string, string>, g: string, u: string, today: string,
                               g': string, u': string, day: string)
    requires ':' !in g && ':' !in g'
    ensures Claimed(cache[CacheKey(g, u) := today], g, u, today)
    ensures (g', u') != (g, u) ==>
      (Claimed(cache[CacheKey(g, u) := today], g', u', day) <==> Claimed(cache, g', u', day))
  {
    if (g', u') != (g, u) && CacheKey(g', u') == CacheKey(g, u) {
      CacheKeyInjective(g, u, g', u');
    }
  }

  /** Cleanup never changes a has_claimed_today answer for today, and forgets every other day. */
  lemma CleanupKeepsTodaysAnswers(cache: map<string, string>, g: string, u: string, today: string, day: string)
    ensures Claimed(Cleaned(cache, today), g, u, today) <==> Claimed(cache, g, u, today)
    ensures day != today ==> !Claimed(Cleaned(cache, today), g, u, day)
  {
  }

  /** Removing exactly the keys dated another day leaves what cleanup leaves. */
  lemma DroppingStaleKeysCleans(cache: map<string, string>, today: string, stale: set<string>)
    requires stale == set k | k in cache && cache[k] != today
    ensures cache - stale == Cleaned(cache, today)
  {
    var kept := cache - stale;
    assert forall k :: k in kept <==> k in Cleaned(cache, today);
  }

  /** The module-level daily_claim_cache dict. */
  class DailyClaimCache {
    var cache: map<string, string>

    constructor ()
      ensures cache == map[]
    {
      cache := map[];
    }

    /** has_claimed_today(guild_id, user_id), with today's date as a parameter. */
    function HasClaimedToday(guildId: string, userId: string, today: string): (claimed: bool)
      reads this
      ensures claimed <==> CacheKey(guildId, userId) in cache && cache[CacheKey(guildId, userId)] == today
    {
      Claimed(cache, guildId, userId, today)
    }

    /** mark_claimed_today: writes the one key. */
    method MarkClaimedToday(guildId: string, userId: string, today: string)
      modifies this
      ensures cache == old(cache)[CacheKey(guildId, userId) := today]
      ensures HasClaimedToday(guildId, userId, today)
    {
      cache := cache[CacheKey(guildId, userId) := today];
    }

    /** cleanup_old_cache_entries: collects the stale keys, then deletes them one by one. */
    method CleanupOldCacheEntries(today: string)
      modifies this
      ensures cache == Cleaned(old(cache), today)
    {
      var oldKeys := set k | k in cache && cache[k] != today;
      ghost var done: set<string> := {};
      while oldKeys != {}
        invariant oldKeys !! done
        invariant oldKeys + done == set k | k in old(cache) && old(cache)[k] != today
        invariant cache == old(cache) - done
        decreases |oldKeys|
      {
        assert (forall k :: k !in oldKeys) ==> oldKeys == {};
        var key :| key in oldKeys;
        cache := cache - {key};
        oldKeys := oldKeys - {key};
        done := done + {key};
      }
      DroppingStaleKeysCleans(old(cache), today, done);
    }
  }

  // ---------------------------------------------------------------------
  // Squad-role reconciliation
  // ---------------------------------------------------------------------

  /**
   * The role changes sync_squad_roles decides. Only held roles that belong to
   * some squad are looked at; the expected role is the user's squad role,
   * and a role id of 0 is falsy and so counts as no squad.
   */
  function RoleDiff(heldRoles: seq<int>, squadRoleIds: set<int>, expected: Option<int>): (d: (set<int>, set<int>))
    ensures d.0 !! d.1
    ensures d.0 <= (if expected.Some? then {expected.value} else {})
    ensures forall r :: r in d.1 ==> r in heldRoles && r in squadRoleIds
  {
    var current := set r | r in heldRoles && r in squadRoleIds;
    if expected.Some? && expected.value != 0 then
      var e := expected.value;
      ((if e !in current then {e} else {}), current - {e})
    else
      ({}, current)
  }

  /** Applying the diff leaves exactly the expected squad role and every non-squad role untouched. */
  lemma {:induction false} RoleDiffReconciles(heldRoles: seq<int>, squadRoleIds: set<int>, expected: Option<int>)
    requires expected.Some? ==> expected.value in squadRoleIds
    ensures var (add, remove) := RoleDiff(heldRoles, squadRoleIds, expected);
      var after := (set r | r in heldRoles) - remove + add;
      && after * squadRoleIds == (if expected.Some? && expected.value != 0 then {expected.value} else {})
      && after - squadRoleIds == (set r | r in heldRoles) - squadRoleIds
  {
    var (add, remove) := RoleDiff(heldRoles, squadRoleIds, expected);
    var held := set r | r in heldRoles;
    var after := held - remove + add;
    if expected.Some? && expected.value != 0 {
      assert expected.value in after;
    }
  }

  /** The loops of sync_squad_roles: roles_to_add and roles_to_remove as lists. */
  method SyncSquadRoles(heldRoles: seq<int>, squadRoleIds: set<int>, expected: Option<int>)
    returns (rolesToAdd: seq<int>, rolesToRemove: seq<int>)
    ensures (set r | r in rolesToAdd) == RoleDiff(heldRoles, squadRoleIds, expected).0
    ensures (set r | r in rolesToRemove) == RoleDiff(heldRoles, squadRoleIds, expected).1
    ensures forall i, j :: 0 <= i < j < |rolesToRemove| ==> rolesToRemove[i] != rolesToRemove[j]
    ensures |rolesToAdd| <= 1
  {
    var userSquadRoles: seq<int> := [];
    for i := 0 to |heldRoles|
      invariant forall r :: r in userSquadRoles <==> r in heldRoles[..i] && r in squadRoleIds
    {
      assert heldRoles[..i + 1] == heldRoles[..i] + [heldRoles[i]];
      if heldRoles[i] in squadRoleIds {
        userSquadRoles := userSquadRoles + [heldRoles[i]];
      }
    }
    assert heldRoles[..|heldRoles|] == heldRoles;
    var current := set r | r in userSquadRoles;
    assert forall r :: r in current <==> r in heldRoles && r in squadRoleIds;
    assert current == set r | r in heldRoles && r in squadRoleIds;
    rolesToAdd := [];
    if expected.Some? && expected.value != 0 {
      var e := expected.value;
      if e !in current {
        rolesToAdd := [e];
      }
      rolesToRemove := ListOf(current - {e});
    } else {
      rolesToRemove := ListOf(current);
    }
  }

  /** Iterates a set into a list, each element once. */
  method ListOf(s: set<int>) returns (r: seq<int>)
    ensures (set x | x in r) == s
    ensures forall i, j :: 0 <= i < j < |r| ==> r[i] != r[j]
  {
    r := [];
    var rest := s;
    while rest != {}
      invariant rest <= s
      invariant forall y :: y in r <==> y in s && y !in rest
      invariant forall i, j :: 0 <= i < j < |r| ==> r[i] != r[j]
      decreases |rest|
    {
      assert (forall y :: y !in rest) ==> rest == {};
      var x :| x in rest;
      r := r + [x];
      rest := rest - {x};
    }
    assert forall y :: y in (set x | x in r) <==> y in s;
  }

  // ---------------------------------------------------------------------
  // Forum-agent replies and topic notifications
  // ---------------------------------------------------------------------

  /** One agent response dict; a missing key reads as its .get default (False, ""). */
  datatype AgentResponse = AgentResponse(shouldRespond: bool, responseContent: string)

  /** What post_agent_responses would post, in order: stripped contents of responses that asked to respond. */
  function PostedContents(responses: seq<AgentResponse>): (posted: seq<string>)
    ensures |posted| <= |responses|
    decreases |responses|
  {
    if responses == [] then []
    else
      var init := PostedContents(responses[..|responses| - 1]);
      var r := responses[|responses| - 1];
      if r.shouldRespond && Strip(r.responseContent) != "" then init + [Strip(r.responseContent)] else init
  }

  /** A response is posted exactly when it asks to respond and has content once stripped. */
  predicate Postable(r: AgentResponse) {
    r.shouldRespond && Strip(r.responseContent) != ""
  }

  /** Every posted message is non-blank and already stripped. */
  lemma {:induction false} PostedContentsStripped(responses: seq<AgentResponse>)
    ensures forall k :: 0 <= k < |PostedContents(responses)| ==>
      PostedContents(responses)[k] != "" && Strip(PostedContents(responses)[k]) == PostedContents(responses)[k]
    decreases |responses|
  {
    if responses != [] {
      var r := responses[|responses| - 1];
      PostedContentsStripped(responses[..|responses| - 1]);
      StripByIdempotent(r.responseContent, IsSpace);
    }
  }

  /** Something is posted exactly when some response is postable. */
  lemma {:induction false} PostedIffPostable(responses: seq<AgentResponse>)
    ensures |PostedContents(responses)| > 0 <==> SomeSatisfies(responses, Postable)
    decreases |responses|
  {
    if responses != [] {
      PostedIffPostable(responses[..|responses| - 1]);
      SomeSatisfiesSplit(responses, Postable);
    }
  }

  /**
   * Which texts are posted: the k-th posted message is the stripped content
   * of the idx[k]-th response, which is postable; idx increases, and every
   * postable response is among them. So the posted messages are exactly the
   * postable responses' stripped contents, in response order.
   */
  lemma PostedSelection(responses: seq<AgentResponse>) returns (idx: seq<nat>)
    ensures |idx| == |PostedContents(responses)|
    ensures forall k :: 0 <= k < |idx| ==>
      && idx[k] < |responses| && Postable(responses[idx[k]])
      && PostedContents(responses)[k] == Strip(responses[idx[k]].responseContent)
    ensures forall k, k' :: 0 <= k < k' < |idx| ==> idx[k] < idx[k']
    ensures forall j :: 0 <= j < |responses| && Postable(responses[j]) ==> j in idx
  {
    PostedIsFilterMap(responses);
    idx := FilterMapIndices(responses, Postable, StrippedContent);
  }

  /** The stripped text of a response. */
  function StrippedContent(r: AgentResponse): string {
    Strip(r.responseContent)
  }

  /** The posted messages are the stripped contents of the postable responses. */
  lemma {:induction false} PostedIsFilterMap(responses: seq<AgentResponse>)
    ensures PostedContents(responses) == FilterMap(responses, Postable, StrippedContent)
    decreases |responses|
  {
    if responses != [] {
      PostedIsFilterMap(responses[..|responses| - 1]);
    }
  }

  /** post_agent_responses: the messages sent, and whether any was. */
  method PostAgentResponses(responses: seq<AgentResponse>) returns (posted: seq<string>, responsePosted: bool)
    ensures posted == PostedContents(responses)
    ensures responsePosted <==> |posted| > 0
  {
    posted := [];
    responsePosted := false;
    if |responses| == 0 {
      return;
    }
    for i := 0 to |responses|
      invariant posted == PostedContents(responses[..i])
      invariant responsePosted <==> |posted| > 0
    {
      assert responses[..i + 1][..i] == responses[..i];
      var content := Strip(responses[i].responseContent);
      if !responses[i].shouldRespond {
        continue;
      }
      if content == "" {
        continue;
      }
      posted := posted + [content];
      responsePosted := true;
    }
    assert responses[..|responses|] == responses;
  }

  /** One entry of topic_user_map: a topic and the mention strings of its subscribers. */
  datatype TopicMentions = TopicMentions(topic: string, mentions: seq<string>)

  /** int(): the text of a number to its value, or None where int() raises. */
  type IntParser = string -> Option<int>

  predicate IsMentionChar(c: char) {
    c == '<' || c == '@' || c == '>'
  }

  /** The id in a "<@id>" mention: the text with its mention characters stripped, parsed. */
  function MentionId(mention: string, parseInt: IntParser): Option<int> {
    parseInt(StripBy(mention, IsMentionChar))
  }

  /** f"-# {topic} {mentions sorted, space-joined}" */
  function NotificationLine(t: TopicMentions): (line: string)
    ensures |line| > 3 + |t.topic| && line[..3] == "-# " && line[3..3 + |t.topic|] == t.topic
  {
    "-# " + t.topic + " " + Join(Sort(t.mentions, StrLe), " ")
  }

  function NotificationLines(entries: seq<TopicMentions>): (lines: seq<string>)
    ensures |lines| == |entries|
    ensures forall k :: 0 <= k < |entries| ==> lines[k] == NotificationLine(entries[k])
    decreases |entries|
  {
    if entries == [] then []
    else NotificationLines(entries[..|entries| - 1]) + [NotificationLine(entries[|entries| - 1])]
  }

  /** Reads the user id out of one mention string. */
  type IdReader = string -> Option<int>

  /** int(mention.strip("<@>")) as an id reader. */
  function MentionReader(parseInt: IntParser): IdReader {
    m => MentionId(m, parseInt)
  }

  /** Every mention of the list parses. */
  predicate AllParse(mentions: seq<string>, idOf: IdReader) {
    forall k :: 0 <= k < |mentions| ==> idOf(mentions[k]).Some?
  }

  /** The ids of a list of mentions, or None when one of them does not parse. */
  function MentionIds(mentions: seq<string>, idOf: IdReader): (ids: Option<set<int>>)
    ensures ids.Some? <==> AllParse(mentions, idOf)
    decreases |mentions|
  {
    if mentions == [] then Some({})
    else
      var init := mentions[..|mentions| - 1];
      var last := idOf(mentions[|mentions| - 1]);
      var ids := MentionIds(init, idOf);
      assert AllParse(mentions, idOf) <==> AllParse(init, idOf) && last.Some?;
      if ids.Some? && last.Some? then Some(ids.value + {last.value}) else None
  }

  /** An id is in a list's ids exactly when one of its mentions parses to it. */
  lemma {:induction false} MentionIdsMembers(mentions: seq<string>, idOf: IdReader, id: int)
    requires AllParse(mentions, idOf)
    ensures id in MentionIds(mentions, idOf).value <==>
      exists k :: 0 <= k < |mentions| && idOf(mentions[k]) == Some(id)
    decreases |mentions|
  {
    if mentions != [] {
      var n := |mentions|;
      var init := mentions[..n - 1];
      assert forall k :: 0 <= k < |init| ==> init[k] == mentions[k];
      MentionIdsMembers(init, idOf, id);
      if exists k :: 0 <= k < n && idOf(mentions[k]) == Some(id) {
        var k :| 0 <= k < n && idOf(mentions[k]) == Some(id);
        if k < n - 1 {
          assert idOf(init[k]) == Some(id);
        }
      }
    }
  }

  /** Every mention of the topic parses. */
  predicate TopicParses(t: TopicMentions, idOf: IdReader) {
    AllParse(t.mentions, idOf)
  }

  /** The ids one topic contributes ({} when one of its mentions does not parse). */
  function TopicIdSet(t: TopicMentions, idOf: IdReader): set<int> {
    match MentionIds(t.mentions, idOf)
    case Some(ids) => ids
    case None => {}
  }

  /** Every mention of every topic parses. */
  predicate AllTopicsParse(entries: seq<TopicMentions>, idOf: IdReader) {
    forall k :: 0 <= k < |entries| ==> TopicParses(entries[k], idOf)
  }

  /** all_user_ids over every topic, or None when some mention does not parse. */
  function AllUserIds(entries: seq<TopicMentions>, idOf: IdReader): Option<set<int>>
    decreases |entries|
  {
    if entries == [] then Some({})
    else
      var ids := AllUserIds(entries[..|entries| - 1], idOf);
      var last := MentionIds(entries[|entries| - 1].mentions, idOf);
      if ids.Some? && last.Some? then Some(ids.value + last.value) else None
  }

  /** The ids are collected exactly when every mention of every topic parses. */
  lemma {:induction false} AllUserIdsDefined(entries: seq<TopicMentions>, idOf: IdReader)
    ensures AllUserIds(entries, idOf).Some? <==> AllTopicsParse(entries, idOf)
    decreases |entries|
  {
    if entries != [] {
      var init := entries[..|entries| - 1];
      AllUserIdsDefined(init, idOf);
      assert forall k :: 0 <= k < |init| ==> init[k] == entries[k];
    }
  }

  /** An id is collected exactly when some topic's mentions yield it. */
  lemma {:induction false} AllUserIdsMembers(entries: seq<TopicMentions>, idOf: IdReader, id: int)
    requires AllUserIds(entries, idOf).Some?
    ensures id in AllUserIds(entries, idOf).value <==>
      exists k :: 0 <= k < |entries| && id in TopicIdSet(entries[k], idOf)
    decreases |entries|
  {
    if entries != [] {
      var n := |entries|;
      var init := entries[..n - 1];
      assert forall k :: 0 <= k < |init| ==> init[k] == entries[k];
      AllUserIdsMembers(init, idOf, id);
      if id in AllUserIds(init, idOf).value {
        var k :| 0 <= k < |init| && id in TopicIdSet(init[k], idOf);
        assert id in TopicIdSet(entries[k], idOf);
      }
      if exists k :: 0 <= k < n && id in TopicIdSet(entries[k], idOf) {
        var k :| 0 <= k < n && id in TopicIdSet(entries[k], idOf);
        if k < n - 1 {
          assert id in TopicIdSet(init[k], idOf);
        }
      }
    }
  }

  /**
   * What post_user_notifications would send: the message and the ids whose
   * mentions it enables. None when the map is empty (it returns at once) or
   * when a mention is not a number (int() raises and nothing is sent).
   */
  function Notification(entries: seq<TopicMentions>, parseInt: IntParser): Option<(string, set<int>)> {
    if entries == [] then None
    else match AllUserIds(entries, MentionReader(parseInt))
      case None => None
      case Some(ids) => Some((Join(NotificationLines(entries), "\n"), ids))
  }

  /** The loops of post_user_notifications over topics and their mentions. */
  method PostUserNotifications(entries: seq<TopicMentions>, parseInt: IntParser)
    returns (notification: Option<(string, set<int>)>)
    ensures notification == Notification(entries, parseInt)
  {
    if |entries| == 0 {
      return None;
    }
    var lines: seq<string> := [];
    var allUserIds: set<int> := {};
    for i := 0 to |entries|
      invariant lines == NotificationLines(entries[..i])
      invariant AllUserIds(entries[..i], MentionReader(parseInt)) == Some(allUserIds)
    {
      assert entries[..i + 1][..i] == entries[..i];
      var mentionsText := Join(Sort(entries[i].mentions, StrLe), " ");
      lines := lines + ["-# " + entries[i].topic + " " + mentionsText];
      var ids := TopicIds(entries[i].mentions, MentionReader(parseInt));
      if ids.None? {
        NoUserIdsPastAFailure(entries, i + 1, MentionReader(parseInt));
        return None;
      }
      allUserIds := allUserIds + ids.value;
    }
    assert entries[..|entries|] == entries;
    notification := Some((Join(lines, "\n"), allUserIds));
  }

  /** A topic whose mentions do not all parse fails the whole collection. */
  lemma NoUserIdsPastAFailure(entries: seq<TopicMentions>, n: nat, idOf: IdReader)
    requires 0 < n <= |entries| && MentionIds(entries[n - 1].mentions, idOf).None?
    ensures AllUserIds(entries, idOf).None?
  {
    AllUserIdsDefined(entries, idOf);
    assert !TopicParses(entries[n - 1], idOf);
  }

  /** The inner loop: the ids of one topic's mentions, None at the first one that does not parse. */
  method TopicIds(mentions: seq<string>, idOf: IdReader) returns (ids: Option<set<int>>)
    ensures ids == MentionIds(mentions, idOf)
  {
    var acc: set<int> := {};
    for i := 0 to |mentions|
      invariant MentionIds(mentions[..i], idOf) == Some(acc)
    {
      assert mentions[..i + 1][..i] == mentions[..i];
      var userId := idOf(mentions[i]);
      if userId.None? {
        NoIdsPastAFailure(mentions, i + 1, idOf);
        return None;
      }
      acc := acc + {userId.value};
    }
    assert mentions[..|mentions|] == mentions;
    ids := Some(acc);
  }

  /** A mention that does not parse fails the whole list. */
  lemma NoIdsPastAFailure(mentions: seq<string>, n: nat, idOf: IdReader)
    requires 0 < n <= |mentions| && idOf(mentions[n - 1]).None?
    ensures MentionIds(mentions, idOf).None?
  {
  }

  /** Sorting the mentions makes each line independent of the set's iteration order. */
  lemma NotificationLineCanonical(topic: string, a: seq<string>, b: seq<string>)
    requires multiset(a) == multiset(b)
    ensures NotificationLine(TopicMentions(topic, a)) == NotificationLine(TopicMentions(topic, b))
  {
    StrLeTotalPreorder();
    SortSorted(a, StrLe);
    SortSorted(b, StrLe);
    forall x: string, y: string | StrLe(x, y) && StrLe(y, x) ensures x == y {
      StrLeAntisymmetric(x, y);
    }
    SortedUnique(Sort(a, StrLe), Sort(b, StrLe), StrLe);
  }

  lemma StrLeTotalPreorder()
    ensures TotalPreorder(StrLe)
  {
    forall a: string, b: string ensures StrLe(a, b) || StrLe(b, a) {
      StrLeTotal(a, b);
    }
    forall a: string, b: string, c: string | StrLe(a, b) && StrLe(b, c) ensures StrLe(a, c) {
      StrLeTransitive(a, b, c);
    }
  }

  /** The collected ids are exactly the ids some topic's mention reads as. */
  lemma UserIdsFromMentions(entries: seq<TopicMentions>, idOf: IdReader, id: int)
    requires AllUserIds(entries, idOf).Some?
    ensures id in AllUserIds(entries, idOf).value <==>
      exists k, m :: 0 <= k < |entries| && 0 <= m < |entries[k].mentions| && idOf(entries[k].mentions[m]) == Some(id)
  {
    AllUserIdsDefined(entries, idOf);
    AllUserIdsMembers(entries, idOf, id);
    if id in AllUserIds(entries, idOf).value {
      var k :| 0 <= k < |entries| && id in TopicIdSet(entries[k], idOf);
      assert TopicParses(entries[k], idOf);
      MentionIdsMembers(entries[k].mentions, idOf, id);
      var m :| 0 <= m < |entries[k].mentions| && idOf(entries[k].mentions[m]) == Some(id);
    }
    if exists k, m :: 0 <= k < |entries| && 0 <= m < |entries[k].mentions| && idOf(entries[k].mentions[m]) == Some(id) {
      var k, m :| 0 <= k < |entries| && 0 <= m < |entries[k].mentions| && idOf(entries[k].mentions[m]) == Some(id);
      assert TopicParses(entries[k], idOf);
      MentionIdsMembers(entries[k].mentions, idOf, id);
    }
  }

  /** The message mentions a user exactly when one of the topics lists a mention of that id. */
  lemma NotificationMentions(entries: seq<TopicMentions>, parseInt: IntParser, id: int)
    requires Notification(entries, parseInt).Some?
    ensures id in Notification(entries, parseInt).value.1 <==>
      exists k, m :: 0 <= k < |entries| && 0 <= m < |entries[k].mentions| &&
        MentionId(entries[k].mentions[m], parseInt) == Some(id)
  {
    UserIdsFromMentions(entries, MentionReader(parseInt), id);
  }
}
