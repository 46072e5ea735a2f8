/**
 * RepeatingMessage (models.py) and get_due_repeating_messages (crud.py):
 * a message re-sent every interval_minutes on a fixed grid that starts at
 * its first scheduled time; missed slots are skipped, never shifted. Times
 * are seconds; the clock reading is the parameter `now`.
 */
module RepeatingMessages {
  import opened Wrappers

  const SecondsPerMinute := 60

  /** How far either side of now an expected send time may lie for the message to go out now. */
  const DueWindowSeconds := 60

  /** The number of steps from t to the first grid point at or after now. */
  function StepsToReach(t: int, step: int, now: int): (k: nat)
    requires step > 0
    ensures t + k * step >= now
    ensures k == 0 || t + (k - 1) * step < now
    decreases if t < now then now - t else 0
  {
    if t >= now then 0
    else
      var k' := StepsToReach(t + step, step, now);
      assert t + step + k' * step == t + (k' + 1) * step;
      k' + 1
  }

  /** The first grid point t + k * step (k >= 0) that is not before now. */
  function CatchUp(t: int, step: int, now: int): int
    requires step > 0
  {
    t + StepsToReach(t, step, now) * step
  }

  /** CatchUp is the least grid point at or after now. */
  lemma {:induction false} CatchUpIsLeast(t: int, step: int, now: int, j: nat)
    requires step > 0
    requires t + j * step >= now
    ensures CatchUp(t, step, now) <= t + j * step
    ensures CatchUp(t, step, now) >= now && CatchUp(t, step, now) >= t
  {
    var k := StepsToReach(t, step, now);
    if k > j {
      assert (k - 1) * step >= j * step by {
        assert k - 1 >= j;
        MultiplyMonotone(j, k - 1, step);
      }
    } else {
      MultiplyMonotone(k, j, step);
    }
  }

  /** The n-th point of the grid that starts at base. */
  function GridPoint(base: int, step: int, n: nat): int {
    base + n * step
  }

  lemma MultiplyMonotone(a: int, b: int, c: int)
    requires a <= b && c >= 0
    ensures a * c <= b * c
  {
    assert b * c - a * c == (b - a) * c;
  }

  /**
   * calculate_next_send_time as a value: one interval after the scheduled
   * time, then further whole intervals until it is no longer before now.
   */
  function NextSendTime(next: int, intervalMinutes: int, now: int): (r: int)
    requires intervalMinutes >= 1
  {
    CatchUp(next + intervalMinutes * SecondsPerMinute, intervalMinutes * SecondsPerMinute, now)
  }

  /**
   * The schedule rule: the next send time lies strictly after the missed
   * one, is not before now, stays on the missed time's grid, and is the
   * earliest such grid point.
   */
  lemma {:induction false} NextSendTimeOnGrid(next: int, intervalMinutes: int, now: int, j: nat)
    requires intervalMinutes >= 1
    requires j >= 1 && next + j * (intervalMinutes * SecondsPerMinute) >= now
    ensures var r := NextSendTime(next, intervalMinutes, now);
      && r > next && r >= now
      && (exists n: nat :: n >= 1 && r == GridPoint(next, intervalMinutes * SecondsPerMinute, n))
      && r <= next + j * (intervalMinutes * SecondsPerMinute)
  {
    var step := intervalMinutes * SecondsPerMinute;
    var k := StepsToReach(next + step, step, now);
    var r := NextSendTime(next, intervalMinutes, now);
    assert r == next + step + k * step;
    assert r == GridPoint(next, step, k + 1);
    assert next + step + (j - 1) * step == next + j * step;
    CatchUpIsLeast(next + step, step, now, j - 1);
  }

  /** The documented case: missed at xx:11, now xx:13, two-minute interval: the next send is xx:13. */
  lemma MissedElevenNowThirteen(hour: int)
    ensures NextSendTime(hour + 11 * 60, 2, hour + 13 * 60) == hour + 13 * 60
  {
    var step := 2 * SecondsPerMinute;
    assert StepsToReach(hour + 11 * 60 + step, step, hour + 13 * 60) == 0;
  }

  /** The due test of get_due_repeating_messages for a message that is active and overdue. */
  predicate DueNow(isActive: bool, next: int, intervalMinutes: int, now: int)
    requires intervalMinutes >= 1
  {
    var expected := CatchUp(next, intervalMinutes * SecondsPerMinute, now);
    isActive && next <= now && -DueWindowSeconds <= expected - now <= DueWindowSeconds
  }

  /**
   * The caught-up time is never before now, so only the upper end of the
   * window decides; a one-minute message that is overdue is always due.
   */
  lemma {:induction false} DueWindowUpperEndDecides(isActive: bool, next: int, intervalMinutes: int, now: int)
    requires intervalMinutes >= 1
    ensures DueNow(isActive, next, intervalMinutes, now) <==>
      isActive && next <= now && CatchUp(next, intervalMinutes * SecondsPerMinute, now) <= now + DueWindowSeconds
    ensures intervalMinutes == 1 && isActive && next <= now ==> DueNow(isActive, next, intervalMinutes, now)
  {
    var step := intervalMinutes * SecondsPerMinute;
    var k := StepsToReach(next, step, now);
    assert next + k * step >= now;
    if intervalMinutes == 1 && k > 0 {
      assert next + (k - 1) * 60 < now;
      assert next + k * 60 == next + (k - 1) * 60 + 60;
    }
  }

  class RepeatingMessage {
    var guildId: string
    var channelId: string
    var messageContent: string
    var roleId: Option<string>
    var startTime: int
    var intervalMinutes: int
    var nextSendTime: int
    var isActive: bool
    var totalSent: nat
    var lastSentAt: Option<int>
    var updatedAt: int

    /** The table's check constraint: at least one minute between sends. */
    ghost predicate Valid()
      reads this
    {
      intervalMinutes >= 1
    }

    /** A new message: active, nothing sent, first send at the start time. */
    constructor (guildId: string, channelId: string, messageContent: string, roleId: Option<string>,
                 startTime: int, intervalMinutes: int, now: int)
      requires intervalMinutes >= 1
      ensures Valid()
      ensures this.guildId == guildId && this.channelId == channelId && this.messageContent == messageContent
      ensures this.roleId == roleId && this.startTime == startTime && this.intervalMinutes == intervalMinutes
      ensures nextSendTime == startTime && isActive && totalSent == 0 && lastSentAt.None? && updatedAt == now
    {
      this.guildId, this.channelId, this.messageContent, this.roleId := guildId, channelId, messageContent, roleId;
      this.startTime, this.intervalMinutes := startTime, intervalMinutes;
      nextSendTime, isActive, totalSent, lastSentAt, updatedAt := startTime, true, 0, None, now;
    }

    /** is_due: active and the scheduled time has come. */
    predicate IsDue(now: int)
      reads this
    {
      isActive && now >= nextSendTime
    }

    /** calculate_next_send_time: the loop that steps the missed time forward along its grid. */
    method CalculateNextSendTime(now: int) returns (candidate: int)
      requires Valid()
      ensures candidate == NextSendTime(nextSendTime, intervalMinutes, now)
    {
      var step := intervalMinutes * SecondsPerMinute;
      candidate := CatchUpLoop(nextSendTime + step, step, now);
    }

    /** update_after_send: one more send recorded at now, and the schedule moved to the next grid point. */
    method UpdateAfterSend(now: int)
      requires Valid()
      modifies this
      ensures Valid()
      ensures totalSent == old(totalSent) + 1 && lastSentAt == Some(now) && updatedAt == now
      ensures nextSendTime == NextSendTime(old(nextSendTime), intervalMinutes, now)
      ensures intervalMinutes == old(intervalMinutes) && isActive == old(isActive)
      ensures messageContent == old(messageContent) && roleId == old(roleId) && startTime == old(startTime)
      ensures guildId == old(guildId) && channelId == old(channelId)
    {
      totalSent := totalSent + 1;
      lastSentAt := Some(now);
      nextSendTime := CalculateNextSendTime(now);
      updatedAt := now;
    }

    /** get_formatted_message. */
    function FormattedMessage(): (r: string)
      reads this
      ensures r == MessageWithMention(messageContent, roleId)
    {
      MessageWithMention(messageContent, roleId)
    }
  }

  /** The content, followed by a role mention after a blank line when a (non-empty) role is set. */
  function MessageWithMention(content: string, roleId: Option<string>): (r: string)
    ensures |r| >= |content| && r[..|content|] == content
    ensures |r| == |content| <==> roleId.None? || roleId.value == ""
    ensures roleId.Some? && roleId.value != "" ==> r[|content|..] == "\n\n<@&" + roleId.value + ">"
  {
    if roleId.Some? && roleId.value != "" then content + "\n\n<@&" + roleId.value + ">" else content
  }

  /** The catch-up loop of get_due_repeating_messages: whole steps forward from t until not before now. */
  method CatchUpLoop(t: int, step: int, now: int) returns (expected: int)
    requires step > 0
    ensures expected == CatchUp(t, step, now)
  {
    expected := t;
    ghost var j: nat := 0;
    while expected < now
      invariant expected == t + j * step
      invariant StepsToReach(t, step, now) == j + StepsToReach(expected, step, now)
      decreases now - expected
    {
      expected := expected + step;
      j := j + 1;
    }
  }

  /** The messages get_due_repeating_messages returns, in query order, judged on their state before the call. */
  function DueMessages(ms: seq<RepeatingMessage>, now: int): (r: seq<RepeatingMessage>)
    reads set m | m in ms
    requires forall m :: m in ms ==> m.intervalMinutes >= 1
    ensures forall m :: m in r ==> m in ms && DueNow(m.isActive, m.nextSendTime, m.intervalMinutes, now)
    ensures forall m :: m in ms && DueNow(m.isActive, m.nextSendTime, m.intervalMinutes, now) ==> m in r
    decreases |ms|
  {
    if ms == [] then []
    else
      var m := ms[|ms| - 1];
      var rest := DueMessages(ms[..|ms| - 1], now);
      assert ms == ms[..|ms| - 1] + [m];
      if DueNow(m.isActive, m.nextSendTime, m.intervalMinutes, now) then rest + [m] else rest
  }

  /**
   * get_due_repeating_messages: of the active overdue messages, those whose
   * caught-up send time lies within a minute of now; each returned message
   * has its next send time moved to that caught-up time, the others keep theirs.
   */
  method GetDueRepeatingMessages(messages: seq<RepeatingMessage>, now: int) returns (due: seq<RepeatingMessage>)
    requires forall i, j :: 0 <= i < j < |messages| ==> messages[i] != messages[j]
    requires forall m :: m in messages ==> m.intervalMinutes >= 1
    modifies set m | m in messages
    ensures forall m :: m in messages ==> m.intervalMinutes == old(m.intervalMinutes) && m.isActive == old(m.isActive)
    ensures due == old(DueMessages(messages, now))
    ensures forall m :: m in messages && m in due ==>
      m.nextSendTime == CatchUp(old(m.nextSendTime), m.intervalMinutes * SecondsPerMinute, now)
    ensures forall m :: m in messages && m !in due ==> m.nextSendTime == old(m.nextSendTime)
  {
    due := [];
    for i := 0 to |messages|
      invariant forall m :: m in messages ==> m.intervalMinutes == old(m.intervalMinutes) && m.isActive == old(m.isActive)
      invariant forall k :: i <= k < |messages| ==> messages[k].nextSendTime == old(messages[k].nextSendTime)
      invariant due == old(DueMessages(messages[..i], now))
      invariant forall m :: m in due ==> m in messages[..i]
      invariant forall k :: 0 <= k < i && messages[k] in due ==>
        messages[k].nextSendTime == CatchUp(old(messages[k].nextSendTime), messages[k].intervalMinutes * SecondsPerMinute, now)
      invariant forall k :: 0 <= k < i && messages[k] !in due ==> messages[k].nextSendTime == old(messages[k].nextSendTime)
    {
      var message := messages[i];
      assert messages[..i + 1][..i] == messages[..i];
      if message.isActive && message.nextSendTime <= now {
        var expected := CatchUpLoop(message.nextSendTime, message.intervalMinutes * SecondsPerMinute, now);
        var secondsUntil := expected - now;
        if -DueWindowSeconds <= secondsUntil <= DueWindowSeconds {
          message.nextSendTime := expected;
          due := due + [message];
        }
      }
    }
    assert messages[..|messages|] == messages;
  }
}
