/**
 * Squad sale events (SquadSaleEvent in models.py and
 * SquadSaleEventOperations in crud.py): a time-boxed percentage off the
 * squad join or switch fee. Python's int(cost * pct / 100) goes through a
 * float; the model uses exact integer division truncated toward zero.
 */
module SaleEvents {
  import opened Wrappers

  const SecondsPerHour := 3600

  datatype SaleEvent = SaleEvent(id: nat, guildId: string, name: string, startTime: int, durationHours: int,
                                 joinDiscountPercent: int, switchDiscountPercent: int, isActive: bool)

  /** Python's int() of a quotient: truncation toward zero. */
  function TruncDiv(a: int, b: int): (q: int)
    requires b > 0
    ensures a >= 0 ==> 0 <= q && q * b <= a < q * b + b
    ensures a < 0 ==> q <= 0 && a < q * b + b && q * b <= a + b - 1 && a <= q * b
  {
    if a >= 0 then
      EuclideanDivBounds(a, b);
      a / b
    else
      EuclideanDivBounds(-a, b);
      -((-a) / b)
  }

  /** The quotient of a non-negative number is the largest multiple of the divisor not above it. */
  lemma EuclideanDivBounds(n: int, b: int)
    requires n >= 0 && b > 0
    ensures 0 <= n / b && (n / b) * b <= n < (n / b) * b + b
  {
  }

  /** A percentage of at most 100 of a non-negative cost is at most the cost. */
  lemma PercentOfCostBounded(cost: int, pct: int)
    ensures 0 <= cost && 0 <= pct <= 100 ==> 0 <= cost * pct <= cost * 100
  {
    if 0 <= cost && 0 <= pct <= 100 {
      assert cost * pct <= cost * 100 by {
        assert cost * (100 - pct) >= 0;
      }
    }
  }

  /** end_time: start plus the duration in hours. */
  function EndTime(e: SaleEvent): int {
    e.startTime + e.durationHours * SecondsPerHour
  }

  /** is_currently_active: switched on and now within [start, end], both ends included. */
  predicate IsCurrentlyActive(e: SaleEvent, now: int) {
    e.isActive && e.startTime <= now <= EndTime(e)
  }

  /** The percentage that applies to a join or to a switch. */
  function PercentFor(e: SaleEvent, isSwitch: bool): int {
    if isSwitch then e.switchDiscountPercent else e.joinDiscountPercent
  }

  /** cost less pct percent of it (truncated), never below zero. */
  function ApplyDiscount(cost: int, pct: int): (r: int)
    ensures r >= 0
    ensures 0 <= cost && 0 <= pct <= 100 ==> r <= cost
    ensures 0 <= cost && pct == 100 ==> r == 0
  {
    var amount := TruncDiv(cost * pct, 100);
    PercentOfCostBounded(cost, pct);
    if cost - amount > 0 then cost - amount else 0
  }

  /**
   * SquadSaleEvent.calculate_discounted_cost: the original cost outside the
   * event's window or when its percentage is 0, the discounted cost otherwise.
   */
  function EventDiscountedCost(e: SaleEvent, cost: int, isSwitch: bool, now: int): (r: int)
    ensures !IsCurrentlyActive(e, now) || PercentFor(e, isSwitch) == 0 ==> r == cost
    ensures IsCurrentlyActive(e, now) && PercentFor(e, isSwitch) != 0 ==> r == ApplyDiscount(cost, PercentFor(e, isSwitch))
    ensures cost >= 0 && 0 <= PercentFor(e, isSwitch) <= 100 ==> 0 <= r <= cost
  {
    if !IsCurrentlyActive(e, now) then cost
    else
      var pct := PercentFor(e, isSwitch);
      if pct == 0 then cost else ApplyDiscount(cost, pct)
  }

  /** The guild's switched-on events whose window contains now, in the given order. */
  function ActiveEvents(events: seq<SaleEvent>, guild: string, now: int): (r: seq<SaleEvent>)
    ensures |r| <= |events|
    ensures forall e :: e in r <==> e in events && e.guildId == guild && IsCurrentlyActive(e, now)
    decreases |events|
  {
    if events == [] then []
    else
      var last := events[|events| - 1];
      var rest := ActiveEvents(events[..|events| - 1], guild, now);
      assert events == events[..|events| - 1] + [last];
      if last.guildId == guild && IsCurrentlyActive(last, now) then rest + [last] else rest
  }

  /** Ordered by start time, as the query's ORDER BY start_time returns the rows. */
  predicate StartOrdered(events: seq<SaleEvent>) {
    forall i, j :: 0 <= i < j < |events| ==> events[i].startTime <= events[j].startTime
  }

  /** Filtering keeps the start-time order of the rows. */
  lemma {:induction false} ActiveEventsKeepStartOrder(events: seq<SaleEvent>, guild: string, now: int)
    requires StartOrdered(events)
    ensures StartOrdered(ActiveEvents(events, guild, now))
    decreases |events|
  {
    if events != [] {
      var init := events[..|events| - 1];
      var last := events[|events| - 1];
      ActiveEventsKeepStartOrder(init, guild, now);
      var rest := ActiveEvents(init, guild, now);
      forall k | 0 <= k < |rest| ensures rest[k].startTime <= last.startTime {
        assert rest[k] in rest;
        var i :| 0 <= i < |init| && init[i] == rest[k];
        assert events[i] == init[i];
      }
    }
  }

  /**
   * get_active_sale_events: the rows of the guild that are switched on
   * (already in start-time order), kept when their window contains now.
   */
  method GetActiveSaleEvents(events: seq<SaleEvent>, guild: string, now: int) returns (active: seq<SaleEvent>)
    ensures active == ActiveEvents(events, guild, now)
  {
    active := [];
    for i := 0 to |events|
      invariant active == ActiveEvents(events[..i], guild, now)
    {
      assert events[..i + 1][..i] == events[..i];
      var e := events[i];
      if e.guildId == guild && e.isActive && IsCurrentlyActive(e, now) {
        active := active + [e];
      }
    }
    assert events[..|events|] == events;
  }

  /**
   * The choice calculate_discounted_cost makes among the active events: the
   * largest percentage above 0 and the first event offering it; 0 and no
   * event when none offers more than 0.
   */
  function BestOffer(active: seq<SaleEvent>, isSwitch: bool): (r: (int, Option<SaleEvent>))
    ensures r.0 >= 0
    ensures forall k :: 0 <= k < |active| ==> PercentFor(active[k], isSwitch) <= r.0
    ensures r.0 == 0 <==> r.1.None?
    ensures r.1.Some? ==>
      exists k :: (0 <= k < |active| && active[k] == r.1.value
        && PercentFor(active[k], isSwitch) == r.0
        && forall j :: 0 <= j < k ==> PercentFor(active[j], isSwitch) < r.0)
    decreases |active|
  {
    if active == [] then (0, None)
    else
      var init := active[..|active| - 1];
      var last := active[|active| - 1];
      var (best, event) := BestOffer(init, isSwitch);
      assert forall k :: 0 <= k < |init| ==> active[k] == init[k];
      if PercentFor(last, isSwitch) > best then (PercentFor(last, isSwitch), Some(last))
      else (best, event)
  }

  /** The loop of calculate_discounted_cost that keeps the best offer seen so far. */
  method BestDiscount(active: seq<SaleEvent>, isSwitch: bool) returns (best: int, bestEvent: Option<SaleEvent>)
    ensures (best, bestEvent) == BestOffer(active, isSwitch)
  {
    best, bestEvent := 0, None;
    for i := 0 to |active|
      invariant (best, bestEvent) == BestOffer(active[..i], isSwitch)
    {
      assert active[..i + 1][..i] == active[..i];
      var discount := PercentFor(active[i], isSwitch);
      if discount > best {
        best, bestEvent := discount, Some(active[i]);
      }
    }
    assert active[..|active|] == active;
  }

  /**
   * SquadSaleEventOperations.calculate_discounted_cost as a value: the
   * original cost and no event when no active event of the guild offers a
   * discount for this action; otherwise the cost under the best percentage,
   * with the first event offering it.
   */
  function DiscountedCost(events: seq<SaleEvent>, guild: string, originalCost: int, isSwitch: bool, now: int)
    : (r: (int, Option<SaleEvent>))
    ensures r.1.None? ==> r.0 == originalCost
    ensures r.1.None? <==> forall e :: e in ActiveEvents(events, guild, now) ==> PercentFor(e, isSwitch) <= 0
    ensures r.1.Some? ==>
      && r.1.value in ActiveEvents(events, guild, now)
      && (forall e :: e in ActiveEvents(events, guild, now) ==> PercentFor(e, isSwitch) <= PercentFor(r.1.value, isSwitch))
      && r.0 == ApplyDiscount(originalCost, PercentFor(r.1.value, isSwitch))
      && r.0 == EventDiscountedCost(r.1.value, originalCost, isSwitch, now)
  {
    var active := ActiveEvents(events, guild, now);
    var (best, event) := BestOffer(active, isSwitch);
    if best == 0 then (originalCost, None)
    else
      assert forall e :: e in active ==> exists k :: 0 <= k < |active| && active[k] == e;
      (ApplyDiscount(originalCost, best), event)
  }
  /**
   * On a tie the earliest sale wins: with the rows in start-time order, no
   * other active event offering the chosen percentage starts earlier than
   * the chosen one.
   */
  lemma TieGoesToEarliestStart(events: seq<SaleEvent>, guild: string, originalCost: int, isSwitch: bool, now: int)
    requires StartOrdered(events)
    ensures var r := DiscountedCost(events, guild, originalCost, isSwitch, now);
      r.1.Some? ==> forall e :: (e in ActiveEvents(events, guild, now)
        && PercentFor(e, isSwitch) == PercentFor(r.1.value, isSwitch)) ==> r.1.value.startTime <= e.startTime
  {
    var active := ActiveEvents(events, guild, now);
    ActiveEventsKeepStartOrder(events, guild, now);
    var (best, event) := BestOffer(active, isSwitch);
    if best != 0 {
      var k :| 0 <= k < |active| && active[k] == event.value && PercentFor(active[k], isSwitch) == best
        && forall j :: 0 <= j < k ==> PercentFor(active[j], isSwitch) < best;
      forall e | e in active && PercentFor(e, isSwitch) == best ensures event.value.startTime <= e.startTime {
        var j :| 0 <= j < |active| && active[j] == e;
        if j != k {
          assert k < j;
        }
      }
    }
  }


  /** SquadSaleEventOperations.calculate_discounted_cost: the active events, then the best offer among them. */
  method CalculateDiscountedCost(events: seq<SaleEvent>, guild: string, originalCost: int, isSwitch: bool, now: int)
    returns (cost: int, event: Option<SaleEvent>)
    ensures (cost, event) == DiscountedCost(events, guild, originalCost, isSwitch, now)
  {
    var active := GetActiveSaleEvents(events, guild, now);
    if active == [] {
      return originalCost, None;
    }
    var best, bestEvent := BestDiscount(active, isSwitch);
    if best == 0 {
      return originalCost, None;
    }
    var discountAmount := TruncDiv(originalCost * best, 100);
    cost := if originalCost - discountAmount > 0 then originalCost - discountAmount else 0;
    event := bestEvent;
  }

  /** With percentages in 0..100 (the table's check constraint) the charged fee never exceeds the listed fee. */
  lemma DiscountNeverRaisesFee(e: SaleEvent, cost: int, isSwitch: bool, now: int)
    requires 0 <= cost
    requires 0 <= e.joinDiscountPercent <= 100 && 0 <= e.switchDiscountPercent <= 100
    ensures 0 <= EventDiscountedCost(e, cost, isSwitch, now) <= cost
    ensures IsCurrentlyActive(e, now) && PercentFor(e, isSwitch) > 0 && cost >= 100 ==>
      EventDiscountedCost(e, cost, isSwitch, now) < cost
  {
  }
}
