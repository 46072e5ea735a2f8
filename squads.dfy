/**
 * SquadOperations.join_squad and switch_squad (crud.py): the guards in the
 * order the code checks them, the fee charged through the bytes ledger
 * (discounted by the best active sale event), and the membership table,
 * which holds at most one squad per (guild, user).
 */
module Squads {
  import opened Wrappers
  import Text
  import opened BytesLedger
  import opened SaleEvents

  type SquadId = nat

  datatype Squad = Squad(id: SquadId, guildId: GuildId, name: string, switchCost: int,
                         maxMembers: Option<int>, isActive: bool, isDefault: bool)

  /** NotFoundError and ConflictError as the two operations raise them. */
  datatype SquadError =
    | SquadNotFound       // get_squad found no row
    | NotInSquad          // switch: the user has no squad in the guild
    | SquadInactive
    | DefaultSquad        // default squads are assigned automatically, never joined by hand
    | AlreadyInSquad      // join: the user has a squad in the guild
    | SameSquad           // switch: the target is the current squad
    | SquadFull
    | ChargeRefused       // create_system_charge: balance below the fee

  predicate IsNotFound(e: SquadError) {
    e == SquadNotFound || e == NotInSquad
  }

  /** Who belongs to which squad, one row per (guild, user). */
  type Memberships = map<Account, SquadId>

  /** _get_squad_member_count: the rows naming the squad. */
  function MemberCount(m: Memberships, sid: SquadId): nat {
    |set a | a in m && m[a] == sid|
  }

  /** The capacity test: a limit that is set and non-zero, reached by the current count. */
  predicate IsFull(s: Squad, count: int) {
    s.maxMembers.Some? && s.maxMembers.value != 0 && count >= s.maxMembers.value
  }

  /** str() of a Python int. */
  function IntText(n: int): string {
    if n < 0 then "-" + Text.NatToString(-n) else Text.NatToString(n)
  }

  /** The transaction reason of a join fee; the sale is named only when it lowered the fee. */
  function JoinReason(s: Squad, cost: int, event: Option<SaleEvent>): string {
    if event.Some? && cost < s.switchCost then
      "Squad join fee: " + s.name + " (" + IntText(event.value.joinDiscountPercent) + "% off - " + event.value.name + ")"
    else "Squad join fee: " + s.name
  }

  /** The transaction reason of a switch fee. */
  function SwitchReason(from: Squad, to: Squad, cost: int, event: Option<SaleEvent>): string {
    if event.Some? && cost < to.switchCost then
      "Squad switch fee: " + from.name + " → " + to.name + " (" + IntText(event.value.switchDiscountPercent) + "% off - " + event.value.name + ")"
    else "Squad switch fee: " + from.name + " → " + to.name
  }

  /** The state one operation touches: memberships, balances and the transaction log. */
  datatype World = World(memberships: Memberships, balances: map<Account, Balance>, transactions: seq<Transaction>)

  /** The checks join_squad makes before any charge, first failing one first. */
  function JoinGuard(squads: map<SquadId, Squad>, m: Memberships, guild: GuildId, user: UserId, sid: SquadId): (r: Option<SquadError>)
    ensures r.None? <==>
      && sid in squads && squads[sid].isActive && !squads[sid].isDefault
      && (guild, user) !in m && !IsFull(squads[sid], MemberCount(m, sid))
  {
    if sid !in squads then Some(SquadNotFound)
    else if !squads[sid].isActive then Some(SquadInactive)
    else if squads[sid].isDefault then Some(DefaultSquad)
    else if (guild, user) in m then Some(AlreadyInSquad)
    else if IsFull(squads[sid], MemberCount(m, sid)) then Some(SquadFull)
    else None
  }

  /** The checks switch_squad makes before any charge, first failing one first. */
  function SwitchGuard(squads: map<SquadId, Squad>, m: Memberships, guild: GuildId, user: UserId, sid: SquadId): (r: Option<SquadError>)
    ensures r.None? <==>
      && (guild, user) in m && m[(guild, user)] != sid
      && sid in squads && squads[sid].isActive && !squads[sid].isDefault
      && !IsFull(squads[sid], MemberCount(m, sid))
  {
    if (guild, user) !in m then Some(NotInSquad)
    else if m[(guild, user)] == sid then Some(SameSquad)
    else if sid !in squads then Some(SquadNotFound)
    else if !squads[sid].isActive then Some(SquadInactive)
    else if squads[sid].isDefault then Some(DefaultSquad)
    else if IsFull(squads[sid], MemberCount(m, sid)) then Some(SquadFull)
    else None
  }

  /** The fee step shared by both operations: no charge for a non-positive cost, otherwise a system charge. */
  function ChargeFee(w: World, guild: GuildId, user: UserId, listed: int, cost: int, reason: string): Result<World, SquadError> {
    if listed <= 0 then Ok(w)
    else match SystemCharge(w.balances, guild, user, cost)
      case Err(_) => Err(ChargeRefused)
      case Ok(b) => Ok(w.(balances := b, transactions := w.transactions + [Transaction(guild, user, SystemId, cost, Charge(reason))]))
  }

  /** join_squad on values: guards, the join-priced fee, then the new membership. */
  function Join(squads: map<SquadId, Squad>, events: seq<SaleEvent>, w: World,
                guild: GuildId, user: UserId, sid: SquadId, now: int): Result<World, SquadError>
  {
    match JoinGuard(squads, w.memberships, guild, user, sid)
    case Some(e) => Err(e)
    case None =>
      var s := squads[sid];
      var (cost, event) := DiscountedCost(events, guild, s.switchCost, false, now);
      match ChargeFee(w, guild, user, s.switchCost, cost, JoinReason(s, cost, event))
      case Err(e) => Err(e)
      case Ok(w') => Ok(w'.(memberships := w'.memberships[(guild, user) := sid]))
  }

  /** switch_squad on values: guards, the switch-priced fee, leaving the old squad, joining the new one. */
  function Switch(squads: map<SquadId, Squad>, events: seq<SaleEvent>, w: World,
                  guild: GuildId, user: UserId, sid: SquadId, now: int): Result<World, SquadError>
    requires forall a :: a in w.memberships ==> w.memberships[a] in squads
  {
    match SwitchGuard(squads, w.memberships, guild, user, sid)
    case Some(e) => Err(e)
    case None =>
      var from := squads[w.memberships[(guild, user)]];
      var s := squads[sid];
      var (cost, event) := DiscountedCost(events, guild, s.switchCost, true, now);
      match ChargeFee(w, guild, user, s.switchCost, cost, SwitchReason(from, s, cost, event))
      case Err(e) => Err(e)
      case Ok(w') => Ok(w'.(memberships := (w'.memberships - {(guild, user)})[(guild, user) := sid]))
  }

  /** Every membership names an existing squad (the foreign key with ON DELETE CASCADE). */
  ghost predicate MembershipsResolve(squads: map<SquadId, Squad>, m: Memberships) {
    forall a :: a in m ==> m[a] in squads
  }

  /** Adding one user to a squad raises its count by exactly one. */
  lemma {:induction false} CountAfterAdd(m: Memberships, a: Account, sid: SquadId)
    requires a !in m
    ensures MemberCount(m[a := sid], sid) == MemberCount(m, sid) + 1
  {
    var m' := m[a := sid];
    var before := set b | b in m && m[b] == sid;
    var after := set b | b in m' && m'[b] == sid;
    assert after == before + {a};
  }

  /** Moving one user from squad `from` to squad `to` changes the two counts by one each. */
  lemma {:induction false} CountsAfterMove(m: Memberships, a: Account, to: SquadId)
    requires a in m && m[a] != to
    ensures MemberCount(m[a := to], to) == MemberCount(m, to) + 1
    ensures MemberCount(m[a := to], m[a]) + 1 == MemberCount(m, m[a])
  {
    var from := m[a];
    var m' := m[a := to];
    var toBefore := set b | b in m && m[b] == to;
    var toAfter := set b | b in m' && m'[b] == to;
    assert toAfter == toBefore + {a};
    var fromBefore := set b | b in m && m[b] == from;
    var fromAfter := set b | b in m' && m'[b] == from;
    assert fromBefore == fromAfter + {a};
  }

  /**
   * A successful join records the squad for the user, never pushes a
   * limited squad past its limit, and charges the join fee after the join
   * discount; a refused join changes nothing.
   */
  lemma JoinOutcome(squads: map<SquadId, Squad>, events: seq<SaleEvent>, w: World,
                    guild: GuildId, user: UserId, sid: SquadId, now: int)
    ensures var r := Join(squads, events, w, guild, user, sid, now);
      r.Ok? ==>
        && JoinGuard(squads, w.memberships, guild, user, sid).None?
        && r.value.memberships == w.memberships[(guild, user) := sid]
        && MemberCount(r.value.memberships, sid) == MemberCount(w.memberships, sid) + 1
        && (squads[sid].maxMembers.Some? && squads[sid].maxMembers.value != 0 ==>
              MemberCount(r.value.memberships, sid) <= squads[sid].maxMembers.value)
        && (squads[sid].switchCost <= 0 ==> r.value.balances == w.balances && r.value.transactions == w.transactions)
        && (squads[sid].switchCost > 0 ==>
              var cost := DiscountedCost(events, guild, squads[sid].switchCost, false, now).0;
              && SystemCharge(w.balances, guild, user, cost).Ok?
              && r.value.balances == SystemCharge(w.balances, guild, user, cost).value
              && |r.value.transactions| == |w.transactions| + 1
              && r.value.transactions[|w.transactions|].amount == cost)
  {
    var r := Join(squads, events, w, guild, user, sid, now);
    if r.Ok? {
      CountAfterAdd(w.memberships, (guild, user), sid);
    }
  }

  /** A refusal names the first failed check, or the charge; nothing else can fail. */
  lemma JoinErrors(squads: map<SquadId, Squad>, events: seq<SaleEvent>, w: World,
                   guild: GuildId, user: UserId, sid: SquadId, now: int)
    ensures var r := Join(squads, events, w, guild, user, sid, now);
      && (JoinGuard(squads, w.memberships, guild, user, sid).Some? ==>
            r == Err(JoinGuard(squads, w.memberships, guild, user, sid).value))
      && (r.Err? && r.error == ChargeRefused <==>
            && JoinGuard(squads, w.memberships, guild, user, sid).None?
            && squads[sid].switchCost > 0
            && GetOrCreate(w.balances, (guild, user)).balance < DiscountedCost(events, guild, squads[sid].switchCost, false, now).0)
  {
  }

  /**
   * A successful switch moves the user to the new squad: the old squad loses
   * exactly one member, the new one gains exactly one and stays within its
   * limit, and the switch fee after the switch discount is charged.
   */
  lemma {:induction false} SwitchMovesMember(squads: map<SquadId, Squad>, events: seq<SaleEvent>, w: World,
                                             guild: GuildId, user: UserId, sid: SquadId, now: int)
    requires MembershipsResolve(squads, w.memberships)
    requires Switch(squads, events, w, guild, user, sid, now).Ok?
    ensures var r := Switch(squads, events, w, guild, user, sid, now).value;
      var from := w.memberships[(guild, user)];
      && from != sid
      && r.memberships == w.memberships[(guild, user) := sid]
      && MemberCount(r.memberships, sid) == MemberCount(w.memberships, sid) + 1
      && MemberCount(r.memberships, from) + 1 == MemberCount(w.memberships, from)
      && (squads[sid].maxMembers.Some? && squads[sid].maxMembers.value != 0 ==>
            MemberCount(r.memberships, sid) <= squads[sid].maxMembers.value)
      && (squads[sid].switchCost > 0 ==>
            r.balances == SystemCharge(w.balances, guild, user, DiscountedCost(events, guild, squads[sid].switchCost, true, now).0).value)
  {
    var m := w.memberships;
    var a := (guild, user);
    assert SwitchGuard(squads, m, guild, user, sid).None?;
    var s := squads[sid];
    var (cost, event) := DiscountedCost(events, guild, s.switchCost, true, now);
    var reason := SwitchReason(squads[m[a]], s, cost, event);
    ChargeFeeEffect(w, guild, user, s.switchCost, cost, reason);
    var w' := ChargeFee(w, guild, user, s.switchCost, cost, reason).value;
    assert Switch(squads, events, w, guild, user, sid, now).value == w'.(memberships := (m - {a})[a := sid]);
    assert (m - {a})[a := sid] == m[a := sid];
    CountsAfterMove(m, a, sid);
  }

  /** The fee step touches only the balances and the transactions, and charges the cost when the listed fee is positive. */
  lemma ChargeFeeEffect(w: World, guild: GuildId, user: UserId, listed: int, cost: int, reason: string)
    requires ChargeFee(w, guild, user, listed, cost, reason).Ok?
    ensures ChargeFee(w, guild, user, listed, cost, reason).value.memberships == w.memberships
    ensures listed > 0 ==> SystemCharge(w.balances, guild, user, cost).Ok?
    ensures listed > 0 ==>
      ChargeFee(w, guild, user, listed, cost, reason).value.balances == SystemCharge(w.balances, guild, user, cost).value
  {
  }

  /** Both operations keep every membership pointing at an existing squad. */
  lemma OperationsKeepMembershipsResolved(squads: map<SquadId, Squad>, events: seq<SaleEvent>, w: World,
                                          guild: GuildId, user: UserId, sid: SquadId, now: int)
    requires MembershipsResolve(squads, w.memberships)
    ensures Join(squads, events, w, guild, user, sid, now).Ok? ==>
      MembershipsResolve(squads, Join(squads, events, w, guild, user, sid, now).value.memberships)
    ensures Switch(squads, events, w, guild, user, sid, now).Ok? ==>
      MembershipsResolve(squads, Switch(squads, events, w, guild, user, sid, now).value.memberships)
  {
  }

  /** The squads table and the membership table. */
  class SquadOperations {
    var squads: map<SquadId, Squad>
    var memberships: Memberships
    var saleEvents: seq<SaleEvent>

    ghost predicate Valid()
      reads this
    {
      MembershipsResolve(squads, memberships)
    }

    constructor (squads: map<SquadId, Squad>, saleEvents: seq<SaleEvent>)
      ensures Valid()
      ensures this.squads == squads && memberships == map[] && this.saleEvents == saleEvents
    {
      this.squads, memberships, this.saleEvents := squads, map[], saleEvents;
    }

    /** get_user_squad: the user's squad in the guild, if any. */
    function GetUserSquad(guild: GuildId, user: UserId): (r: Option<Squad>)
      reads this
      requires Valid()
      ensures r.Some? <==> (guild, user) in memberships
      ensures r.Some? ==> r.value == squads[memberships[(guild, user)]]
    {
      if (guild, user) in memberships then Some(squads[memberships[(guild, user)]]) else None
    }

    /** The fee step of both operations against the ledger. */
    method Charge(ledger: Ledger, guild: GuildId, user: UserId, listed: int, cost: int, reason: string)
      returns (r: Result<(), SquadError>)
      requires ledger.Valid()
      modifies ledger
      ensures ledger.Valid()
      ensures var spec := ChargeFee(World(memberships, old(ledger.balances), old(ledger.transactions)), guild, user, listed, cost, reason);
        && r.Ok? == spec.Ok?
        && (spec.Err? ==> r == Err(spec.error) && ledger.balances == old(ledger.balances) && ledger.transactions == old(ledger.transactions))
        && (spec.Ok? ==> ledger.balances == spec.value.balances && ledger.transactions == spec.value.transactions)
    {
      if listed <= 0 {
        return Ok(());
      }
      var tx := ledger.CreateSystemCharge(guild, user, cost, reason);
      if tx.Err? {
        return Err(ChargeRefused);
      }
      r := Ok(());
    }

    /** join_squad: on success the membership and the ledger change as Join says; on failure nothing changes. */
    method JoinSquad(ledger: Ledger, guild: GuildId, user: UserId, sid: SquadId, now: int)
      returns (r: Result<SquadId, SquadError>)
      requires Valid() && ledger.Valid()
      modifies this, ledger
      ensures Valid() && ledger.Valid()
      ensures squads == old(squads) && saleEvents == old(saleEvents)
      ensures var spec := Join(squads, saleEvents, World(old(memberships), old(ledger.balances), old(ledger.transactions)),
                               guild, user, sid, now);
        && (spec.Err? ==>
              && r == Err(spec.error) && memberships == old(memberships)
              && ledger.balances == old(ledger.balances) && ledger.transactions == old(ledger.transactions))
        && (spec.Ok? ==> r == Ok(sid) && World(memberships, ledger.balances, ledger.transactions) == spec.value)
    {
      var guard := JoinGuard(squads, memberships, guild, user, sid);
      if guard.Some? {
        return Err(guard.value);
      }
      var squad := squads[sid];
      var cost, event := CalculateDiscountedCost(saleEvents, guild, squad.switchCost, false, now);
      var charged := Charge(ledger, guild, user, squad.switchCost, cost, JoinReason(squad, cost, event));
      if charged.Err? {
        return Err(charged.error);
      }
      memberships := memberships[(guild, user) := sid];
      r := Ok(sid);
    }

    /** switch_squad: on success the user has left the old squad and joined the new one; on failure nothing changes. */
    method SwitchSquad(ledger: Ledger, guild: GuildId, user: UserId, sid: SquadId, now: int)
      returns (r: Result<SquadId, SquadError>)
      requires Valid() && ledger.Valid()
      modifies this, ledger
      ensures Valid() && ledger.Valid()
      ensures squads == old(squads) && saleEvents == old(saleEvents)
      ensures var spec := Switch(squads, saleEvents, World(old(memberships), old(ledger.balances), old(ledger.transactions)),
                                 guild, user, sid, now);
        && (spec.Err? ==>
              && r == Err(spec.error) && memberships == old(memberships)
              && ledger.balances == old(ledger.balances) && ledger.transactions == old(ledger.transactions))
        && (spec.Ok? ==> r == Ok(sid) && World(memberships, ledger.balances, ledger.transactions) == spec.value)
    {
      var guard := SwitchGuard(squads, memberships, guild, user, sid);
      if guard.Some? {
        return Err(guard.value);
      }
      var current := GetUserSquad(guild, user);
      var squad := squads[sid];
      var cost, event := CalculateDiscountedCost(saleEvents, guild, squad.switchCost, true, now);
      var charged := Charge(ledger, guild, user, squad.switchCost, cost, SwitchReason(current.value, squad, cost, event));
      if charged.Err? {
        return Err(charged.error);
      }
      memberships := (memberships - {(guild, user)})[(guild, user) := sid];
      r := Ok(sid);
    }
  }
}
