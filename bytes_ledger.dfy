/**
 * BytesOperations (crud.py): per-(guild, user) balances and the transaction
 * log. Every operation updates balances in place and appends one
 * transaction; ConflictError and DatabaseOperationError roll the session
 * back, so a failed operation leaves both tables as they were.
 */
module BytesLedger {
  import opened Wrappers

  type GuildId = string
  type UserId = string
  type Account = (GuildId, UserId)

  /** The id recorded as the other side of system charges and rewards. */
  const SystemId: UserId := "SYSTEM"

  datatype Balance = Balance(balance: int, totalReceived: int, totalSent: int,
                             streakCount: int, lastDaily: Option<int>)

  /** What a transaction row says it was for; the free-text reasons are not modelled as text. */
  datatype Reason =
    | Given(note: Option<string>)
    | Charge(text: string)
    | Reward(text: string)
    | NewMemberBonus
    | DailyWithMultiplier(day: int, multiplier: int)
    | Daily(day: int)

  datatype Transaction = Transaction(guildId: GuildId, giverId: UserId, receiverId: UserId, amount: int, reason: Reason)

  datatype LedgerError = InsufficientBalance | BalanceNotFound

  /** The row get_or_create_balance creates: everything zero. */
  const EmptyBalance := Balance(0, 0, 0, 0, None)

  /** get_or_create_balance: the stored row, or a fresh zero row. */
  function GetOrCreate(balances: map<Account, Balance>, a: Account): (b: Balance)
    ensures a !in balances ==> b == EmptyBalance
    ensures a in balances ==> b == balances[a]
  {
    if a in balances then balances[a] else EmptyBalance
  }

  /** A row's balance is what it received minus what it sent. */
  predicate RowConsistent(b: Balance) {
    b.balance == b.totalReceived - b.totalSent
  }

  ghost predicate Consistent(balances: map<Account, Balance>) {
    forall a :: a in balances ==> RowConsistent(balances[a])
  }

  ghost predicate NonNegative(balances: map<Account, Balance>) {
    forall a :: a in balances ==> balances[a].balance >= 0
  }

  /** Debits one row: balance down, total_sent up. */
  function Debit(balances: map<Account, Balance>, a: Account, amount: int): (r: map<Account, Balance>)
    ensures r.Keys == balances.Keys + {a}
    ensures r[a] == GetOrCreate(balances, a).(balance := GetOrCreate(balances, a).balance - amount,
                                              totalSent := GetOrCreate(balances, a).totalSent + amount)
    ensures forall k :: k in balances && k != a ==> r[k] == balances[k]
  {
    var b := GetOrCreate(balances, a);
    balances[a := b.(balance := b.balance - amount, totalSent := b.totalSent + amount)]
  }

  /** Credits one row: balance up, total_received up. */
  function Credit(balances: map<Account, Balance>, a: Account, amount: int): (r: map<Account, Balance>)
    ensures r.Keys == balances.Keys + {a}
    ensures r[a] == GetOrCreate(balances, a).(balance := GetOrCreate(balances, a).balance + amount,
                                              totalReceived := GetOrCreate(balances, a).totalReceived + amount)
    ensures forall k :: k in balances && k != a ==> r[k] == balances[k]
  {
    var b := GetOrCreate(balances, a);
    balances[a := b.(balance := b.balance + amount, totalReceived := b.totalReceived + amount)]
  }

  /**
   * create_transaction on the balances: refused when the giver holds less
   * than the amount; otherwise the giver is debited and the receiver
   * credited, which for a gift to oneself is the same row.
   */
  function Transfer(balances: map<Account, Balance>, guild: GuildId, giver: UserId, receiver: UserId, amount: int)
    : (r: Result<map<Account, Balance>, LedgerError>)
    ensures r.Err? <==> GetOrCreate(balances, (guild, giver)).balance < amount
    ensures r.Err? ==> r.error == InsufficientBalance
    ensures r.Ok? ==> r.value.Keys == balances.Keys + {(guild, giver), (guild, receiver)}
    ensures r.Ok? ==> forall k :: k in balances && k != (guild, giver) && k != (guild, receiver) ==>
      r.value[k] == balances[k]
  {
    var g := GetOrCreate(balances, (guild, giver));
    if g.balance < amount then Err(InsufficientBalance)
    else Ok(Credit(Debit(balances, (guild, giver), amount), (guild, receiver), amount))
  }

  /** A transfer between two users moves exactly the amount: what one loses the other gains. */
  lemma TransferMovesAmount(balances: map<Account, Balance>, guild: GuildId, giver: UserId, receiver: UserId, amount: int)
    requires giver != receiver
    requires Transfer(balances, guild, giver, receiver, amount).Ok?
    ensures var r := Transfer(balances, guild, giver, receiver, amount).value;
      && r[(guild, giver)].balance == GetOrCreate(balances, (guild, giver)).balance - amount
      && r[(guild, receiver)].balance == GetOrCreate(balances, (guild, receiver)).balance + amount
      && r[(guild, giver)].balance + r[(guild, receiver)].balance ==
         GetOrCreate(balances, (guild, giver)).balance + GetOrCreate(balances, (guild, receiver)).balance
      && r[(guild, giver)].balance >= 0
  {
    var d := Debit(balances, (guild, giver), amount);
    assert GetOrCreate(d, (guild, receiver)) == GetOrCreate(balances, (guild, receiver));
  }

  /** A gift to oneself leaves the balance as it was but counts the amount as both sent and received. */
  lemma SelfTransferKeepsBalance(balances: map<Account, Balance>, guild: GuildId, user: UserId, amount: int)
    requires Transfer(balances, guild, user, user, amount).Ok?
    ensures var r := Transfer(balances, guild, user, user, amount).value;
      var b := GetOrCreate(balances, (guild, user));
      && r[(guild, user)].balance == b.balance
      && r[(guild, user)].totalSent == b.totalSent + amount
      && r[(guild, user)].totalReceived == b.totalReceived + amount
  {
  }

  /** create_system_charge on the balances: refused on a short balance, otherwise a debit. */
  function SystemCharge(balances: map<Account, Balance>, guild: GuildId, user: UserId, amount: int)
    : (r: Result<map<Account, Balance>, LedgerError>)
    ensures r.Err? <==> GetOrCreate(balances, (guild, user)).balance < amount
    ensures r.Ok? ==> r.value.Keys == balances.Keys + {(guild, user)}
    ensures r.Ok? ==> r.value[(guild, user)].balance == GetOrCreate(balances, (guild, user)).balance - amount
    ensures r.Ok? ==> r.value[(guild, user)].balance >= 0
  {
    if GetOrCreate(balances, (guild, user)).balance < amount then Err(InsufficientBalance)
    else Ok(Debit(balances, (guild, user), amount))
  }

  /** create_system_reward on the balances: never refused, a credit. */
  function SystemReward(balances: map<Account, Balance>, guild: GuildId, user: UserId, amount: int)
    : (r: map<Account, Balance>)
    ensures r.Keys == balances.Keys + {(guild, user)}
    ensures r[(guild, user)].balance == GetOrCreate(balances, (guild, user)).balance + amount
  {
    Credit(balances, (guild, user), amount)
  }

  /** The outcome of a daily claim: the new balances, the amount credited and the transaction reason. */
  datatype DailyOutcome = DailyOutcome(balances: map<Account, Balance>, reward: int, reason: Reason)

  /**
   * update_daily_reward on the balances: the row must already exist; the
   * reward is daily_amount · streak_bonus; the streak becomes the given
   * count or one more than before; the claim date defaults to today.
   */
  function DailyReward(balances: map<Account, Balance>, guild: GuildId, user: UserId, dailyAmount: int,
                       streakBonus: int, newStreakCount: Option<int>, claimDate: Option<int>, today: int,
                       isNewMember: bool)
    : (r: Result<DailyOutcome, LedgerError>)
    ensures r.Err? <==> (guild, user) !in balances
    ensures r.Ok? ==> r.value.balances.Keys == balances.Keys
    ensures r.Ok? ==>
      var old_ := balances[(guild, user)];
      var b := r.value.balances[(guild, user)];
      && r.value.reward == dailyAmount * streakBonus
      && b.balance == old_.balance + dailyAmount * streakBonus
      && b.totalReceived == old_.totalReceived + dailyAmount * streakBonus
      && b.totalSent == old_.totalSent
      && b.streakCount == (if newStreakCount.Some? then newStreakCount.value else old_.streakCount + 1)
      && b.lastDaily == Some(if claimDate.Some? then claimDate.value else today)
      && (forall k :: k in balances && k != (guild, user) ==> r.value.balances[k] == balances[k])
    ensures r.Ok? ==> (r.value.reason == NewMemberBonus <==> isNewMember)
  {
    if (guild, user) !in balances then Err(BalanceNotFound)
    else
      var b := balances[(guild, user)];
      var reward := dailyAmount * streakBonus;
      var streak := newStreakCount.GetOr(b.streakCount + 1);
      var reason :=
        if isNewMember then NewMemberBonus
        else if streakBonus > 1 then DailyWithMultiplier(streak, streakBonus)
        else Daily(streak);
      var updated := b.(balance := b.balance + reward, totalReceived := b.totalReceived + reward,
                        lastDaily := Some(claimDate.GetOr(today)), streakCount := streak);
      Ok(DailyOutcome(balances[(guild, user) := updated], reward, reason))
  }

  /** Every operation keeps each row's balance equal to received minus sent. */
  lemma {:induction false} OperationsKeepConsistent(balances: map<Account, Balance>, guild: GuildId, giver: UserId,
                                                    receiver: UserId, amount: int)
    requires Consistent(balances)
    ensures Transfer(balances, guild, giver, receiver, amount).Ok? ==>
      Consistent(Transfer(balances, guild, giver, receiver, amount).value)
    ensures SystemCharge(balances, guild, giver, amount).Ok? ==>
      Consistent(SystemCharge(balances, guild, giver, amount).value)
    ensures Consistent(SystemReward(balances, guild, receiver, amount))
  {
    var d := Debit(balances, (guild, giver), amount);
    assert Consistent(d) by {
      forall k | k in d ensures RowConsistent(d[k]) {
        if k != (guild, giver) {
          assert d[k] == balances[k];
        }
      }
    }
    var c := Credit(d, (guild, receiver), amount);
    assert Consistent(c) by {
      forall k | k in c ensures RowConsistent(c[k]) {
        if k != (guild, receiver) {
          assert c[k] == d[k];
        }
      }
    }
    var s := Credit(balances, (guild, receiver), amount);
    assert Consistent(s) by {
      forall k | k in s ensures RowConsistent(s[k]) {
        if k != (guild, receiver) {
          assert s[k] == balances[k];
        }
      }
    }
  }

  /** A daily claim keeps each row's balance equal to received minus sent. */
  lemma DailyKeepsConsistent(balances: map<Account, Balance>, guild: GuildId, user: UserId, dailyAmount: int,
                             streakBonus: int, newStreakCount: Option<int>, claimDate: Option<int>, today: int,
                             isNewMember: bool)
    requires Consistent(balances)
    ensures var r := DailyReward(balances, guild, user, dailyAmount, streakBonus, newStreakCount, claimDate, today, isNewMember);
      r.Ok? ==> Consistent(r.value.balances)
  {
  }

  /** With non-negative amounts no balance ever goes below zero. */
  lemma {:induction false} OperationsKeepNonNegative(balances: map<Account, Balance>, guild: GuildId, giver: UserId,
                                                     receiver: UserId, amount: int)
    requires NonNegative(balances) && amount >= 0
    ensures Transfer(balances, guild, giver, receiver, amount).Ok? ==>
      NonNegative(Transfer(balances, guild, giver, receiver, amount).value)
    ensures SystemCharge(balances, guild, giver, amount).Ok? ==>
      NonNegative(SystemCharge(balances, guild, giver, amount).value)
    ensures NonNegative(SystemReward(balances, guild, receiver, amount))
  {
    if GetOrCreate(balances, (guild, giver)).balance >= amount {
      var d := Debit(balances, (guild, giver), amount);
      assert NonNegative(d) by {
        forall k | k in d ensures d[k].balance >= 0 {
          if k != (guild, giver) {
            assert d[k] == balances[k];
          }
        }
      }
      var c := Credit(d, (guild, receiver), amount);
      assert NonNegative(c) by {
        forall k | k in c ensures c[k].balance >= 0 {
          if k != (guild, receiver) {
            assert c[k] == d[k];
          }
        }
      }
    }
    var s := Credit(balances, (guild, receiver), amount);
    assert NonNegative(s) by {
      forall k | k in s ensures s[k].balance >= 0 {
        if k != (guild, receiver) {
          assert s[k] == balances[k];
        }
      }
    }
  }

  /** The balances table and the transaction log. */
  class Ledger {
    var balances: map<Account, Balance>
    var transactions: seq<Transaction>

    ghost predicate Valid()
      reads this
    {
      Consistent(balances)
    }

    constructor ()
      ensures Valid() && balances == map[] && transactions == []
    {
      balances, transactions := map[], [];
    }

    /** get_balance: the stored row; a missing row is an error, not a fresh zero. */
    function GetBalance(guild: GuildId, user: UserId): (r: Result<Balance, LedgerError>)
      reads this
      ensures r.Ok? <==> (guild, user) in balances
      ensures r.Ok? ==> r.value == balances[(guild, user)]
    {
      if (guild, user) in balances then Ok(balances[(guild, user)]) else Err(BalanceNotFound)
    }

    /** create_transaction: both rows updated in place and one transaction recorded, or nothing on a short balance. */
    method CreateTransaction(guild: GuildId, giver: UserId, receiver: UserId, amount: int, reason: Option<string>)
      returns (r: Result<Transaction, LedgerError>)
      requires Valid()
      modifies this
      ensures Valid()
      ensures var spec := Transfer(old(balances), guild, giver, receiver, amount);
        && (spec.Err? ==> r == Err(spec.error) && balances == old(balances) && transactions == old(transactions))
        && (spec.Ok? ==>
              && balances == spec.value
              && r == Ok(Transaction(guild, giver, receiver, amount, Given(reason)))
              && transactions == old(transactions) + [r.value])
    {
      var giverRow := GetOrCreate(balances, (guild, giver));
      if giverRow.balance < amount {
        return Err(InsufficientBalance);
      }
      OperationsKeepConsistent(balances, guild, giver, receiver, amount);
      balances := Debit(balances, (guild, giver), amount);
      balances := Credit(balances, (guild, receiver), amount);
      var tx := Transaction(guild, giver, receiver, amount, Given(reason));
      transactions := transactions + [tx];
      r := Ok(tx);
    }

    /** create_system_charge: the user pays SYSTEM, or nothing happens on a short balance. */
    method CreateSystemCharge(guild: GuildId, user: UserId, amount: int, reason: string)
      returns (r: Result<Transaction, LedgerError>)
      requires Valid()
      modifies this
      ensures Valid()
      ensures var spec := SystemCharge(old(balances), guild, user, amount);
        && (spec.Err? ==> r == Err(spec.error) && balances == old(balances) && transactions == old(transactions))
        && (spec.Ok? ==>
              && balances == spec.value
              && r == Ok(Transaction(guild, user, SystemId, amount, Charge(reason)))
              && transactions == old(transactions) + [r.value])
    {
      var row := GetOrCreate(balances, (guild, user));
      if row.balance < amount {
        return Err(InsufficientBalance);
      }
      OperationsKeepConsistent(balances, guild, user, user, amount);
      balances := Debit(balances, (guild, user), amount);
      var tx := Transaction(guild, user, SystemId, amount, Charge(reason));
      transactions := transactions + [tx];
      r := Ok(tx);
    }

    /** create_system_reward: SYSTEM pays the user; never refused. */
    method CreateSystemReward(guild: GuildId, user: UserId, amount: int, reason: string)
      returns (tx: Transaction)
      requires Valid()
      modifies this
      ensures Valid()
      ensures balances == SystemReward(old(balances), guild, user, amount)
      ensures tx == Transaction(guild, SystemId, user, amount, Reward(reason))
      ensures transactions == old(transactions) + [tx]
    {
      OperationsKeepConsistent(balances, guild, user, user, amount);
      balances := Credit(balances, (guild, user), amount);
      tx := Transaction(guild, SystemId, user, amount, Reward(reason));
      transactions := transactions + [tx];
    }

    /** update_daily_reward: the existing row is credited and its streak and claim date set; one transaction recorded. */
    method UpdateDailyReward(guild: GuildId, user: UserId, dailyAmount: int, streakBonus: int,
                             newStreakCount: Option<int>, claimDate: Option<int>, today: int, isNewMember: bool)
      returns (r: Result<Balance, LedgerError>)
      requires Valid()
      modifies this
      ensures Valid()
      ensures var spec := DailyReward(old(balances), guild, user, dailyAmount, streakBonus, newStreakCount,
                                      claimDate, today, isNewMember);
        && (spec.Err? ==> r.Err? && balances == old(balances) && transactions == old(transactions))
        && (spec.Ok? ==>
              && balances == spec.value.balances && r == Ok(balances[(guild, user)])
              && transactions == old(transactions) +
                 [Transaction(guild, SystemId, user, spec.value.reward, spec.value.reason)])
    {
      var found := GetBalance(guild, user);
      if found.Err? {
        return Err(found.error);
      }
      ghost var spec := DailyReward(balances, guild, user, dailyAmount, streakBonus, newStreakCount,
                                    claimDate, today, isNewMember);
      DailyKeepsConsistent(balances, guild, user, dailyAmount, streakBonus, newStreakCount, claimDate, today, isNewMember);
      var b := found.value;
      var reward := dailyAmount * streakBonus;
      var finalStreak := if newStreakCount.Some? then newStreakCount.value else b.streakCount + 1;
      var reason;
      if isNewMember {
        reason := NewMemberBonus;
      } else if streakBonus > 1 {
        reason := DailyWithMultiplier(finalStreak, streakBonus);
      } else {
        reason := Daily(finalStreak);
      }
      var lastDaily := if claimDate.Some? then claimDate.value else today;
      balances := balances[(guild, user) := b.(balance := b.balance + reward, totalReceived := b.totalReceived + reward,
                                               lastDaily := Some(lastDaily), streakCount := finalStreak)];
      assert balances == spec.value.balances && reward == spec.value.reward && reason == spec.value.reason;
      transactions := transactions + [Transaction(guild, SystemId, user, reward, reason)];
      r := Ok(balances[(guild, user)]);
    }
  }
}
