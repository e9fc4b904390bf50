/**
 * The database storage layer's game economy: spike balances and their
 * transaction ledger, the daily login streak, achievements, referrals,
 * clubs and the list of a user's groups.  Each table is a map (or, where
 * the source reads rows back in table order, a sequence) inside `Store`;
 * a thrown error that rolls back the surrounding database transaction is
 * an `Err` result with the tables left as they were.
 */
module Storage {
  import opened Common

  datatype StoreError = UserNotFound | AchievementNotFound | ReferralNotFound | ReferrerNotFound

  /** A row of the spike-transaction table: the signed amount and the balance after it. */
  datatype Transaction = Transaction(userId: nat, amount: int, balance: int, source: string, sourceId: Option<nat>)

  /** A login-streak row; `lastLoginDay` counts whole days (local midnight). */
  datatype Streak = Streak(currentStreak: int, longestStreak: int, lastLoginDay: Option<int>)

  datatype Achievement = Achievement(isOneTime: bool, requirementValue: int, spikeReward: int)

  datatype UserAchievement = UserAchievement(isCompleted: bool, progress: int, timesEarned: int,
                                             completionDay: int, lastEarnedDay: int)

  datatype Referral = Referral(referrerId: nat, status: string, spikesAwarded: bool, completedDay: Option<int>)

  datatype Club = Club(name: string, ownerId: nat)

  datatype ClubMember = ClubMember(clubId: nat, userId: nat, role: string, joinedDay: int)

  datatype Group = Group(id: nat, name: string, ownerId: nat)

  datatype GroupMembership = GroupMembership(groupId: nat, userId: nat)

  // ------------------------------------------------------------ login streak

  /** What a login does to the streak: nothing on a second login the same day, else a new row and a reward. */
  datatype StreakOutcome = SameDay | Updated(streak: Streak, award: int)

  /** Spikes for reaching day `n` of a streak: weekly milestones first, then monthly ones. */
  function MilestoneReward(n: int): int
  {
    if n % 7 == 0 then 25 else if n % 30 == 0 then 100 else 5
  }

  /** The branch selection of `createOrUpdateLoginStreak` for a login on day `today`. */
  function LoginOutcome(existing: Option<Streak>, today: int): StreakOutcome
  {
    match existing
    case None => Updated(Streak(1, 1, Some(today)), 5)
    case Some(s) =>
      match s.lastLoginDay
      case None => Updated(Streak(1, Max(s.longestStreak, 1), Some(today)), 5)
      case Some(last) =>
        if last == today then SameDay
        else if last == today - 1 then
          var n := s.currentStreak + 1;
          Updated(Streak(n, Max(s.longestStreak, n), Some(today)), MilestoneReward(n))
        else Updated(Streak(1, s.longestStreak, Some(today)), 5)
  }

  /** A user's first login starts a one-day streak worth 5 spikes. */
  lemma FirstLogin(today: int)
    ensures LoginOutcome(None, today) == Updated(Streak(1, 1, Some(today)), 5)
  {
  }

  /** A second login on the same day changes nothing and awards nothing. */
  lemma SameDayLogin(s: Streak, today: int)
    requires s.lastLoginDay == Some(today)
    ensures LoginOutcome(Some(s), today) == SameDay
  {
  }

  /** Logging in the day after the last login continues the streak. */
  lemma ContinuedStreak(s: Streak, today: int)
    requires s.lastLoginDay == Some(today - 1)
    ensures LoginOutcome(Some(s), today).Updated?
    ensures LoginOutcome(Some(s), today).streak.currentStreak == s.currentStreak + 1
    ensures LoginOutcome(Some(s), today).streak.longestStreak == Max(s.longestStreak, s.currentStreak + 1)
    ensures LoginOutcome(Some(s), today).award == MilestoneReward(s.currentStreak + 1)
  {
  }

  /** Weekly milestones pay 25, other monthly ones 100, every other day 5. */
  lemma MilestoneAmounts(n: int)
    ensures n % 7 == 0 ==> MilestoneReward(n) == 25
    ensures n % 7 != 0 && n % 30 == 0 ==> MilestoneReward(n) == 100
    ensures n % 7 != 0 && n % 30 != 0 ==> MilestoneReward(n) == 5
    ensures MilestoneReward(210) == 25
  {
  }

  /** A gap of more than a day resets the streak to 1 but keeps the record. */
  lemma BrokenStreak(s: Streak, last: int, today: int)
    requires s.lastLoginDay == Some(last) && last != today && last != today - 1
    ensures LoginOutcome(Some(s), today) == Updated(Streak(1, s.longestStreak, Some(today)), 5)
  {
  }

  /** A sensible streak row: the current run is at least one day and never above the record. */
  predicate GoodStreak(s: Streak)
  {
    1 <= s.currentStreak <= s.longestStreak
  }

  /**
   * Any login that changes the row records today, pays a positive reward,
   * keeps the current run within the record and never lowers the record; a
   * repeat login the same day is then a no-op.
   */
  lemma LoginKeepsStreakGood(existing: Option<Streak>, today: int)
    requires existing.Some? ==> GoodStreak(existing.value)
    ensures LoginOutcome(existing, today).Updated? ==>
              var o := LoginOutcome(existing, today);
              GoodStreak(o.streak) && o.streak.lastLoginDay == Some(today) && o.award > 0
              && (existing.Some? ==> o.streak.longestStreak >= existing.value.longestStreak)
              && LoginOutcome(Some(o.streak), today) == SameDay
  {
  }

  // ------------------------------------------------------------ achievements

  /** The row after completing `ach`, or `None` when a one-time achievement is already done. */
  function NextAchievement(ach: Achievement, existing: Option<UserAchievement>, today: int): Option<UserAchievement>
  {
    match existing
    case Some(ua) =>
      if ach.isOneTime && ua.isCompleted then None
      else Some(ua.(isCompleted := true, completionDay := today, timesEarned := ua.timesEarned + 1,
                    lastEarnedDay := today))
    case None => Some(UserAchievement(true, ach.requirementValue, 1, today, today))
  }

  /**
   * Completing marks the row completed (a new row starts at one completion
   * with full progress, an existing one counts one more), and a one-time
   * achievement cannot be earned a second time.
   */
  lemma AchievementCompletion(ach: Achievement, existing: Option<UserAchievement>, today: int, later: int)
    ensures existing.None? ==>
              NextAchievement(ach, existing, today) == Some(UserAchievement(true, ach.requirementValue, 1, today, today))
    ensures existing.Some? && !(ach.isOneTime && existing.value.isCompleted) ==>
              var ua := NextAchievement(ach, existing, today);
              ua.Some? && ua.value.isCompleted && ua.value.timesEarned == existing.value.timesEarned + 1
              && ua.value.progress == existing.value.progress
    ensures ach.isOneTime && NextAchievement(ach, existing, today).Some? ==>
              NextAchievement(ach, NextAchievement(ach, existing, today), later).None?
  {
  }

  // --------------------------------------------------------------- referrals

  /** A referral that has been both completed and paid is never paid again. */
  predicate ReferralSettled(r: Referral)
  {
    r.status == "completed" && r.spikesAwarded
  }

  const ReferralBonus := 100

  // ------------------------------------------------------------------ ledger

  /** The balance recorded by the last transaction of user `u`, if any. */
  function LastBalance(txs: seq<Transaction>, u: nat): Option<int>
  {
    if txs == [] then None
    else if txs[|txs| - 1].userId == u then Some(txs[|txs| - 1].balance)
    else LastBalance(txs[..|txs| - 1], u)
  }

  lemma LastBalanceAppend(txs: seq<Transaction>, t: Transaction, u: nat)
    ensures LastBalance(txs + [t], u) == if t.userId == u then Some(t.balance) else LastBalance(txs, u)
  {
    assert (txs + [t])[..|txs|] == txs;
  }

  // ------------------------------------------------------------------- store

  class Store {
    var spikes: map<nat, int>
    var transactions: seq<Transaction>
    var streaks: map<nat, Streak>
    var achievements: map<nat, Achievement>
    var userAchievements: map<(nat, nat), UserAchievement>
    var referrals: map<nat, Referral>
    var clubs: map<nat, Club>
    var clubMembers: seq<ClubMember>
    var nextClubId: nat
    var groups: seq<Group>
    var groupMembers: seq<GroupMembership>

    /** No balance is negative, and every club id lies below the next one to hand out. */
    predicate Valid()
      reads this
    {
      (forall u :: u in spikes ==> spikes[u] >= 0)
      && (forall k :: k in clubs ==> k < nextClubId)
    }

    /** Every user's last ledger entry records their current balance. */
    predicate LedgerAgrees()
      reads this
    {
      forall u :: u in spikes ==> LastBalance(transactions, u).None? || LastBalance(transactions, u) == Some(spikes[u])
    }

    constructor ()
      ensures Valid() && LedgerAgrees()
      ensures spikes == map[] && transactions == [] && streaks == map[] && achievements == map[]
      ensures userAchievements == map[] && referrals == map[] && clubs == map[] && clubMembers == []
      ensures groups == [] && groupMembers == []
    {
      spikes, transactions, streaks, achievements := map[], [], map[], map[];
      userAchievements, referrals, clubs, clubMembers := map[], map[], map[], [];
      nextClubId, groups, groupMembers := 1, [], [];
    }

    /** Sets the balance of `u` to `b` and records the entry; used by every credit and debit. */
    method Post(u: nat, amount: int, b: int, source: string, sourceId: Option<nat>) returns (t: Transaction)
      requires u in spikes
      modifies this`spikes, this`transactions
      ensures t == Transaction(u, amount, b, source, sourceId)
      ensures spikes == old(spikes)[u := b] && transactions == old(transactions) + [t]
      ensures old(LedgerAgrees()) ==> LedgerAgrees()
      ensures old(Valid()) && b >= 0 ==> Valid()
    {
      t := Transaction(u, amount, b, source, sourceId);
      ghost var before := transactions;
      spikes := spikes[u := b];
      transactions := transactions + [t];
      forall v | v in spikes
        ensures LastBalance(transactions, v) == if v == u then Some(b) else LastBalance(before, v)
      {
        LastBalanceAppend(before, t, v);
      }
    }

    /** `addSpikesToUser`: credits `amount` and records the new balance. */
    method AddSpikesToUser(u: nat, amount: int, source: string, sourceId: Option<nat>)
      returns (r: Result<Transaction, StoreError>)
      modifies this`spikes, this`transactions
      ensures u !in old(spikes) ==> r == Err(UserNotFound) && spikes == old(spikes) && transactions == old(transactions)
      ensures u in old(spikes) ==>
                var b := old(spikes)[u] + amount;
                r == Ok(Transaction(u, amount, b, source, sourceId))
                && spikes == old(spikes)[u := b] && transactions == old(transactions) + [r.value]
      ensures old(LedgerAgrees()) ==> LedgerAgrees()
      ensures old(Valid()) && amount >= 0 ==> Valid()
    {
      if u !in spikes {
        return Err(UserNotFound);
      }
      var t := Post(u, amount, spikes[u] + amount, source, sourceId);
      r := Ok(t);
    }

    /** `deductSpikesFromUser`: refuses an overdraft, otherwise debits and records `-amount`. */
    method DeductSpikesFromUser(u: nat, amount: int, source: string, sourceId: Option<nat>)
      returns (r: Result<Option<Transaction>, StoreError>)
      modifies this`spikes, this`transactions
      ensures u !in old(spikes) ==> r == Err(UserNotFound)
      ensures u in old(spikes) && old(spikes)[u] < amount ==> r == Ok(None)
      ensures r.Err? || r.value.None? ==> spikes == old(spikes) && transactions == old(transactions)
      ensures u in old(spikes) && old(spikes)[u] >= amount ==>
                var b := old(spikes)[u] - amount;
                r == Ok(Some(Transaction(u, -amount, b, source, sourceId)))
                && spikes == old(spikes)[u := b] && transactions == old(transactions) + [r.value.value]
      ensures old(LedgerAgrees()) ==> LedgerAgrees()
      ensures old(Valid()) ==> Valid()
    {
      if u !in spikes {
        return Err(UserNotFound);
      }
      if spikes[u] < amount {
        return Ok(None);
      }
      var t := Post(u, -amount, spikes[u] - amount, source, sourceId);
      r := Ok(Some(t));
    }

    /** The streak row of `u`, if there is one. */
    function StreakOf(u: nat): Option<Streak>
      reads this
    {
      if u in streaks then Some(streaks[u]) else None
    }

    /**
     * `createOrUpdateLoginStreak` for a login on day `today`.  The streak
     * table holds one row per user, so a row is identified here by its user
     * key: the ledger entry's `sourceId` (`streak.id`) is that key, and the
     * row's serial id is not modelled.
     */
    method CreateOrUpdateLoginStreak(u: nat, today: int) returns (r: Result<Streak, StoreError>)
      modifies this`streaks, this`spikes, this`transactions
      ensures u !in old(spikes) ==>
                r == Err(UserNotFound) && unchanged(this`streaks, this`spikes, this`transactions)
      ensures u in old(spikes) && LoginOutcome(old(StreakOf(u)), today).SameDay? ==>
                r == Ok(old(streaks)[u]) && unchanged(this`streaks, this`spikes, this`transactions)
      ensures u in old(spikes) && LoginOutcome(old(StreakOf(u)), today).Updated? ==>
                var o := LoginOutcome(old(StreakOf(u)), today);
                var b := old(spikes)[u] + o.award;
                r == Ok(o.streak) && streaks == old(streaks)[u := o.streak] && spikes == old(spikes)[u := b]
                && transactions == old(transactions) + [Transaction(u, o.award, b, "login_streak", Some(u))]
      ensures old(LedgerAgrees()) ==> LedgerAgrees()
      ensures old(Valid()) ==> Valid()
    {
      if u !in spikes {
        return Err(UserNotFound);
      }
      var existing := StreakOf(u);
      var o := LoginOutcome(existing, today);
      if o.SameDay? {
        return Ok(streaks[u]);
      }
      streaks := streaks[u := o.streak];
      var t := Post(u, o.award, spikes[u] + o.award, "login_streak", Some(u));
      r := Ok(o.streak);
    }

    /** `completeUserAchievement` with `_awardSpikesForAchievement`, in one database transaction. */
    method CompleteUserAchievement(u: nat, achievementId: nat, today: int) returns (r: Result<UserAchievement, StoreError>)
      modifies this`userAchievements, this`spikes, this`transactions
      ensures achievementId !in old(achievements) ==> r == Err(AchievementNotFound)
      ensures r.Err? ==> unchanged(this`userAchievements, this`spikes, this`transactions)
      ensures achievementId in achievements ==>
                var ach := achievements[achievementId];
                var existing := if (u, achievementId) in old(userAchievements)
                                then Some(old(userAchievements)[(u, achievementId)]) else None;
                match NextAchievement(ach, existing, today)
                case None =>
                  r == Ok(existing.value) && unchanged(this`userAchievements, this`spikes, this`transactions)
                case Some(ua) =>
                  if u !in old(spikes) then r == Err(UserNotFound)
                  else
                    var b := old(spikes)[u] + ach.spikeReward;
                    r == Ok(ua) && userAchievements == old(userAchievements)[(u, achievementId) := ua]
                    && spikes == old(spikes)[u := b]
                    && transactions == old(transactions) + [Transaction(u, ach.spikeReward, b, "achievement", Some(achievementId))]
      ensures old(LedgerAgrees()) ==> LedgerAgrees()
      ensures old(Valid()) && (achievementId in achievements ==> achievements[achievementId].spikeReward >= 0) ==> Valid()
    {
      if achievementId !in achievements {
        return Err(AchievementNotFound);
      }
      var ach := achievements[achievementId];
      var existing := if (u, achievementId) in userAchievements then Some(userAchievements[(u, achievementId)]) else None;
      var next := NextAchievement(ach, existing, today);
      if next.None? {
        return Ok(existing.value);
      }
      if u !in spikes {
        return Err(UserNotFound);
      }
      userAchievements := userAchievements[(u, achievementId) := next.value];
      var t := Post(u, ach.spikeReward, spikes[u] + ach.spikeReward, "achievement", Some(achievementId));
      r := Ok(next.value);
    }

    /** `completeReferral`: pays the referrer 100 spikes once and marks the referral completed. */
    method CompleteReferral(id: nat, today: int) returns (r: Result<Referral, StoreError>)
      modifies this`referrals, this`spikes, this`transactions
      ensures id !in old(referrals) ==> r == Err(ReferralNotFound)
      ensures r.Err? ==> unchanged(this`referrals, this`spikes, this`transactions)
      ensures id in old(referrals) && ReferralSettled(old(referrals)[id]) ==>
                r == Ok(old(referrals)[id]) && unchanged(this`referrals, this`spikes, this`transactions)
      ensures id in old(referrals) && !ReferralSettled(old(referrals)[id]) ==>
                var ref := old(referrals)[id];
                if ref.referrerId !in old(spikes) then r == Err(ReferrerNotFound)
                else
                  var b := old(spikes)[ref.referrerId] + ReferralBonus;
                  var done := ref.(status := "completed", spikesAwarded := true, completedDay := Some(today));
                  r == Ok(done) && ReferralSettled(done) && referrals == old(referrals)[id := done]
                  && spikes == old(spikes)[ref.referrerId := b]
                  && transactions == old(transactions) + [Transaction(ref.referrerId, ReferralBonus, b, "referral", Some(id))]
      ensures old(LedgerAgrees()) ==> LedgerAgrees()
      ensures old(Valid()) ==> Valid()
    {
      if id !in referrals {
        return Err(ReferralNotFound);
      }
      var ref := referrals[id];
      if ReferralSettled(ref) {
        return Ok(ref);
      }
      if ref.referrerId !in spikes {
        return Err(ReferrerNotFound);
      }
      var t := Post(ref.referrerId, ReferralBonus, spikes[ref.referrerId] + ReferralBonus, "referral", Some(id));
      var done := ref.(status := "completed", spikesAwarded := true, completedDay := Some(today));
      referrals := referrals[id := done];
      r := Ok(done);
    }

    /** `createClub`: stores the club under a fresh id and enrols its owner as admin. */
    method CreateClub(c: Club, today: int) returns (id: nat)
      requires Valid()
      modifies this`clubs, this`clubMembers, this`nextClubId
      ensures Valid()
      ensures id !in old(clubs) && clubs == old(clubs)[id := c]
      ensures clubMembers == old(clubMembers) + [ClubMember(id, c.ownerId, "admin", today)]
    {
      id := nextClubId;
      clubs := clubs[id := c];
      clubMembers := clubMembers + [ClubMember(id, c.ownerId, "admin", today)];
      nextClubId := id + 1;
    }

    /** Groups in which `u` has a membership row, in table order. */
    function MemberGroups(u: nat): seq<Group>
      reads this
    {
      var members := groupMembers;
      Filter(groups, (g: Group) => exists m :: m in members && m.userId == u && m.groupId == g.id)
    }

    /** Groups owned by `u`, in table order. */
    function OwnedGroups(u: nat): seq<Group>
      reads this
    {
      Filter(groups, (g: Group) => g.ownerId == u)
    }

    /** `getUserGroups`: the member groups, then each owned group whose id is not listed yet. */
    method GetUserGroups(u: nat) returns (all: seq<Group>)
      ensures all == AppendNewBy(MemberGroups(u), OwnedGroups(u), GroupId)
    {
      var owned := OwnedGroups(u);
      all := MemberGroups(u);
      var i := 0;
      while i < |owned|
        invariant 0 <= i <= |owned|
        invariant AppendNewBy(MemberGroups(u), owned, GroupId) == AppendNewBy(all, owned[i..], GroupId)
      {
        assert owned[i..][1..] == owned[i + 1..];
        var present := HasGroupId(all, owned[i].id);
        if !present {
          all := all + [owned[i]];
        }
        i := i + 1;
      }
    }
  }

  function GroupId(g: Group): nat
  {
    g.id
  }

  /** `groups.some(g => g.id === id)`. */
  method HasGroupId(groups: seq<Group>, id: nat) returns (present: bool)
    ensures present <==> HasKey(groups, GroupId, id)
  {
    present := false;
    var j := 0;
    while j < |groups|
      invariant 0 <= j <= |groups|
      invariant present <==> exists k :: 0 <= k < j && groups[k].id == id
    {
      if groups[j].id == id {
        present := true;
      }
      j := j + 1;
    }
  }

  /**
   * The groups listed for a user are exactly those they belong to or own:
   * each comes from one of the two lists, every group of either list is
   * represented by its id, and no id is listed twice when the member list
   * has none twice.
   */
  lemma UserGroupsCorrect(memberGroups: seq<Group>, ownedGroups: seq<Group>)
    ensures var all := AppendNewBy(memberGroups, ownedGroups, GroupId);
              (forall i :: 0 <= i < |all| ==> all[i] in memberGroups || all[i] in ownedGroups)
              && (forall j :: 0 <= j < |ownedGroups| ==> HasKey(all, GroupId, ownedGroups[j].id))
              && (forall j :: 0 <= j < |memberGroups| ==> all[j] == memberGroups[j])
              && (KeysUnique(memberGroups, GroupId) ==> KeysUnique(all, GroupId))
  {
    AppendNewByFrom(memberGroups, ownedGroups, GroupId);
    AppendNewByCovers(memberGroups, ownedGroups, GroupId);
    var all := AppendNewBy(memberGroups, ownedGroups, GroupId);
    forall j | 0 <= j < |memberGroups| ensures all[j] == memberGroups[j] {
      assert all[..|memberGroups|][j] == all[j];
    }
    if KeysUnique(memberGroups, GroupId) {
      AppendNewByUnique(memberGroups, ownedGroups, GroupId);
    }
  }
}
