/**
  `getRedeemedRewards` of the data layer: guards on the household id and on
  empty answers, the reward snapshot taken from the ledger row's join (with a
  placeholder when the join is missing), the profile snapshot with its fallback,
  and the final ordering by id, newest (largest) first.
  The three kinds of database reply are parameters; the clock read that stamps
  each entry is the parameter `now`.
 */
module Redeemed {
  import opened Common
  import opened Rewards

  /** The `rewards:reward_id (...)` join of a ledger row, as it can arrive. */
  datatype RewardJoin = JoinMissing | JoinObject(reward: Reward) | JoinArray(rows: seq<Reward>)

  /** A `redeemed_rewards` row with its join. */
  datatype LedgerJoinRow = LedgerJoinRow(id: string, rewardId: string, userId: string, rewards: RewardJoin)

  const InvalidHouseholdMessage := "Ogiltigt household_id"
  const UnknownRewardTitle := "Okänd belöning"
  const FallbackName := "Användare"
  const FallbackEmail := "användare@exempel.se"

  /** The reward object used when the join brought nothing back. */
  function Placeholder(rewardId: string, householdId: string): (r: Reward)
    ensures r.id == rewardId && r.householdId == householdId
    ensures r.title == UnknownRewardTitle && r.pointsCost == 0
  {
    Reward(rewardId, UnknownRewardTitle, "", 0, "", householdId)
  }

  // ---------------------------------------------------------------------------
  // The reward snapshot, as written and as intended

  /** What the as-written expression can yield: a reward object, or the empty array itself. */
  datatype RewardSlot = RewardObject(reward: Reward) | EmptyArray

  /**
    The expression as written: `Array.isArray(r) && r.length > 0 ? r[0] : (r || placeholder)`.
    An empty array is truthy in JavaScript, so `[] || placeholder` is `[]`.
   */
  function ResolveRewardAsWritten(join: RewardJoin, rewardId: string, householdId: string): (r: RewardSlot)
    ensures r == EmptyArray <==> join == JoinArray([])
  {
    match join
    case JoinArray(rows) =>
      if |rows| > 0 then RewardObject(rows[0]) else EmptyArray
    case JoinObject(reward) => RewardObject(reward)
    case JoinMissing => RewardObject(Placeholder(rewardId, householdId))
  }

  /** The input that shows the discrepancy: an empty join array is passed on instead of the placeholder. */
  lemma EmptyJoinKeptAsWritten(rewardId: string, householdId: string)
    ensures ResolveRewardAsWritten(JoinArray([]), rewardId, householdId) == EmptyArray
    ensures ResolveRewardAsWritten(JoinArray([]), rewardId, householdId) != RewardObject(Placeholder(rewardId, householdId))
  {
  }

  /** The intended snapshot: the first joined reward, the joined object, or else the placeholder. */
  function ResolveReward(join: RewardJoin, rewardId: string, householdId: string): (r: Reward)
    ensures join.JoinObject? ==> r == join.reward
    ensures join.JoinArray? && |join.rows| > 0 ==> r == join.rows[0]
    ensures join.JoinMissing? || join == JoinArray([]) ==> r == Placeholder(rewardId, householdId)
  {
    match join
    case JoinArray(rows) =>
      if |rows| > 0 then rows[0] else Placeholder(rewardId, householdId)
    case JoinObject(reward) => reward
    case JoinMissing => Placeholder(rewardId, householdId)
  }

  /** The two agree on every join except the empty array. */
  lemma ResolveRewardAgrees(join: RewardJoin, rewardId: string, householdId: string)
    ensures join != JoinArray([]) <==>
      ResolveRewardAsWritten(join, rewardId, householdId) == RewardObject(ResolveReward(join, rewardId, householdId))
  {
  }

  /** When no reward came back with the row, the snapshot still names the row's reward and the queried household. */
  lemma SnapshotNamesReward(join: RewardJoin, rewardId: string, householdId: string)
    requires join.JoinMissing? || (join.JoinArray? && |join.rows| == 0)
    ensures ResolveReward(join, rewardId, householdId).id == rewardId
    ensures ResolveReward(join, rewardId, householdId).householdId == householdId
  {
  }

  // ---------------------------------------------------------------------------
  // The profile snapshot

  /** The profile snapshot of the redeeming user; `profile` is the reply of `getUserProfile`. */
  function ProfileFor(userId: string, profile: Reply<ProfileSnapshot>): (p: ProfileSnapshot)
    ensures profile.Err? || profile.data.None? ==> p == ProfileSnapshot(userId, FallbackName, FallbackEmail, "")
    ensures profile.Ok? && profile.data.Some? ==> p == profile.data.value
  {
    if profile.Err? || profile.data.None? then ProfileSnapshot(userId, FallbackName, FallbackEmail, "")
    else profile.data.value
  }

  /** The entry built for one ledger row. */
  function Enhance(row: LedgerJoinRow, householdId: string, profileOf: string -> Reply<ProfileSnapshot>, now: string): (e: RedeemedReward)
    ensures e.id == row.id && e.rewardId == row.rewardId && e.userId == row.userId && e.createdAt == now
    ensures e.reward == ResolveReward(row.rewards, row.rewardId, householdId)
    ensures e.profile == ProfileFor(row.userId, profileOf(row.userId))
  {
    RedeemedReward(row.id, row.rewardId, row.userId, now,
                   ResolveReward(row.rewards, row.rewardId, householdId),
                   ProfileFor(row.userId, profileOf(row.userId)))
  }

  function EnhanceAll(rows: seq<LedgerJoinRow>, householdId: string, profileOf: string -> Reply<ProfileSnapshot>, now: string): (r: seq<RedeemedReward>)
    ensures |r| == |rows|
    ensures forall i :: 0 <= i < |rows| ==> r[i] == Enhance(rows[i], householdId, profileOf, now)
  {
    seq(|rows|, i requires 0 <= i < |rows| => Enhance(rows[i], householdId, profileOf, now))
  }

  // ---------------------------------------------------------------------------
  // Ordering by id, largest first

  /** String order by code points, standing in for `localeCompare`. */
  predicate IdLe(a: string, b: string)
  {
    if a == [] then true
    else if b == [] then false
    else if a[0] != b[0] then a[0] < b[0]
    else IdLe(a[1..], b[1..])
  }

  /** Any two ids are comparable. */
  lemma {:induction false} IdLeTotal(a: string, b: string)
    ensures IdLe(a, b) || IdLe(b, a)
  {
    if a != [] && b != [] && a[0] == b[0] {
      IdLeTotal(a[1..], b[1..]);
    }
  }

  lemma {:induction false} IdLeTrans(a: string, b: string, c: string)
    requires IdLe(a, b) && IdLe(b, c)
    ensures IdLe(a, c)
  {
    if a != [] && b != [] && c != [] && a[0] == b[0] && b[0] == c[0] {
      IdLeTrans(a[1..], b[1..], c[1..]);
    }
  }

  ghost predicate SortedDesc(s: seq<RedeemedReward>)
  {
    forall i, j :: 0 <= i < j < |s| ==> IdLe(s[j].id, s[i].id)
  }

  /** Inserts `x` in front of the first entry whose id is not larger. */
  function InsertDesc(x: RedeemedReward, s: seq<RedeemedReward>): (r: seq<RedeemedReward>)
    ensures multiset(r) == multiset(s) + multiset{x}
  {
    if s == [] then [x]
    else if IdLe(s[0].id, x.id) then [x] + s
    else
      assert s == [s[0]] + s[1..];
      [s[0]] + InsertDesc(x, s[1..])
  }

  /** Every entry of `r` has an id no larger than `top` when `r` holds only `x` and entries of `s`, all below `top`. */
  lemma BoundedByParts(r: seq<RedeemedReward>, s: seq<RedeemedReward>, x: RedeemedReward, top: string)
    requires multiset(r) == multiset(s) + multiset{x}
    requires IdLe(x.id, top)
    requires forall j :: 0 <= j < |s| ==> IdLe(s[j].id, top)
    ensures forall k :: 0 <= k < |r| ==> IdLe(r[k].id, top)
  {
    forall k | 0 <= k < |r| ensures IdLe(r[k].id, top) {
      assert r[k] in multiset(r);
      if r[k] != x {
        assert r[k] in multiset(s);
        var j :| 0 <= j < |s| && s[j] == r[k];
      }
    }
  }

  /** Insertion keeps the order. */
  lemma {:induction false} InsertDescSorted(x: RedeemedReward, s: seq<RedeemedReward>)
    requires SortedDesc(s)
    ensures SortedDesc(InsertDesc(x, s))
  {
    if s == [] {
    } else if IdLe(s[0].id, x.id) {
      forall j | 0 <= j < |s| ensures IdLe(s[j].id, x.id) {
        if j > 0 { IdLeTrans(s[j].id, s[0].id, x.id); }
      }
    } else {
      var rest := InsertDesc(x, s[1..]);
      InsertDescSorted(x, s[1..]);
      IdLeTotal(s[0].id, x.id);
      BoundedByParts(rest, s[1..], x, s[0].id);
      assert InsertDesc(x, s) == [s[0]] + rest;
    }
  }

  /** `sort((a, b) => b.id.localeCompare(a.id))`. */
  function SortByIdDesc(s: seq<RedeemedReward>): (r: seq<RedeemedReward>)
    ensures SortedDesc(r)
    ensures multiset(r) == multiset(s)
  {
    if s == [] then []
    else
      assert s == [s[0]] + s[1..];
      InsertDescSorted(s[0], SortByIdDesc(s[1..]));
      InsertDesc(s[0], SortByIdDesc(s[1..]))
  }

  // ---------------------------------------------------------------------------
  // getRedeemedRewards

  /**
    getRedeemedRewards. `rewardIds` is the reply of the household's reward ids,
    `ledger` the reply of the ledger query over those ids, and `profileOf` gives
    `getUserProfile`'s reply for a user id.
   */
  function GetRedeemedRewards(householdId: string, rewardIds: Reply<seq<string>>, ledger: Reply<seq<LedgerJoinRow>>,
                              profileOf: string -> Reply<ProfileSnapshot>, now: string): (r: Listing<RedeemedReward>)
    ensures householdId == "" ==> r == Listing([], Some(InvalidHouseholdMessage))
    ensures householdId != "" && rewardIds.Err? ==> r == Listing([], Some(rewardIds.message))
    ensures householdId != "" && rewardIds.Ok? && (rewardIds.data.None? || rewardIds.data.value == []) ==>
      r == Listing([], None)
    ensures householdId != "" && rewardIds.Ok? && rewardIds.data.Some? && rewardIds.data.value != [] && ledger.Err? ==>
      r == Listing([], Some(ledger.message))
    ensures householdId != "" && rewardIds.Ok? && rewardIds.data.Some? && rewardIds.data.value != [] && ledger.Ok? ==>
      && r.error == None
      && SortedDesc(r.data)
      && multiset(r.data) == (if ledger.data.Some? then multiset(EnhanceAll(ledger.data.value, householdId, profileOf, now))
                              else multiset{})
  {
    if householdId == "" then Listing([], Some(InvalidHouseholdMessage))
    else if rewardIds.Err? then Listing([], Some(rewardIds.message))
    else if rewardIds.data.None? || rewardIds.data.value == [] then Listing([], None)
    else if ledger.Err? then Listing([], Some(ledger.message))
    else if ledger.data.None? || ledger.data.value == [] then Listing([], None)
    else Listing(SortByIdDesc(EnhanceAll(ledger.data.value, householdId, profileOf, now)), None)
  }

  /** Every entry returned comes from one ledger row, carries a reward snapshot for that row's reward, and is stamped `now`. */
  lemma RedeemedEntriesFromRows(householdId: string, rewardIds: Reply<seq<string>>, rows: seq<LedgerJoinRow>,
                                profileOf: string -> Reply<ProfileSnapshot>, now: string)
    ensures forall e :: e in GetRedeemedRewards(householdId, rewardIds, Ok(Some(rows)), profileOf, now).data ==>
      e.createdAt == now &&
      exists i :: 0 <= i < |rows| && e == Enhance(rows[i], householdId, profileOf, now)
  {
    var r := GetRedeemedRewards(householdId, rewardIds, Ok(Some(rows)), profileOf, now);
    forall e | e in r.data
      ensures exists i :: 0 <= i < |rows| && e == Enhance(rows[i], householdId, profileOf, now)
    {
      var all := EnhanceAll(rows, householdId, profileOf, now);
      assert e in multiset(r.data);
      assert e in multiset(all);
      var i :| 0 <= i < |all| && all[i] == e;
    }
  }

  /** Every ledger row gives exactly one entry: the answer has as many entries as the ledger rows. */
  lemma RedeemedCountMatchesLedger(householdId: string, ids: seq<string>, rows: seq<LedgerJoinRow>,
                                   profileOf: string -> Reply<ProfileSnapshot>, now: string)
    requires householdId != "" && ids != []
    ensures |GetRedeemedRewards(householdId, Ok(Some(ids)), Ok(Some(rows)), profileOf, now).data| == |rows|
  {
    var r := GetRedeemedRewards(householdId, Ok(Some(ids)), Ok(Some(rows)), profileOf, now);
    assert |multiset(r.data)| == |multiset(EnhanceAll(rows, householdId, profileOf, now))|;
  }
}
