/**
  The rewards page: the leaderboard (top member, points total), redeeming a
  reward for a member, and creating a reward. The page keeps its state in React
  state cells that the handlers update, so it is a class; the remote database is
  not modelled; each remote write appears as a `Request` the handler returns, and
  each reply is a parameter.
 */
module Rewards {
  import opened Common

  datatype Member = Member(id: string, email: string, fullName: string, avatarUrl: string, points: int)

  datatype Reward = Reward(id: string, title: string, description: string, pointsCost: int, image: string, householdId: string)

  datatype ProfileSnapshot = ProfileSnapshot(id: string, fullName: string, email: string, avatarUrl: string)

  /** A ledger entry as the page lists it. */
  datatype RedeemedReward = RedeemedReward(
    id: string,
    rewardId: string,
    userId: string,
    createdAt: string,
    reward: Reward,
    profile: ProfileSnapshot)

  /** The row the ledger insert returns (`select('id, reward_id, user_id')`). */
  datatype LedgerRow = LedgerRow(id: string, rewardId: string, userId: string)

  /** The create-reward form. */
  datatype RewardForm = RewardForm(title: string, description: string, pointsCost: int, image: string)

  const DefaultRewardForm := RewardForm("", "", 100, "🎁")

  /** A remote write issued by a handler, in the order issued. */
  datatype Request =
    | DebitPoints(memberId: string, points: int)
    | InsertRedemption(rewardId: string, memberId: string)
    | InsertReward(title: string, description: string, pointsCost: int, image: string, householdId: string)

  // ---------------------------------------------------------------------------
  // Leaderboard

  /** `member.full_name || member.email || '-'`. */
  function MemberName(m: Member): (r: string)
    ensures r != ""
  {
    OrElse(m.fullName, OrElse(m.email, "-"))
  }

  /**
    Member `k` is the one the leaderboard shows: it has a score above the
    initial -1, no earlier member has as many points, and no later member has more.
   */
  ghost predicate IsTop(members: seq<Member>, k: int)
  {
    && 0 <= k < |members|
    && members[k].points > -1
    && (forall j :: 0 <= j < k ==> members[j].points < members[k].points)
    && (forall j :: k < j < |members| ==> members[j].points <= members[k].points)
  }

  /** At most one member is the top member. */
  lemma TopIsUnique(members: seq<Member>, k1: int, k2: int)
    requires IsTop(members, k1) && IsTop(members, k2)
    ensures k1 == k2
  {
  }

  /**
    getTopMemberName: a left-to-right scan keeping the first member with strictly
    more points than the best so far, starting from -1 points and the name '-'.
   */
  method TopMemberName(members: seq<Member>) returns (name: string)
    ensures (forall j :: 0 <= j < |members| ==> members[j].points <= -1) ==> name == "-"
    ensures (exists j :: 0 <= j < |members| && members[j].points > -1) ==>
      exists k :: IsTop(members, k) && name == MemberName(members[k])
  {
    if |members| == 0 {
      return "-";
    }
    var topPoints := -1;
    var topName := "-";
    ghost var k := -1;
    var i := 0;
    while i < |members|
      invariant 0 <= i <= |members|
      invariant -1 <= k < i
      invariant k == -1 ==> topPoints == -1 && topName == "-" && forall j :: 0 <= j < i ==> members[j].points <= -1
      invariant k >= 0 ==>
        && members[k].points > -1
        && topPoints == members[k].points
        && topName == MemberName(members[k])
        && (forall j :: 0 <= j < k ==> members[j].points < topPoints)
        && (forall j :: k < j < i ==> members[j].points <= topPoints)
    {
      var m := members[i];
      if m.points > topPoints {
        topPoints := m.points;
        topName := MemberName(m);
        k := i;
      }
      i := i + 1;
    }
    if k >= 0 {
      assert IsTop(members, k);
    }
    return topName;
  }

  /** The sum of all members' points. */
  function TotalPoints(members: seq<Member>): int
  {
    if members == [] then 0 else members[0].points + TotalPoints(members[1..])
  }

  /** The "Totala poäng" figure as written: `members.reduce((sum, m) => sum + m.points, acc)`, a left fold. */
  function ReducePoints(members: seq<Member>, acc: int): (r: int)
    ensures r == acc + TotalPoints(members)
  {
    if members == [] then acc else ReducePoints(members[1..], acc + members[0].points)
  }

  // ---------------------------------------------------------------------------
  // Redemption

  /** `members.find(m => m.id === id)`: the first member with the id. */
  function FindMember(members: seq<Member>, id: string): (r: Option<Member>)
    ensures r.None? <==> forall i :: 0 <= i < |members| ==> members[i].id != id
    ensures r.Some? ==> exists i :: (0 <= i < |members| && members[i] == r.value && members[i].id == id &&
      forall j :: 0 <= j < i ==> members[j].id != id)
  {
    if members == [] then None
    else if members[0].id == id then Some(members[0])
    else
      var r := FindMember(members[1..], id);
      if r.Some? then
        var i :| 0 <= i < |members[1..]| && members[1..][i] == r.value && members[1..][i].id == id &&
          forall j :: 0 <= j < i ==> members[1..][j].id != id;
        assert members[i + 1] == r.value;
        r
      else r
  }

  /**
    The redemption guard: a reward and a non-empty member id are selected, the
    member is in the list, and the member's points cover the cost. Returns the
    reward and the member when it passes.
   */
  function RedemptionGuard(members: seq<Member>, reward: Option<Reward>, memberId: Option<string>): (r: Option<(Reward, Member)>)
    ensures r.Some? <==>
      reward.Some? && memberId.Some? && memberId.value != "" &&
      FindMember(members, memberId.value).Some? &&
      FindMember(members, memberId.value).value.points >= reward.value.pointsCost
    ensures r.Some? ==> r.value.0 == reward.value && r.value.1.id == memberId.value && r.value.1 in members
    ensures r.Some? ==> r.value.1.points - r.value.0.pointsCost >= 0
  {
    if reward.None? || memberId.None? || memberId.value == "" then None
    else
      var m := FindMember(members, memberId.value);
      if m.None? || m.value.points < reward.value.pointsCost then None
      else Some((reward.value, m.value))
  }

  /** The local update after a redemption: `members.map(m => m.id === id ? {...m, points: m.points - cost} : m)`. */
  function DebitMember(members: seq<Member>, id: string, cost: int): (r: seq<Member>)
    ensures |r| == |members|
  {
    if members == [] then []
    else
      var head := if members[0].id == id then members[0].(points := members[0].points - cost) else members[0];
      [head] + DebitMember(members[1..], id, cost)
  }

  /** Only members with the id lose the cost; every other member, and every other field, is unchanged. */
  lemma {:induction false} DebitMemberSpec(members: seq<Member>, id: string, cost: int)
    ensures forall i :: 0 <= i < |members| && members[i].id == id ==>
      DebitMember(members, id, cost)[i] == members[i].(points := members[i].points - cost)
    ensures forall i :: 0 <= i < |members| && members[i].id != id ==>
      DebitMember(members, id, cost)[i] == members[i]
  {
    if members != [] {
      DebitMemberSpec(members[1..], id, cost);
    }
  }

  function Occurrences(members: seq<Member>, id: string): nat
  {
    if members == [] then 0 else (if members[0].id == id then 1 else 0) + Occurrences(members[1..], id)
  }

  /** The points total drops by the cost once for every member holding the id. */
  lemma {:induction false} DebitMemberTotal(members: seq<Member>, id: string, cost: int)
    ensures TotalPoints(DebitMember(members, id, cost)) == TotalPoints(members) - cost * Occurrences(members, id)
  {
    if members != [] {
      DebitMemberTotal(members[1..], id, cost);
    }
  }

  predicate UniqueIds(members: seq<Member>)
  {
    forall i, j :: 0 <= i < j < |members| ==> members[i].id != members[j].id
  }

  lemma {:induction false} OccursOnce(members: seq<Member>, id: string, i: int)
    requires UniqueIds(members)
    requires 0 <= i < |members| && members[i].id == id
    ensures Occurrences(members, id) == 1
  {
    if i == 0 {
      OccursNever(members[1..], id);
    } else {
      OccursOnce(members[1..], id, i - 1);
    }
  }

  lemma {:induction false} OccursNever(members: seq<Member>, id: string)
    requires forall i :: 0 <= i < |members| ==> members[i].id != id
    ensures Occurrences(members, id) == 0
  {
    if members != [] {
      OccursNever(members[1..], id);
    }
  }

  /**
    With member ids unique (they are primary keys), a guarded redemption takes
    exactly the cost off the points total and leaves the redeeming member with a
    non-negative balance.
   */
  lemma RedemptionDebit(members: seq<Member>, reward: Reward, memberId: string)
    requires UniqueIds(members)
    requires RedemptionGuard(members, Some(reward), Some(memberId)).Some?
    ensures TotalPoints(DebitMember(members, memberId, reward.pointsCost)) == TotalPoints(members) - reward.pointsCost
  {
    var m := RedemptionGuard(members, Some(reward), Some(memberId)).value.1;
    var i :| 0 <= i < |members| && members[i] == m;
    DebitMemberTotal(members, memberId, reward.pointsCost);
    OccursOnce(members, memberId, i);
  }

  /** After a guarded redemption the redeeming member's balance is not negative. */
  lemma RedemptionBalance(members: seq<Member>, reward: Reward, memberId: string, i: int)
    requires UniqueIds(members)
    requires RedemptionGuard(members, Some(reward), Some(memberId)).Some?
    requires 0 <= i < |members| && members[i].id == memberId
    ensures DebitMember(members, memberId, reward.pointsCost)[i].points >= 0
  {
    DebitMemberSpec(members, memberId, reward.pointsCost);
    FindUnique(members, memberId, i);
  }

  /** With unique ids, the member `find` returns is the one holding the id. */
  lemma FindUnique(members: seq<Member>, id: string, i: int)
    requires UniqueIds(members)
    requires 0 <= i < |members| && members[i].id == id
    ensures FindMember(members, id) == Some(members[i])
  {
    var r := FindMember(members, id);
    var k :| 0 <= k < |members| && members[k] == r.value && members[k].id == id;
    assert k == i;
  }

  /** The ledger entry prepended locally after a successful redemption. */
  function NewEntry(row: LedgerRow, reward: Reward, member: Member, now: string): (e: RedeemedReward)
    ensures e.id == row.id && e.rewardId == row.rewardId && e.userId == row.userId
    ensures e.reward == reward && e.createdAt == now
    ensures e.profile == ProfileSnapshot(member.id, member.fullName, member.email, member.avatarUrl)
  {
    RedeemedReward(row.id, row.rewardId, row.userId, now, reward,
                   ProfileSnapshot(member.id, member.fullName, member.email, member.avatarUrl))
  }

  const DebitErrorPrefix := "Fel vid uppdatering av poäng: "
  const InsertErrorPrefix := "Fel vid registrering av inlöst belöning: "
  const AddRewardErrorPrefix := "Fel vid tillägg av belöning: "
  /** Stands in for an insert error that carries no message. */
  const UnknownErrorMessage := "Okänt fel"

  predicate RewardFormValid(form: RewardForm, householdId: string)
  {
    form.title != "" && form.pointsCost != 0 && householdId != ""
  }

  class RewardsPage {
    var members: seq<Member>
    var rewards: seq<Reward>
    var redeemed: seq<RedeemedReward>
    var redeemedCount: int
    var error: Option<string>
    var isModalOpen: bool
    var isCreateModalOpen: bool
    var selectedReward: Option<Reward>
    var selectedMember: Option<string>
    var newReward: RewardForm

    constructor ()
      ensures members == [] && rewards == [] && redeemed == [] && redeemedCount == 0 && error == None
      ensures !isModalOpen && !isCreateModalOpen && selectedReward == None && selectedMember == None
      ensures newReward == DefaultRewardForm
    {
      members, rewards, redeemed, redeemedCount, error := [], [], [], 0, None;
      isModalOpen, isCreateModalOpen, selectedReward, selectedMember := false, false, None, None;
      newReward := DefaultRewardForm;
    }

    /**
      handleRedeemReward. `debitError` is the error of the points update (None on
      success) and `insert` the reply of the ledger insert; `now` stands for the
      clock read that stamps the new entry.
      The two writes are independent: a failed insert does not undo the debit.
     */
    method RedeemReward(debitError: Option<string>, insert: Reply<LedgerRow>, now: string) returns (requests: seq<Request>)
      modifies this
      ensures var g := RedemptionGuard(old(members), old(selectedReward), old(selectedMember));
        g.None? ==> requests == [] && unchanged(this)
      ensures var g := RedemptionGuard(old(members), old(selectedReward), old(selectedMember));
        g.Some? ==> (|requests| >= 1 &&
          requests[0] == DebitPoints(g.value.1.id, g.value.1.points - g.value.0.pointsCost))
      ensures var g := RedemptionGuard(old(members), old(selectedReward), old(selectedMember));
        g.Some? && debitError.Some? ==>
          && requests == [DebitPoints(g.value.1.id, g.value.1.points - g.value.0.pointsCost)]
          && error == Some(DebitErrorPrefix + debitError.value)
          && members == old(members) && redeemed == old(redeemed) && redeemedCount == old(redeemedCount)
          && isModalOpen == old(isModalOpen) && selectedReward == old(selectedReward) && selectedMember == old(selectedMember)
      ensures var g := RedemptionGuard(old(members), old(selectedReward), old(selectedMember));
        g.Some? && debitError.None? ==>
          requests == [DebitPoints(g.value.1.id, g.value.1.points - g.value.0.pointsCost),
                       InsertRedemption(g.value.0.id, g.value.1.id)]
      ensures var g := RedemptionGuard(old(members), old(selectedReward), old(selectedMember));
        g.Some? && debitError.None? && insert.Err? ==>
          && error == Some(InsertErrorPrefix + insert.message)
          && members == old(members) && redeemed == old(redeemed) && redeemedCount == old(redeemedCount)
          && isModalOpen == old(isModalOpen) && selectedReward == old(selectedReward) && selectedMember == old(selectedMember)
      ensures var g := RedemptionGuard(old(members), old(selectedReward), old(selectedMember));
        g.Some? && debitError.None? && insert.Ok? ==>
          && members == DebitMember(old(members), g.value.1.id, g.value.0.pointsCost)
          && redeemedCount == old(redeemedCount) + 1
          && redeemed == (if insert.data.Some? then [NewEntry(insert.data.value, g.value.0, g.value.1, now)] + old(redeemed)
                          else old(redeemed))
          && error == old(error)
          && !isModalOpen && selectedReward == None && selectedMember == None
      ensures rewards == old(rewards) && newReward == old(newReward) && isCreateModalOpen == old(isCreateModalOpen)
    {
      requests := [];
      var guard := RedemptionGuard(members, selectedReward, selectedMember);
      if guard.None? {
        return;
      }
      var (reward, member) := guard.value;
      var memberId := member.id;

      requests := [DebitPoints(memberId, member.points - reward.pointsCost)];
      if debitError.Some? {
        error := Some(DebitErrorPrefix + debitError.value);
        return;
      }

      requests := requests + [InsertRedemption(reward.id, memberId)];
      if insert.Err? {
        error := Some(InsertErrorPrefix + insert.message);
        return;
      }

      var entry := if insert.data.Some? then Some(NewEntry(insert.data.value, reward, member, now)) else None;
      CompleteRedemption(memberId, reward.pointsCost, entry);
    }

    /**
      The local update once both writes succeeded: the member is debited, the
      count goes up, the new entry (when the insert returned one) goes first in the
      list, and the modal closes with its selection cleared.
     */
    method CompleteRedemption(memberId: string, cost: int, entry: Option<RedeemedReward>)
      modifies this
      ensures members == DebitMember(old(members), memberId, cost) && redeemedCount == old(redeemedCount) + 1
      ensures redeemed == (if entry.Some? then [entry.value] + old(redeemed) else old(redeemed))
      ensures !isModalOpen && selectedReward == None && selectedMember == None
      ensures rewards == old(rewards) && newReward == old(newReward) && isCreateModalOpen == old(isCreateModalOpen)
      ensures error == old(error)
    {
      members := DebitMember(members, memberId, cost);
      redeemedCount := redeemedCount + 1;
      if entry.Some? {
        redeemed := [entry.value] + redeemed;
      }
      isModalOpen := false;
      selectedReward := None;
      selectedMember := None;
    }

    /**
      handleAddReward. Refused without a title, with a zero cost or without a
      household; otherwise the reward is inserted and, when the insert returns it,
      appended to the list. `householdId` is the profile's household id ("" when absent).
     */
    method AddReward(householdId: string, insert: Reply<Reward>) returns (requests: seq<Request>)
      modifies this
      ensures !RewardFormValid(old(newReward), householdId) ==> requests == [] && unchanged(this)
      ensures RewardFormValid(old(newReward), householdId) ==>
        requests == [InsertReward(old(newReward).title, old(newReward).description, old(newReward).pointsCost,
                                  old(newReward).image, householdId)]
      ensures RewardFormValid(old(newReward), householdId) && insert.Err? ==>
        error == Some(AddRewardErrorPrefix + OrElse(insert.message, UnknownErrorMessage)) && rewards == old(rewards) &&
        isCreateModalOpen == old(isCreateModalOpen) && newReward == old(newReward)
      ensures RewardFormValid(old(newReward), householdId) && insert.Ok? ==>
        rewards == (if insert.data.Some? then old(rewards) + [insert.data.value] else old(rewards)) &&
        error == old(error) && !isCreateModalOpen && newReward == DefaultRewardForm
      ensures members == old(members) && redeemed == old(redeemed) && redeemedCount == old(redeemedCount)
      ensures isModalOpen == old(isModalOpen) && selectedReward == old(selectedReward) && selectedMember == old(selectedMember)
    {
      if !RewardFormValid(newReward, householdId) {
        return [];
      }
      requests := [InsertReward(newReward.title, newReward.description, newReward.pointsCost, newReward.image, householdId)];
      if insert.Err? {
        error := Some(AddRewardErrorPrefix + OrElse(insert.message, UnknownErrorMessage));
        return;
      }
      if insert.data.Some? {
        rewards := rewards + [insert.data.value];
      }
      isCreateModalOpen := false;
      newReward := DefaultRewardForm;
    }
  }
}
