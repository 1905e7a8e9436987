/**
 * The store of monthly goals: one list of `MemberGoal` under a single
 * storage key, upserted by (member, month), and merged with goals that
 * arrive from the remote database.
 */
module GoalStorage {
  import opened Wrappers
  import opened Seqs
  import opened Goals

  predicate SameKey(g: MemberGoal, memberId: string, month: string)
  {
    g.memberId == memberId && g.month == month
  }

  /** `findIndex`: the first goal with the key, or -1. */
  function FindGoalIndex(goals: seq<MemberGoal>, memberId: string, month: string): (i: int)
    ensures -1 <= i < |goals|
    ensures i == -1 <==> forall k :: 0 <= k < |goals| ==> !SameKey(goals[k], memberId, month)
    ensures i >= 0 ==> SameKey(goals[i], memberId, month) &&
                       forall k :: 0 <= k < i ==> !SameKey(goals[k], memberId, month)
  {
    if goals == [] then -1
    else if SameKey(goals[0], memberId, month) then 0
    else
      var j := FindGoalIndex(goals[1..], memberId, month);
      if j == -1 then -1 else j + 1
  }

  /** `find(...) || null`. */
  function FindGoal(goals: seq<MemberGoal>, memberId: string, month: string): (r: Option<MemberGoal>)
    ensures r.None? <==> forall k :: 0 <= k < |goals| ==> !SameKey(goals[k], memberId, month)
    ensures r.Some? ==> r.value == goals[FindGoalIndex(goals, memberId, month)]
  {
    var i := FindGoalIndex(goals, memberId, month);
    if i >= 0 then Some(goals[i]) else None
  }

  /** Put `g` in place of the first goal with the key, or append it. */
  function Upsert(goals: seq<MemberGoal>, memberId: string, month: string, g: MemberGoal): (r: seq<MemberGoal>)
    ensures g in r
    ensures |r| == |goals| || |r| == |goals| + 1
    ensures |r| == |goals| + 1 <==> forall k :: 0 <= k < |goals| ==> !SameKey(goals[k], memberId, month)
    ensures forall k :: 0 <= k < |goals| && !SameKey(goals[k], memberId, month) ==> r[k] == goals[k]
  {
    var i := FindGoalIndex(goals, memberId, month);
    if i >= 0 then
      var r := goals[i := g];
      assert r[i] == g;
      r
    else goals + [g]
  }

  /** The list after `saveMemberGoal(goal)` at time `now`. */
  function SavedGoals(goals: seq<MemberGoal>, goal: MemberGoal, now: string): (r: seq<MemberGoal>)
    ensures |r| == |goals| || |r| == |goals| + 1
    ensures |r| == |goals| + 1 <==> forall k :: 0 <= k < |goals| ==> !SameKey(goals[k], goal.memberId, goal.month)
    ensures forall k :: 0 <= k < |goals| && !SameKey(goals[k], goal.memberId, goal.month) ==> r[k] == goals[k]
    ensures forall k :: 0 <= k < |r| ==>
      r[k] in goals ||
      (r[k].updatedAt == Some(now) && SameKey(r[k], goal.memberId, goal.month) && r[k].activityTargets == goal.activityTargets)
  {
    var stamped := goal.(updatedAt := Some(now));
    var i := FindGoalIndex(goals, goal.memberId, goal.month);
    if i >= 0 then goals[i := stamped] else goals + [stamped.(createdAt := Some(now))]
  }

  /** The remote goals merged one after the other, each by its own key. */
  function MergedGoals(goals: seq<MemberGoal>, remote: seq<MemberGoal>): (r: seq<MemberGoal>)
    ensures |goals| <= |r| <= |goals| + |remote|
  {
    if remote == [] then goals
    else
      var g := remote[|remote| - 1];
      Upsert(MergedGoals(goals, remote[..|remote| - 1]), g.memberId, g.month, g)
  }

  /** The last of the goals with the key. */
  function LastWithKey(goals: seq<MemberGoal>, memberId: string, month: string): (r: Option<MemberGoal>)
    ensures r.None? <==> forall k :: 0 <= k < |goals| ==> !SameKey(goals[k], memberId, month)
  {
    if goals == [] then None
    else if SameKey(goals[|goals| - 1], memberId, month) then Some(goals[|goals| - 1])
    else LastWithKey(goals[..|goals| - 1], memberId, month)
  }

  class GoalStore {
    /** The parsed contents of the `church_member_goals` key. */
    var goals: seq<MemberGoal>

    constructor(stored: seq<MemberGoal>)
      ensures goals == stored
    {
      goals := stored;
    }

    /** The value `getMemberGoal` returns at once: the first goal with the key. */
    function GetMemberGoal(memberId: string, month: string): (r: Option<MemberGoal>)
      reads this
      ensures r.Some? ==> r.value in goals && SameKey(r.value, memberId, month)
      ensures r.Some? ==> r.value == goals[FindGoalIndex(goals, memberId, month)]
      ensures r.None? <==> forall g :: g in goals ==> !SameKey(g, memberId, month)
    {
      FindGoal(goals, memberId, month)
    }

    /** The value `getMemberGoals` returns at once: the member's goals in stored order. */
    function GetMemberGoals(memberId: string): (r: seq<MemberGoal>)
      reads this
      ensures forall g :: g in r <==> g in goals && g.memberId == memberId
      ensures IsSubsequence(r, goals)
      ensures forall g :: multiset(r)[g] == if g.memberId == memberId then multiset(goals)[g] else 0
    {
      var r := Filter(goals, (g: MemberGoal) => g.memberId == memberId);
      FilterIsSubsequence(goals, (g: MemberGoal) => g.memberId == memberId);
      FilterMultiset(goals, (g: MemberGoal) => g.memberId == memberId);
      FilterMembership(goals, (g: MemberGoal) => g.memberId == memberId);
      r
    }

    /** The value `getMonthGoals` returns at once: the month's goals in stored order. */
    function GetMonthGoals(month: string): (r: seq<MemberGoal>)
      reads this
      ensures forall g :: g in r <==> g in goals && g.month == month
      ensures IsSubsequence(r, goals)
      ensures forall g :: multiset(r)[g] == if g.month == month then multiset(goals)[g] else 0
    {
      var r := Filter(goals, (g: MemberGoal) => g.month == month);
      FilterIsSubsequence(goals, (g: MemberGoal) => g.month == month);
      FilterMultiset(goals, (g: MemberGoal) => g.month == month);
      FilterMembership(goals, (g: MemberGoal) => g.month == month);
      r
    }

    /** `saveMemberGoal`, its local part, with the clock's reading `now`. */
    method SaveMemberGoal(goal: MemberGoal, now: string)
      modifies this
      ensures goals == SavedGoals(old(goals), goal, now)
    {
      var i := FindGoalIndex(goals, goal.memberId, goal.month);
      var stamped := goal.(updatedAt := Some(now));
      if i >= 0 {
        goals := goals[i := stamped];
      } else {
        goals := goals + [stamped.(createdAt := Some(now))];
      }
    }

    /** `deleteMemberGoal`, its local part. */
    method DeleteMemberGoal(memberId: string, month: string)
      modifies this
      ensures goals == Filter(old(goals), (g: MemberGoal) => !SameKey(g, memberId, month))
      ensures GetMemberGoal(memberId, month).None?
    {
      goals := Filter(goals, (g: MemberGoal) => !SameKey(g, memberId, month));
    }

    /** The background merge of `getMemberGoal`: the remote goal, if any, stored under the queried key. */
    method MergeRemoteGoal(memberId: string, month: string, remote: Option<MemberGoal>)
      modifies this
      ensures remote.None? ==> goals == old(goals)
      ensures remote.Some? ==> goals == Upsert(old(goals), memberId, month, remote.value)
    {
      if remote.Some? {
        var i := FindGoalIndex(goals, memberId, month);
        if i >= 0 {
          goals := goals[i := remote.value];
        } else {
          goals := goals + [remote.value];
        }
      }
    }

    /** The background merge of `getMemberGoals` and `getMonthGoals`. */
    method MergeRemoteGoals(remote: seq<MemberGoal>)
      modifies this
      ensures goals == MergedGoals(old(goals), remote)
    {
      if |remote| > 0 {
        var latest := goals;
        var i := 0;
        while i < |remote|
          invariant 0 <= i <= |remote|
          invariant latest == MergedGoals(old(goals), remote[..i])
        {
          var g := remote[i];
          MergedSnoc(old(goals), remote, i);
          var existing := FindGoalIndex(latest, g.memberId, g.month);
          if existing >= 0 {
            assert Upsert(latest, g.memberId, g.month, g) == latest[existing := g];
            latest := latest[existing := g];
          } else {
            assert Upsert(latest, g.memberId, g.month, g) == latest + [g];
            latest := latest + [g];
          }
          i := i + 1;
        }
        assert remote[..i] == remote;
        goals := latest;
      }
    }
  }

  // ---------------------------------------------------------------------
  // Properties.
  // ---------------------------------------------------------------------

  lemma FindGoalIndexAt(goals: seq<MemberGoal>, memberId: string, month: string, i: int)
    requires 0 <= i < |goals| && SameKey(goals[i], memberId, month)
    requires forall k :: 0 <= k < i ==> !SameKey(goals[k], memberId, month)
    ensures FindGoalIndex(goals, memberId, month) == i
  {
  }

  /** After an upsert under a goal's own key, that key finds the goal. */
  lemma UpsertFinds(goals: seq<MemberGoal>, g: MemberGoal)
    ensures FindGoal(Upsert(goals, g.memberId, g.month, g), g.memberId, g.month) == Some(g)
  {
    var i := FindGoalIndex(goals, g.memberId, g.month);
    var r := Upsert(goals, g.memberId, g.month, g);
    FindGoalIndexAt(r, g.memberId, g.month, if i >= 0 then i else |goals|);
  }

  /** An upsert under one key does not change what another key finds. */
  lemma UpsertOtherKey(goals: seq<MemberGoal>, g: MemberGoal, memberId: string, month: string)
    requires !SameKey(g, memberId, month)
    ensures FindGoal(Upsert(goals, g.memberId, g.month, g), memberId, month) == FindGoal(goals, memberId, month)
  {
    var r := Upsert(goals, g.memberId, g.month, g);
    var j := FindGoalIndex(goals, memberId, month);
    if j >= 0 {
      FindGoalIndexAt(r, memberId, month, j);
    } else {
      assert forall k :: 0 <= k < |r| ==> !SameKey(r[k], memberId, month);
    }
  }

  /**
   * Saving an existing key replaces the first goal with that key at its
   * index by the input stamped with `now`, not keeping the old `createdAt`;
   * a new key is appended with both stamps `now`. Nothing else moves.
   */
  lemma SavedGoalsShape(goals: seq<MemberGoal>, goal: MemberGoal, now: string)
    ensures var i := FindGoalIndex(goals, goal.memberId, goal.month);
      var r := SavedGoals(goals, goal, now);
      (i >= 0 ==> |r| == |goals| && r[i] == goal.(updatedAt := Some(now)) &&
                  forall k :: 0 <= k < |goals| && k != i ==> r[k] == goals[k]) &&
      (i == -1 ==> |r| == |goals| + 1 && r[..|goals|] == goals &&
                   r[|goals|] == goal.(updatedAt := Some(now), createdAt := Some(now)))
  {
  }

  /** After a save, the key finds the saved goal: the input's targets, stamped with `now`. */
  lemma GetAfterSaveGoal(goals: seq<MemberGoal>, goal: MemberGoal, now: string)
    ensures var r := FindGoal(SavedGoals(goals, goal, now), goal.memberId, goal.month);
      r.Some? && r.value.memberId == goal.memberId && r.value.month == goal.month &&
      r.value.activityTargets == goal.activityTargets && r.value.updatedAt == Some(now)
  {
    var i := FindGoalIndex(goals, goal.memberId, goal.month);
    var r := SavedGoals(goals, goal, now);
    FindGoalIndexAt(r, goal.memberId, goal.month, if i >= 0 then i else |goals|);
  }

  /** A save does not change what any other key finds. */
  lemma SaveOtherKey(goals: seq<MemberGoal>, goal: MemberGoal, now: string, memberId: string, month: string)
    requires !SameKey(goal, memberId, month)
    ensures FindGoal(SavedGoals(goals, goal, now), memberId, month) == FindGoal(goals, memberId, month)
  {
    var r := SavedGoals(goals, goal, now);
    var j := FindGoalIndex(goals, memberId, month);
    if j >= 0 {
      FindGoalIndexAt(r, memberId, month, j);
    } else {
      assert forall k :: 0 <= k < |r| ==> !SameKey(r[k], memberId, month);
    }
  }

  /** A delete keeps the other goals in their order and what every other key finds. */
  lemma DeleteKeepsOthers(goals: seq<MemberGoal>, memberId: string, month: string, m: string, mo: string)
    requires !(m == memberId && mo == month)
    ensures IsSubsequence(Filter(goals, (g: MemberGoal) => !SameKey(g, memberId, month)), goals)
    ensures FindGoal(Filter(goals, (g: MemberGoal) => !SameKey(g, memberId, month)), m, mo) == FindGoal(goals, m, mo)
  {
    FilterIsSubsequence(goals, (g: MemberGoal) => !SameKey(g, memberId, month));
    DeleteFind(goals, memberId, month, m, mo);
  }

  lemma FindGoalCons(goals: seq<MemberGoal>, memberId: string, month: string)
    requires goals != []
    ensures FindGoal(goals, memberId, month) ==
      if SameKey(goals[0], memberId, month) then Some(goals[0]) else FindGoal(goals[1..], memberId, month)
  {
  }

  lemma {:induction false} DeleteFind(goals: seq<MemberGoal>, memberId: string, month: string, m: string, mo: string)
    requires !(m == memberId && mo == month)
    ensures FindGoal(Filter(goals, (g: MemberGoal) => !SameKey(g, memberId, month)), m, mo) == FindGoal(goals, m, mo)
  {
    var p := (g: MemberGoal) => !SameKey(g, memberId, month);
    if goals != [] {
      var rest := Filter(goals[1..], p);
      DeleteFind(goals[1..], memberId, month, m, mo);
      FindGoalCons(goals, m, mo);
      if p(goals[0]) {
        var r := Filter(goals, p);
        assert r == [goals[0]] + rest;
        assert r[0] == goals[0] && r[1..] == rest;
        FindGoalCons(r, m, mo);
      } else {
        assert Filter(goals, p) == rest;
      }
    }
  }

  /** Merging one more remote goal upserts it into what the earlier ones gave. */
  lemma MergedSnoc(goals: seq<MemberGoal>, remote: seq<MemberGoal>, i: int)
    requires 0 <= i < |remote|
    ensures MergedGoals(goals, remote[..i + 1]) == Upsert(MergedGoals(goals, remote[..i]), remote[i].memberId, remote[i].month, remote[i])
  {
    assert remote[..i + 1][..i] == remote[..i];
  }

  /** A stored goal whose key no remote goal has keeps its place and its value. */
  lemma {:induction false} MergedKeepsOthers(goals: seq<MemberGoal>, remote: seq<MemberGoal>, k: int)
    requires 0 <= k < |goals|
    requires forall j :: 0 <= j < |remote| ==> !SameKey(goals[k], remote[j].memberId, remote[j].month)
    ensures MergedGoals(goals, remote)[k] == goals[k]
  {
    if remote != [] {
      var init := remote[..|remote| - 1];
      assert forall j :: 0 <= j < |init| ==> init[j] == remote[j];
      MergedKeepsOthers(goals, init, k);
    }
  }

  /** An empty remote list leaves the store as it was. */
  lemma EmptyMergeUnchanged(goals: seq<MemberGoal>)
    ensures MergedGoals(goals, []) == goals
  {
  }

  /**
   * After the merge, a key some remote goal has finds the last remote goal
   * with that key; any other key finds what it found before.
   */
  lemma {:induction false} MergedFinds(goals: seq<MemberGoal>, remote: seq<MemberGoal>, memberId: string, month: string)
    ensures FindGoal(MergedGoals(goals, remote), memberId, month) ==
      match LastWithKey(remote, memberId, month)
      case Some(g) => Some(g)
      case None => FindGoal(goals, memberId, month)
  {
    if remote != [] {
      var init := remote[..|remote| - 1];
      var g := remote[|remote| - 1];
      MergedFinds(goals, init, memberId, month);
      if SameKey(g, memberId, month) {
        UpsertFinds(MergedGoals(goals, init), g);
      } else {
        UpsertOtherKey(MergedGoals(goals, init), g, memberId, month);
      }
    }
  }
}
