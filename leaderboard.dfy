/**
 * The home page's leaderboard: each member's total for the month, the
 * members ordered by it, and the rank and badge shown for each.
 */
module Leaderboard {
  import opened Wrappers
  import opened Catalog
  import opened Sorting
  import opened ScoreStorage

  /** `memberScores[id] || 0`. */
  function ScoreOf(scores: map<string, int>, id: string): (r: int)
    ensures id in scores ==> r == scores[id]
    ensures id !in scores ==> r == 0
  {
    if id in scores then scores[id] else 0
  }

  /**
   * `loadScoresForMonth`: a key for every shown member, holding the member's
   * total over the records of the month.
   */
  method LoadScoresForMonth(store: ScoreStore, members: seq<Member>, month: string) returns (scores: map<string, int>)
    ensures forall id :: id in scores <==> exists m :: m in members && m.id == id
    ensures forall m :: m in members ==> scores[m.id] == store.GetMemberTotalScore(m.id, Some(month))
  {
    scores := map[];
    var i := 0;
    while i < |members|
      invariant 0 <= i <= |members|
      invariant forall id :: id in scores <==> exists k :: 0 <= k < i && members[k].id == id
      invariant forall k :: 0 <= k < i ==> scores[members[k].id] == store.GetMemberTotalScore(members[k].id, Some(month))
    {
      var m := members[i];
      scores := scores[m.id := store.GetMemberTotalScore(m.id, Some(month))];
      i := i + 1;
    }
  }

  /** `filteredMembers.sort((a, b) => score(b) - score(a))`: a stable sort, higher totals first. */
  function Ranking(members: seq<Member>, scores: map<string, int>): (r: seq<Member>)
    ensures multiset(r) == multiset(members)
  {
    SortBy(members, (m: Member) => ScoreOf(scores, m.id), AtLeast)
  }

  /** The rank circle: a ring for the first row, a light highlight for the next two. */
  datatype RankStyle = Gold | Highlight | Plain

  function RankStyleAt(index: nat): (s: RankStyle)
    ensures s == Gold <==> index == 0
    ensures s == Highlight <==> 1 <= index <= 2
  {
    if index == 0 then Gold else if index < 3 then Highlight else Plain
  }

  /** The rank shown is the row's index counted from 1. */
  function RankLabel(index: nat): (r: nat)
    ensures r >= 1 && r - 1 == index
  {
    index + 1
  }

  /** The badge colour of a total. */
  datatype Badge = Green | Blue | Yellow | Gray

  function BadgeFor(score: int): (b: Badge)
    ensures b == Green <==> score > 1500
    ensures b == Blue <==> 1000 < score <= 1500
    ensures b == Yellow <==> 500 < score <= 1000
    ensures b == Gray <==> score <= 500
  {
    if score > 1500 then Green
    else if score > 1000 then Blue
    else if score > 500 then Yellow
    else Gray
  }

  /** A higher total never gets a lower badge. */
  function BadgeLevel(b: Badge): nat
  {
    match b
    case Gray => 0
    case Yellow => 1
    case Blue => 2
    case Green => 3
  }

  lemma BadgeMonotone(x: int, y: int)
    requires x <= y
    ensures BadgeLevel(BadgeFor(x)) <= BadgeLevel(BadgeFor(y))
  {
  }

  // ---------------------------------------------------------------------
  // Properties.
  // ---------------------------------------------------------------------

  /**
   * The ranking holds the same members, has non-increasing totals, and
   * keeps members with equal totals in their previous order.
   */
  lemma RankingFacts(members: seq<Member>, scores: map<string, int>, total: int)
    ensures var r := Ranking(members, scores);
      multiset(r) == multiset(members) &&
      (forall i, j :: 0 <= i < j < |r| ==> ScoreOf(scores, r[i].id) >= ScoreOf(scores, r[j].id)) &&
      WithKey(r, (m: Member) => ScoreOf(scores, m.id), total) == WithKey(members, (m: Member) => ScoreOf(scores, m.id), total)
  {
    AtLeastIsTotalPreorder();
    SortBySorted(members, (m: Member) => ScoreOf(scores, m.id), AtLeast);
    SortByStable(members, (m: Member) => ScoreOf(scores, m.id), AtLeast, total);
  }

  /** The first row holds a member with the highest total. */
  lemma FirstIsTop(members: seq<Member>, scores: map<string, int>)
    requires members != []
    ensures var r := Ranking(members, scores);
      |r| == |members| && forall m :: m in members ==> ScoreOf(scores, r[0].id) >= ScoreOf(scores, m.id)
  {
    var r := Ranking(members, scores);
    RankingFacts(members, scores, 0);
    assert |r| == |members| by {
      assert |multiset(r)| == |multiset(members)|;
    }
    forall m | m in members ensures ScoreOf(scores, r[0].id) >= ScoreOf(scores, m.id) {
      assert m in multiset(members);
      assert m in r;
      var j :| 0 <= j < |r| && r[j] == m;
    }
  }

  /** Exactly 1500 is blue, 1501 green, 500 gray and 501 yellow. */
  lemma BadgeBoundaries()
    ensures BadgeFor(1500) == Blue && BadgeFor(1501) == Green
    ensures BadgeFor(1000) == Yellow && BadgeFor(1001) == Blue
    ensures BadgeFor(500) == Gray && BadgeFor(501) == Yellow
  {
  }
}
