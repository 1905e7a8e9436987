/**
 * The store of day records: one list of `MemberScore` kept under a single
 * storage key, with an upsert by (member, date) and two queries.
 */
module ScoreStorage {
  import opened Wrappers
  import opened Catalog
  import opened Seqs

  /** The record is the one for this member and date. */
  predicate SameDay(s: MemberScore, memberId: string, date: string)
  {
    s.memberId == memberId && s.date == date
  }

  /** `findIndex`: the index of the first record for the member and date, or -1. */
  function FindIndex(scores: seq<MemberScore>, memberId: string, date: string): (i: int)
    ensures -1 <= i < |scores|
    ensures i == -1 <==> forall k :: 0 <= k < |scores| ==> !SameDay(scores[k], memberId, date)
    ensures i >= 0 ==> SameDay(scores[i], memberId, date) &&
                       forall k :: 0 <= k < i ==> !SameDay(scores[k], memberId, date)
  {
    if scores == [] then -1
    else if SameDay(scores[0], memberId, date) then 0
    else
      var j := FindIndex(scores[1..], memberId, date);
      if j == -1 then -1 else j + 1
  }

  /** The list after `saveScore(score)`: the first record of its day replaced, or `score` appended. */
  function Saved(scores: seq<MemberScore>, score: MemberScore): (r: seq<MemberScore>)
    ensures score in r
    ensures |r| == |scores| || |r| == |scores| + 1
    ensures |r| == |scores| + 1 <==> forall k :: 0 <= k < |scores| ==> !SameDay(scores[k], score.memberId, score.date)
    ensures forall k :: 0 <= k < |scores| && !SameDay(scores[k], score.memberId, score.date) ==> r[k] == scores[k]
  {
    var i := FindIndex(scores, score.memberId, score.date);
    if i >= 0 then
      var r := scores[i := score];
      assert r[i] == score;
      r
    else scores + [score]
  }

  /** `scores.find(...) || null`: the first record of the member and date. */
  function FindScore(scores: seq<MemberScore>, memberId: string, date: string): (r: Option<MemberScore>)
    ensures r.None? <==> FindIndex(scores, memberId, date) == -1
    ensures r.Some? ==> r.value == scores[FindIndex(scores, memberId, date)]
  {
    var i := FindIndex(scores, memberId, date);
    if i >= 0 then Some(scores[i]) else None
  }

  /** The record counts towards the month: `date.substring(0, 7) === month`. */
  predicate InMonth(s: MemberScore, month: string)
  {
    s.date[..if |s.date| < 7 then |s.date| else 7] == month
  }

  /**
   * The filter of `getMemberTotalScore`: the member's records, and of those
   * only the month's when a non-empty month is given.
   */
  predicate Counted(s: MemberScore, memberId: string, month: Option<string>)
    ensures Counted(s, memberId, month) ==> s.memberId == memberId
    ensures month.Some? && |month.value| > 7 ==> !Counted(s, memberId, month)
  {
    s.memberId == memberId && (month.None? || month.value == [] || InMonth(s, month.value))
  }

  /** `Counted` as the callback that `filter` is given. */
  function CountedBy(memberId: string, month: Option<string>): MemberScore -> bool
  {
    s => Counted(s, memberId, month)
  }

  /** `reduce((total, score) => total + score.totalPoints, 0)`: a left fold adding each record's points. */
  function PointsSum(xs: seq<MemberScore>): (sum: int)
    ensures (forall k :: 0 <= k < |xs| ==> xs[k].totalPoints >= 0) ==> sum >= 0
    ensures |xs| == 1 ==> sum == xs[0].totalPoints
  {
    if xs == [] then 0
    else
      assert forall k :: 0 <= k < |xs| - 1 ==> xs[..|xs| - 1][k] == xs[k];
      PointsSum(xs[..|xs| - 1]) + xs[|xs| - 1].totalPoints
  }

  /** The sum of the stored `totalPoints` over the counted records. */
  function TotalScore(scores: seq<MemberScore>, memberId: string, month: Option<string>): (total: int)
    ensures (forall k :: 0 <= k < |scores| ==> !Counted(scores[k], memberId, month)) ==> total == 0
  {
    if scores == [] then 0
    else
      assert forall k :: 1 <= k < |scores| ==> scores[1..][k - 1] == scores[k];
      (if Counted(scores[0], memberId, month) then scores[0].totalPoints else 0)
      + TotalScore(scores[1..], memberId, month)
  }

  class ScoreStore {
    /** The parsed contents of the `church_member_scores` key. */
    var scores: seq<MemberScore>

    constructor(stored: seq<MemberScore>)
      ensures scores == stored
    {
      scores := stored;
    }

    /** `saveScore`: replace the record of the same member and day in place, or append. */
    method SaveScore(score: MemberScore)
      modifies this
      ensures scores == Saved(old(scores), score)
      ensures GetMemberScore(score.memberId, score.date) == Some(score)
    {
      GetAfterSave(scores, score);
      var i := FindIndex(scores, score.memberId, score.date);
      if i >= 0 {
        scores := scores[i := score];
      } else {
        scores := scores + [score];
      }
    }

    /** `getMemberScore`: the first record of the member and date. */
    function GetMemberScore(memberId: string, date: string): (r: Option<MemberScore>)
      reads this
      ensures r.Some? ==> r.value in scores && SameDay(r.value, memberId, date)
      ensures r.Some? ==> r.value == scores[FindIndex(scores, memberId, date)]
      ensures r.None? <==> forall s :: s in scores ==> !SameDay(s, memberId, date)
    {
      FindScore(scores, memberId, date)
    }

    /** `getMemberTotalScore`. */
    function GetMemberTotalScore(memberId: string, month: Option<string>): (total: int)
      reads this
      ensures total == TotalScore(scores, memberId, month)
      ensures total == PointsSum(Filter(scores, CountedBy(memberId, month)))
      ensures (forall s :: s in scores ==> s.totalPoints >= 0) ==> total >= 0
    {
      TotalNonNegative(scores, memberId, month);
      TotalIsFilterSum(scores, memberId, month);
      TotalScore(scores, memberId, month)
    }
  }

  // ---------------------------------------------------------------------
  // Properties.
  // ---------------------------------------------------------------------

  lemma {:induction false} TotalNonNegative(scores: seq<MemberScore>, memberId: string, month: Option<string>)
    ensures (forall s :: s in scores ==> s.totalPoints >= 0) ==> TotalScore(scores, memberId, month) >= 0
  {
    if scores != [] {
      TotalNonNegative(scores[1..], memberId, month);
      assert forall s :: s in scores[1..] ==> s in scores;
    }
  }

  /**
   * An existing day is replaced in place, at the same index, and the length
   * stays; a new day is appended and the length grows by one. Every other
   * record keeps its place.
   */
  lemma SavedShape(scores: seq<MemberScore>, score: MemberScore)
    ensures var i := FindIndex(scores, score.memberId, score.date);
      var r := Saved(scores, score);
      (i >= 0 ==> |r| == |scores| && r[i] == score &&
                  forall k :: 0 <= k < |scores| && k != i ==> r[k] == scores[k]) &&
      (i == -1 ==> |r| == |scores| + 1 && r[..|scores|] == scores && r[|scores|] == score)
  {
  }

  /** After `saveScore(s)`, `getMemberScore(s.memberId, s.date)` returns `s`. */
  lemma GetAfterSave(scores: seq<MemberScore>, score: MemberScore)
    ensures FindScore(Saved(scores, score), score.memberId, score.date) == Some(score)
  {
    var r := Saved(scores, score);
    var i := FindIndex(scores, score.memberId, score.date);
    if i >= 0 {
      FindIndexAt(r, score.memberId, score.date, i);
    } else {
      FindIndexAt(r, score.memberId, score.date, |scores|);
    }
  }

  /** An index whose record matches and before which none does is what `findIndex` finds. */
  lemma FindIndexAt(scores: seq<MemberScore>, memberId: string, date: string, i: int)
    requires 0 <= i < |scores| && SameDay(scores[i], memberId, date)
    requires forall k :: 0 <= k < i ==> !SameDay(scores[k], memberId, date)
    ensures FindIndex(scores, memberId, date) == i
  {
  }

  /** Saving one day does not change what is found for any other day or member. */
  lemma OtherDaysUnchanged(scores: seq<MemberScore>, score: MemberScore, memberId: string, date: string)
    requires !SameDay(score, memberId, date)
    ensures FindScore(Saved(scores, score), memberId, date) == FindScore(scores, memberId, date)
  {
    var r := Saved(scores, score);
    var j := FindIndex(scores, memberId, date);
    if j >= 0 {
      FindIndexAt(r, memberId, date, j);
    } else {
      assert forall k :: 0 <= k < |r| ==> !SameDay(r[k], memberId, date);
    }
  }

  /** With no month, or an empty one, the total is over all of the member's records. */
  lemma EmptyMonthIsAllMonths(scores: seq<MemberScore>, memberId: string)
    ensures TotalScore(scores, memberId, Some([])) == TotalScore(scores, memberId, None)
  {
  }

  /** With totals that are not negative, the all-months total bounds each month's total. */
  lemma {:induction false} AllMonthsAtLeastOneMonth(scores: seq<MemberScore>, memberId: string, month: string)
    requires forall s :: s in scores ==> s.totalPoints >= 0
    ensures TotalScore(scores, memberId, Some(month)) <= TotalScore(scores, memberId, None)
  {
    if scores != [] {
      assert forall s :: s in scores[1..] ==> s in scores;
      AllMonthsAtLeastOneMonth(scores[1..], memberId, month);
    }
  }

  /** The fold over two runs of records is the sum of their folds. */
  lemma {:induction false} PointsSumConcat(a: seq<MemberScore>, b: seq<MemberScore>)
    ensures PointsSum(a + b) == PointsSum(a) + PointsSum(b)
  {
    if b == [] {
      assert a + b == a;
    } else {
      var b' := b[..|b| - 1];
      assert (a + b)[..|a + b| - 1] == a + b';
      assert (a + b)[|a + b| - 1] == b[|b| - 1];
      PointsSumConcat(a, b');
    }
  }

  /**
   * The total is the source's own pipeline: filter the counted records, then
   * fold their `totalPoints` from 0.
   */
  lemma {:induction false} TotalIsFilterSum(scores: seq<MemberScore>, memberId: string, month: Option<string>)
    ensures TotalScore(scores, memberId, month) == PointsSum(Filter(scores, CountedBy(memberId, month)))
  {
    if scores != [] {
      var p := CountedBy(memberId, month);
      var head := if p(scores[0]) then [scores[0]] else [];
      assert Filter(scores, p) == head + Filter(scores[1..], p);
      TotalIsFilterSum(scores[1..], memberId, month);
      PointsSumConcat(head, Filter(scores[1..], p));
      assert head == [] ==> head + Filter(scores[1..], p) == Filter(scores[1..], p);
    }
  }

  /** The total over two runs of records is the sum of their totals. */
  lemma {:induction false} TotalConcat(a: seq<MemberScore>, b: seq<MemberScore>, memberId: string, month: Option<string>)
    ensures TotalScore(a + b, memberId, month) == TotalScore(a, memberId, month) + TotalScore(b, memberId, month)
  {
    if a == [] {
      assert a + b == b;
    } else {
      assert (a + b)[0] == a[0];
      assert (a + b)[1..] == a[1..] + b;
      TotalConcat(a[1..], b, memberId, month);
    }
  }
}
