/**
 * The goal-progress engine: count how often each activity was done by a
 * member in a month, then compare the counts with the member's targets.
 */
module GoalProgressEngine {
  import opened Wrappers
  import opened Catalog
  import opened Goals
  import opened JsMath

  // ---------------------------------------------------------------------
  // Which records take part.
  // ---------------------------------------------------------------------

  /** The record belongs to the member and its date starts with the month string. */
  predicate InMonth(score: MemberScore, memberId: string, month: string)
    ensures InMonth(score, memberId, month) ==> |month| <= |score.date| && score.date[..|month|] == month
    ensures month == [] ==> (InMonth(score, memberId, month) <==> score.memberId == memberId)
  {
    score.memberId == memberId && month <= score.date
  }

  /** `allScores.filter(score => score.memberId === memberId && score.date.startsWith(month))`. */
  function MonthScores(all: seq<MemberScore>, memberId: string, month: string): (r: seq<MemberScore>)
    ensures |r| <= |all|
    ensures forall x :: x in r <==> x in all && InMonth(x, memberId, month)
  {
    if all == [] then []
    else (if InMonth(all[0], memberId, month) then [all[0]] else []) + MonthScores(all[1..], memberId, month)
  }

  // ---------------------------------------------------------------------
  // What one stored value counts for.
  // ---------------------------------------------------------------------

  /**
   * The occurrences one stored value adds for an activity of the given entry
   * type. A double checkbox counts its true halves, or 2 for a bare `true`; a
   * radio counts once whatever option above 0 was chosen.
   */
  function Occurrences(t: EntryType, v: ActivityValue): (r: int)
    ensures t != Number ==> 0 <= r <= (if t == CheckboxDouble then 2 else 1)
    ensures t == Number && v.NumVal? ==> r == v.n
    ensures v == BoolVal(false) ==> r == 0
  {
    match t
    case Checkbox => if v == BoolVal(true) then 1 else 0
    case CheckboxDouble =>
      (match v
       case DualVal(m, e) => (if m then 1 else 0) + (if e then 1 else 0)
       case BoolVal(b) => if b then 2 else 0
       case NumVal(_) => 0)
    case Number => if v.NumVal? then v.n else 0
    case Radio => if v.NumVal? && v.n > 0 then 1 else 0
  }

  /** What an entry for `id` adds: nothing when `id` is not in the catalog. */
  function EntryOccurrences(cat: seq<ScoringActivity>, id: string, v: ActivityValue): int
  {
    match FindActivityIn(cat, id)
    case None => 0
    case Some(a) => Occurrences(a.entryType, v)
  }

  /** Occurrences of activity `id` among a record's entries. */
  function EntriesCount(cat: seq<ScoringActivity>, es: seq<ActivityEntry>, id: string): int
  {
    if es == [] then 0
    else
      var last := es[|es| - 1];
      EntriesCount(cat, es[..|es| - 1], id) + (if last.activityId == id then EntryOccurrences(cat, id, last.value) else 0)
  }

  /** Occurrences of activity `id` over a list of records. */
  function CountIn(cat: seq<ScoringActivity>, scores: seq<MemberScore>, id: string): int
  {
    if scores == [] then 0
    else CountIn(cat, scores[..|scores| - 1], id) + EntriesCount(cat, scores[|scores| - 1].activities, id)
  }

  /** Some entry names `id`. */
  predicate Names(es: seq<ActivityEntry>, id: string)
  {
    exists k :: 0 <= k < |es| && es[k].activityId == id
  }

  /** Some entry of the records names `id`, and `id` is in the catalog. */
  predicate AppearsIn(cat: seq<ScoringActivity>, scores: seq<MemberScore>, id: string)
  {
    FindActivityIn(cat, id).Some? && exists i :: 0 <= i < |scores| && Names(scores[i].activities, id)
  }

  /** `counts[id] || 0`. */
  function CountOr0(counts: map<string, int>, id: string): int
  {
    if id in counts then counts[id] else 0
  }

  // ---------------------------------------------------------------------
  // The counting loop.
  // ---------------------------------------------------------------------

  /**
   * The dictionary holds what the records `done` and the entries `es` of the
   * record being read have contributed so far.
   */
  ghost predicate Tracks(cat: seq<ScoringActivity>, counts: map<string, int>, done: seq<MemberScore>, es: seq<ActivityEntry>)
  {
    forall id ::
      (id in counts <==> AppearsIn(cat, done, id) || (FindActivityIn(cat, id).Some? && Names(es, id))) &&
      CountOr0(counts, id) == CountIn(cat, done, id) + EntriesCount(cat, es, id)
  }

  /**
   * The `activityCounts` dictionary: a key for every catalog activity that
   * appears in the member's records of the month, holding its occurrences.
   */
  method CountActivities(cat: seq<ScoringActivity>, allScores: seq<MemberScore>, memberId: string, month: string)
    returns (counts: map<string, int>)
    ensures forall id :: id in counts <==> AppearsIn(cat, MonthScores(allScores, memberId, month), id)
    ensures forall id :: CountOr0(counts, id) == CountIn(cat, MonthScores(allScores, memberId, month), id)
  {
    var monthScores := MonthScores(allScores, memberId, month);
    counts := map[];
    var i := 0;
    while i < |monthScores|
      invariant 0 <= i <= |monthScores|
      invariant Tracks(cat, counts, monthScores[..i], [])
    {
      counts := CountRecord(cat, counts, monthScores[..i], monthScores[i].activities);
      assert monthScores[..i + 1] == monthScores[..i] + [monthScores[i]];
      TracksRecord(cat, counts, monthScores[..i], monthScores[i]);
      i := i + 1;
    }
    assert monthScores[..i] == monthScores;
  }

  /** The inner `forEach` over the entries `es` of one record, after the records `done`. */
  method CountRecord(cat: seq<ScoringActivity>, counts0: map<string, int>, ghost done: seq<MemberScore>, es: seq<ActivityEntry>)
    returns (counts: map<string, int>)
    requires Tracks(cat, counts0, done, [])
    ensures Tracks(cat, counts, done, es)
  {
    counts := counts0;
    var j := 0;
    assert es[..0] == [];
    while j < |es|
      invariant 0 <= j <= |es|
      invariant Tracks(cat, counts, done, es[..j])
    {
      var entry := es[j];
      ghost var before := counts;
      counts := CountEntry(cat, counts, entry);
      assert es[..j + 1] == es[..j] + [entry];
      TracksEntry(cat, before, counts, done, es[..j], entry);
      j := j + 1;
    }
    assert es[..j] == es;
  }

  /**
   * One entry: an id missing from the catalog is skipped; otherwise its
   * key is created at 0 if absent and grows by the entry's occurrences.
   */
  method CountEntry(cat: seq<ScoringActivity>, counts0: map<string, int>, entry: ActivityEntry) returns (counts: map<string, int>)
    ensures FindActivityIn(cat, entry.activityId).None? ==> counts == counts0
    ensures FindActivityIn(cat, entry.activityId).Some? ==>
      counts == counts0[entry.activityId := CountOr0(counts0, entry.activityId) + EntryOccurrences(cat, entry.activityId, entry.value)]
  {
    counts := counts0;
    var id := entry.activityId;
    var activity := FindActivityIn(cat, id);
    if activity.Some? {
      if id !in counts {
        counts := counts[id := 0];
      }
      counts := counts[id := counts[id] + Occurrences(activity.value.entryType, entry.value)];
    }
  }

  /** One entry read by the inner loop. */
  lemma TracksEntry(cat: seq<ScoringActivity>, before: map<string, int>, after: map<string, int>, done: seq<MemberScore>,
                    es: seq<ActivityEntry>, e: ActivityEntry)
    requires Tracks(cat, before, done, es)
    requires FindActivityIn(cat, e.activityId).None? ==> after == before
    requires FindActivityIn(cat, e.activityId).Some? ==>
      after == before[e.activityId := CountOr0(before, e.activityId) + EntryOccurrences(cat, e.activityId, e.value)]
    ensures Tracks(cat, after, done, es + [e])
  {
    var es' := es + [e];
    assert es'[..|es'| - 1] == es;
    forall id ensures Names(es', id) <==> Names(es, id) || e.activityId == id {
      if Names(es', id) {
        var k :| 0 <= k < |es'| && es'[k].activityId == id;
        if k < |es| { assert es[k] == es'[k]; }
      }
      if Names(es, id) {
        var k :| 0 <= k < |es| && es[k].activityId == id;
        assert es'[k] == es[k];
      }
      if e.activityId == id { assert es'[|es|] == e; }
    }
  }

  /** One record finished by the outer loop. */
  lemma TracksRecord(cat: seq<ScoringActivity>, counts: map<string, int>, done: seq<MemberScore>, s: MemberScore)
    requires Tracks(cat, counts, done, s.activities)
    ensures Tracks(cat, counts, done + [s], [])
  {
    var d := done + [s];
    assert d[..|d| - 1] == done;
    forall id ensures AppearsIn(cat, d, id) <==> AppearsIn(cat, done, id) || (FindActivityIn(cat, id).Some? && Names(s.activities, id)) {
      if AppearsIn(cat, d, id) {
        var i :| 0 <= i < |d| && Names(d[i].activities, id);
        if i < |done| { assert done[i] == d[i]; }
      }
      if AppearsIn(cat, done, id) {
        var i :| 0 <= i < |done| && Names(done[i].activities, id);
        assert d[i] == done[i];
      }
      if FindActivityIn(cat, id).Some? && Names(s.activities, id) { assert d[|done|] == s; }
    }
  }

  // ---------------------------------------------------------------------
  // From counts to progress.
  // ---------------------------------------------------------------------

  /**
   * `Math.min(100, Math.round(current / target * 100))`. A zero target gives
   * 100 for a positive count, NaN for a zero count and -Infinity below.
   */
  function Percent(current: int, target: int): (p: Percentage)
    ensures target != 0 ==> p.Finite?
    ensures target == 0 ==>
      (p == Finite(100) <==> current > 0) && (p == NaN <==> current == 0) && (p == NegativeInfinity <==> current < 0)
    ensures target > 0 && p.Finite? ==>
      p.value <= 100 && (p.value < 100 ==> IsRoundOf(p.value, 100 * current, target)) &&
      (p.value == 100 <==> 200 * current >= 199 * target)
    ensures target < 0 && p.Finite? ==>
      p.value <= 100 && (p.value < 100 ==> IsRoundOf(p.value, -100 * current, -target)) &&
      (p.value == 100 <==> 200 * current <= 199 * target)
  {
    if target > 0 then
      RoundAtLeast(100 * current, target, 100);
      Finite(Min(100, RoundHalfUp(100 * current, target)))
    else if target < 0 then
      RoundAtLeast(-100 * current, -target, 100);
      Finite(Min(100, RoundHalfUp(-100 * current, -target)))
    else if current > 0 then Finite(100)
    else if current == 0 then NaN
    else NegativeInfinity
  }

  /** `activity?.name || target.activityId`. */
  function ActivityName(cat: seq<ScoringActivity>, id: string): (name: string)
    ensures FindActivityIn(cat, id).None? ==> name == id
    ensures name == id || exists a :: a in cat && a.id == id && a.name == name
  {
    match FindActivityIn(cat, id)
    case None => id
    case Some(a) => if a.name != [] then a.name else id
  }

  /** The progress entry for one target, given its current count. */
  function TargetProgress(cat: seq<ScoringActivity>, t: ActivityTarget, current: int): (r: ActivityProgress)
    ensures r.remainingCount >= 0
    ensures r.isCompleted <==> r.remainingCount == 0
  {
    ActivityProgress(
      t.activityId,
      ActivityName(cat, t.activityId),
      t.targetCount,
      current,
      Percent(current, t.targetCount),
      Max(0, t.targetCount - current),
      current >= t.targetCount)
  }

  /** `goal.activityTargets.map(...)` with each count read from the records. */
  function Progresses(cat: seq<ScoringActivity>, monthScores: seq<MemberScore>, ts: seq<ActivityTarget>): (r: seq<ActivityProgress>)
    ensures |r| == |ts|
    ensures forall i :: 0 <= i < |ts| ==> r[i] == TargetProgress(cat, ts[i], CountIn(cat, monthScores, ts[i].activityId))
  {
    if ts == [] then []
    else [TargetProgress(cat, ts[0], CountIn(cat, monthScores, ts[0].activityId))] + Progresses(cat, monthScores, ts[1..])
  }

  /** How many progress entries are completed. */
  function CompletedCount(ps: seq<ActivityProgress>): (n: nat)
    ensures n <= |ps|
  {
    if ps == [] then 0 else (if ps[0].isCompleted then 1 else 0) + CompletedCount(ps[1..])
  }

  /** `Math.round(completed / total * 100)`, or 0 without targets. */
  function OverallPercent(completed: nat, total: nat): (p: int)
    requires completed <= total
    ensures 0 <= p <= 100
    ensures total > 0 ==> IsRoundOf(p, 100 * completed, total)
    ensures total == 0 ==> p == 0
  {
    if total > 0 then
      RoundMonotone(0, 100 * completed, total);
      RoundMonotone(100 * completed, 100 * total, total);
      RoundExact(100, total);
      RoundExact(0, total);
      RoundHalfUp(100 * completed, total)
    else 0
  }

  lemma RoundExact(k: int, d: int)
    requires d > 0
    ensures RoundHalfUp(k * d, d) == k
  {
    assert IsRoundOf(k, k * d, d);
    RoundUnique(k, RoundHalfUp(k * d, d), k * d, d);
  }

  /** The whole result of `calculateActivityProgress`, from the stored records. */
  function GoalProgressOf(cat: seq<ScoringActivity>, allScores: seq<MemberScore>, memberId: string,
                          month: string, goal: MemberGoal): (r: GoalProgress)
    ensures r.memberId == memberId && r.month == month && r.memberName == ""
    ensures |r.activityProgresses| == r.totalActivitiesWithGoals == |goal.activityTargets|
    ensures r.completedActivities <= r.totalActivitiesWithGoals
  {
    var ps := Progresses(cat, MonthScores(allScores, memberId, month), goal.activityTargets);
    var completed := CompletedCount(ps);
    var total := |goal.activityTargets|;
    GoalProgress(memberId, "", month, ps, total, completed, OverallPercent(completed, total))
  }

  /** `calculateActivityProgress` over the records `getScores` returns. */
  method CalculateActivityProgress(allScores: seq<MemberScore>, memberId: string, month: string, goal: MemberGoal)
    returns (p: GoalProgress)
    ensures p == GoalProgressOf(SCORING_ACTIVITIES, allScores, memberId, month, goal)
  {
    var counts := CountActivities(SCORING_ACTIVITIES, allScores, memberId, month);
    var ps := BuildProgresses(SCORING_ACTIVITIES, MonthScores(allScores, memberId, month), counts, goal.activityTargets);
    var completed := CompletedCount(ps);
    var total := |goal.activityTargets|;
    p := GoalProgress(memberId, "", month, ps, total, completed, OverallPercent(completed, total));
  }

  /** The `map` over the targets: one progress per target, from the counted dictionary. */
  method BuildProgresses(cat: seq<ScoringActivity>, monthScores: seq<MemberScore>, counts: map<string, int>, ts: seq<ActivityTarget>)
    returns (ps: seq<ActivityProgress>)
    requires forall id :: CountOr0(counts, id) == CountIn(cat, monthScores, id)
    ensures ps == Progresses(cat, monthScores, ts)
  {
    ps := [];
    var k := 0;
    while k < |ts|
      invariant 0 <= k <= |ts|
      invariant ps == Progresses(cat, monthScores, ts[..k])
    {
      var t := ts[k];
      ps := ps + [TargetProgress(cat, t, CountOr0(counts, t.activityId))];
      assert ts[..k + 1] == ts[..k] + [t];
      ProgressesSnoc(cat, monthScores, ts[..k], t);
      k := k + 1;
    }
    assert ts[..k] == ts;
  }

  lemma ProgressesSnoc(cat: seq<ScoringActivity>, monthScores: seq<MemberScore>, ts: seq<ActivityTarget>, t: ActivityTarget)
    ensures Progresses(cat, monthScores, ts + [t]) ==
      Progresses(cat, monthScores, ts) + [TargetProgress(cat, t, CountIn(cat, monthScores, t.activityId))]
  {
  }

  // ---------------------------------------------------------------------
  // Properties.
  // ---------------------------------------------------------------------

  /** With distinct ids, the lookup of an activity's own id finds that activity. */
  lemma {:induction false} FindDistinct(cat: seq<ScoringActivity>, a: ScoringActivity)
    requires DistinctActivityIds(cat) && a in cat
    ensures FindActivityIn(cat, a.id) == Some(a)
  {
    if cat[0] != a {
      assert a in cat[1..];
      assert DistinctActivityIds(cat[1..]) by {
        forall i, j | 0 <= i < j < |cat| - 1 ensures cat[1..][i].id != cat[1..][j].id {
          assert cat[1..][i] == cat[i + 1] && cat[1..][j] == cat[j + 1];
        }
      }
      var k :| 0 <= k < |cat| && cat[k] == a;
      assert cat[0].id != a.id;
      FindDistinct(cat[1..], a);
    }
  }

  /**
   * What one more entry for a catalog activity adds to its count: a checkbox
   * 1 for exactly `true`; a double checkbox 1 per true half, or 2 for a bare
   * `true`; a number its value; a radio 1 for any value above 0.
   */
  lemma CountingRule(cat: seq<ScoringActivity>, es: seq<ActivityEntry>, a: ScoringActivity, v: ActivityValue)
    requires DistinctActivityIds(cat) && a in cat
    ensures var delta := EntriesCount(cat, es + [ActivityEntry(a.id, v)], a.id) - EntriesCount(cat, es, a.id);
      (a.entryType == Checkbox ==> delta == (if v == BoolVal(true) then 1 else 0)) &&
      (a.entryType == CheckboxDouble ==>
        (v.DualVal? ==> delta == (if v.morning then 1 else 0) + (if v.evening then 1 else 0)) &&
        (v == BoolVal(true) ==> delta == 2) &&
        (v == BoolVal(false) || v.NumVal? ==> delta == 0)) &&
      (a.entryType == Number ==> delta == (if v.NumVal? then v.n else 0)) &&
      (a.entryType == Radio ==> delta == (if v.NumVal? && v.n > 0 then 1 else 0))
  {
    FindDistinct(cat, a);
    assert (es + [ActivityEntry(a.id, v)])[..|es|] == es;
  }

  /** An entry whose id is not in the catalog adds nothing to any count. */
  lemma UnknownSkipped(cat: seq<ScoringActivity>, es: seq<ActivityEntry>, e: ActivityEntry, id: string)
    requires FindActivityIn(cat, e.activityId).None?
    ensures EntriesCount(cat, es + [e], id) == EntriesCount(cat, es, id)
  {
    assert (es + [e])[..|es|] == es;
  }

  /** An activity that never appears in the records counts 0. */
  lemma {:induction false} NeverAppearsCountsZero(cat: seq<ScoringActivity>, scores: seq<MemberScore>, id: string)
    requires !AppearsIn(cat, scores, id)
    ensures CountIn(cat, scores, id) == 0
  {
    if scores != [] {
      var init := scores[..|scores| - 1];
      assert !AppearsIn(cat, init, id);
      NeverAppearsCountsZero(cat, init, id);
      if FindActivityIn(cat, id).Some? {
        assert !Names(scores[|scores| - 1].activities, id);
        NotNamedCountsZero(cat, scores[|scores| - 1].activities, id);
      } else {
        UnknownCountsZero(cat, scores[|scores| - 1].activities, id);
      }
    }
  }

  lemma {:induction false} NotNamedCountsZero(cat: seq<ScoringActivity>, es: seq<ActivityEntry>, id: string)
    requires !Names(es, id)
    ensures EntriesCount(cat, es, id) == 0
  {
    if es != [] {
      NotNamedCountsZero(cat, es[..|es| - 1], id);
    }
  }

  lemma {:induction false} UnknownCountsZero(cat: seq<ScoringActivity>, es: seq<ActivityEntry>, id: string)
    requires FindActivityIn(cat, id).None?
    ensures EntriesCount(cat, es, id) == 0
  {
    if es != [] {
      UnknownCountsZero(cat, es[..|es| - 1], id);
    }
  }

  /** Counts over two runs of records add up. */
  lemma {:induction false} CountInConcat(cat: seq<ScoringActivity>, a: seq<MemberScore>, b: seq<MemberScore>, id: string)
    ensures CountIn(cat, a + b, id) == CountIn(cat, a, id) + CountIn(cat, b, id)
  {
    if b == [] {
      assert a + b == a;
    } else {
      var b' := b[..|b| - 1];
      assert (a + b)[..|a + b| - 1] == a + b';
      assert (a + b)[|a + b| - 1] == b[|b| - 1];
      CountInConcat(cat, a, b', id);
    }
  }

  /** The order in which records are stored does not change any count. */
  lemma CountInSwap(cat: seq<ScoringActivity>, a: seq<MemberScore>, b: seq<MemberScore>, id: string)
    ensures CountIn(cat, a + b, id) == CountIn(cat, b + a, id)
  {
    CountInConcat(cat, a, b, id);
    CountInConcat(cat, b, a, id);
  }

  lemma {:induction false} MonthScoresConcat(a: seq<MemberScore>, b: seq<MemberScore>, memberId: string, month: string)
    ensures MonthScores(a + b, memberId, month) == MonthScores(a, memberId, month) + MonthScores(b, memberId, month)
  {
    if a == [] {
      assert a + b == b;
    } else {
      assert (a + b)[0] == a[0];
      assert (a + b)[1..] == a[1..] + b;
      MonthScoresConcat(a[1..], b, memberId, month);
    }
  }

  /** A record of another member, or of another month, changes nothing in the result. */
  lemma OtherRecordIgnored(cat: seq<ScoringActivity>, a: seq<MemberScore>, r: MemberScore, b: seq<MemberScore>,
                           memberId: string, month: string, goal: MemberGoal)
    requires !InMonth(r, memberId, month)
    ensures GoalProgressOf(cat, a + [r] + b, memberId, month, goal) == GoalProgressOf(cat, a + b, memberId, month, goal)
  {
    MonthScoresConcat(a + [r], b, memberId, month);
    MonthScoresConcat(a, [r], memberId, month);
    MonthScoresConcat(a, b, memberId, month);
    assert MonthScores([r], memberId, month) == [];
    assert MonthScores(a + [r] + b, memberId, month) == MonthScores(a + b, memberId, month);
  }

  /**
   * A target's remaining count, completion and percentage: once reached, the
   * percentage is 100; with a positive target and a count that is not
   * negative it lies between 0 and 100.
   */
  lemma TargetProgressFacts(cat: seq<ScoringActivity>, t: ActivityTarget, current: int)
    ensures var p := TargetProgress(cat, t, current);
      p.remainingCount >= 0 &&
      (p.isCompleted <==> current >= t.targetCount) &&
      (p.isCompleted <==> p.remainingCount == 0) &&
      (!p.isCompleted ==> p.remainingCount == t.targetCount - current) &&
      (p.isCompleted && t.targetCount > 0 ==> p.progressPercentage == Finite(100)) &&
      (t.targetCount > 0 && current >= 0 ==> p.progressPercentage.Finite? && 0 <= p.progressPercentage.value <= 100)
  {
    if t.targetCount > 0 && current >= 0 {
      RoundMonotone(0, 100 * current, t.targetCount);
      RoundExact(0, t.targetCount);
    }
  }

  /** A percentage of 100 does not mean the target is reached: 199 of 200 rounds up. */
  lemma HundredPercentNotCompleted(cat: seq<ScoringActivity>, id: string)
    ensures var p := TargetProgress(cat, ActivityTarget(id, 200), 199);
      p.progressPercentage == Finite(100) && !p.isCompleted
  {
  }

  lemma {:induction false} CompletedCountAll(ps: seq<ActivityProgress>)
    ensures CompletedCount(ps) == |ps| <==> forall i :: 0 <= i < |ps| ==> ps[i].isCompleted
  {
    if ps != [] {
      CompletedCountAll(ps[1..]);
      assert forall i :: 1 <= i < |ps| ==> ps[i] == ps[1..][i - 1];
    }
  }

  /**
   * One progress entry per target, in target order, holding the count read
   * from the month's records; the totals and the overall percentage.
   */
  lemma GoalProgressFacts(cat: seq<ScoringActivity>, allScores: seq<MemberScore>, memberId: string,
                          month: string, goal: MemberGoal)
    ensures var g := GoalProgressOf(cat, allScores, memberId, month, goal);
      var ts := goal.activityTargets;
      g.memberId == memberId && g.month == month && g.memberName == "" &&
      |g.activityProgresses| == |ts| == g.totalActivitiesWithGoals &&
      (forall i :: 0 <= i < |ts| ==>
        g.activityProgresses[i].activityId == ts[i].activityId &&
        g.activityProgresses[i].targetCount == ts[i].targetCount &&
        g.activityProgresses[i].currentCount == CountIn(cat, MonthScores(allScores, memberId, month), ts[i].activityId)) &&
      g.completedActivities <= g.totalActivitiesWithGoals &&
      0 <= g.overallProgressPercentage <= 100 &&
      (g.completedActivities == 0 ==> g.overallProgressPercentage == 0) &&
      (|ts| > 0 && (forall i :: 0 <= i < |ts| ==> g.activityProgresses[i].isCompleted) ==> g.overallProgressPercentage == 100)
  {
    var g := GoalProgressOf(cat, allScores, memberId, month, goal);
    var n := |goal.activityTargets|;
    CompletedCountAll(g.activityProgresses);
    if n > 0 {
      RoundExact(0, n);
      RoundExact(100, n);
      if g.completedActivities == 0 {
        assert 100 * g.completedActivities == 0 * n;
        RoundUnique(g.overallProgressPercentage, 0, 0, n);
      }
      if g.completedActivities == n {
        assert 100 * g.completedActivities == 100 * n;
        RoundUnique(g.overallProgressPercentage, 100, 100 * n, n);
      }
    }
  }
}
