/**
 * The monthly summary page: for every catalog activity, each member's
 * number of occurrences and points in the month, with its own counting rules.
 */
module MonthlySummary {
  import opened Wrappers
  import opened Catalog
  import opened Seqs
  import opened Sorting
  import GoalProgressEngine

  datatype MemberStat = MemberStat(memberId: string, memberName: string, count: int, totalPoints: int)

  datatype ActivitySummary = ActivitySummary(activityId: string, activityName: string, memberStats: seq<MemberStat>)

  /** `allScores.filter(score => score.date.startsWith(monthStr))`. */
  function MonthScores(all: seq<MemberScore>, month: string): seq<MemberScore>
  {
    Filter(all, (s: MemberScore) => month <= s.date)
  }

  /** `Number(value) || 0` over the value shapes a record holds. */
  function NumberOr0(v: Option<ActivityValue>): (r: int)
    ensures r != 0 ==> v.Some? && !v.value.DualVal?
    ensures v.Some? && v.value.BoolVal? ==> r == (if v.value.b then 1 else 0)
    ensures v.Some? && v.value.NumVal? ==> r == v.value.n
  {
    match v
    case None => 0
    case Some(BoolVal(b)) => if b then 1 else 0
    case Some(NumVal(n)) => n
    case Some(DualVal(_, _)) => 0
  }

  /**
   * The count one record adds for activity `a`: a checkbox 1 for `true`; a
   * double checkbox 1 per true half of a `{morning, evening}` pair; a number
   * or radio the positive value of `Number(value)`.
   */
  function RecordCount(a: ScoringActivity, v: Option<ActivityValue>): (c: nat)
    ensures v.None? ==> c == 0
    ensures a.entryType == Checkbox ==> c <= 1
    ensures a.entryType == CheckboxDouble ==> c <= 2
    ensures a.entryType == Checkbox ==> (c == 1 <==> v == Some(BoolVal(true)))
    ensures a.entryType == CheckboxDouble && v.Some? && v.value.DualVal? ==>
              c == (if v.value.morning then 1 else 0) + (if v.value.evening then 1 else 0)
    ensures a.entryType == CheckboxDouble && !(v.Some? && v.value.DualVal?) ==> c == 0
    ensures (a.entryType == Number || a.entryType == Radio) && v.Some? && v.value.NumVal? ==>
              c == (if v.value.n > 0 then v.value.n else 0)
    ensures (a.entryType == Number || a.entryType == Radio) && v == Some(BoolVal(true)) ==> c == 1
    ensures (a.entryType == Number || a.entryType == Radio) && v.Some? && v.value.DualVal? ==> c == 0
    ensures !(v.Some? && v.value.NumVal? && v.value.n > 0) && v != Some(BoolVal(true)) && !(v.Some? && v.value.DualVal?) ==> c == 0
  {
    match a.entryType
    case Checkbox => if v == Some(BoolVal(true)) then 1 else 0
    case CheckboxDouble =>
      if v.Some? && v.value.DualVal? then (if v.value.morning then 1 else 0) + (if v.value.evening then 1 else 0) else 0
    case _ => if NumberOr0(v) > 0 then NumberOr0(v) else 0
  }

  /** The count of activity `a` over the given records. */
  function CountOf(scores: seq<MemberScore>, a: ScoringActivity): (c: nat)
  {
    if scores == [] then 0
    else CountOf(scores[..|scores| - 1], a) + RecordCount(a, LookupValue(scores[|scores| - 1].activities, a.id))
  }

  function OfMember(scores: seq<MemberScore>, memberId: string): seq<MemberScore>
  {
    Filter(scores, (s: MemberScore) => s.memberId == memberId)
  }

  /** The statistic the page shows for one activity and member. */
  function StatOf(monthScores: seq<MemberScore>, a: ScoringActivity, m: Member): MemberStat
  {
    var c := CountOf(OfMember(monthScores, m.id), a);
    MemberStat(m.id, m.name, c, Scale(a.points, c))
  }

  /** What reading one record's value adds to `count` and `totalPoints`. */
  method AddRecord(a: ScoringActivity, v: Option<ActivityValue>, count: nat, totalPoints: int)
    returns (count': nat, totalPoints': int)
    ensures count' == count + RecordCount(a, v)
    ensures totalPoints' == totalPoints + Scale(a.points, RecordCount(a, v))
  {
    count', totalPoints' := count, totalPoints;
    ScaleIsProduct(a.points, 1);
    ScaleIsProduct(a.points, 2);
    match a.entryType {
      case Checkbox =>
        if v == Some(BoolVal(true)) {
          count' := count' + 1;
          totalPoints' := totalPoints' + a.points;
        }
      case CheckboxDouble =>
        if v.Some? && v.value.DualVal? {
          if v.value.morning {
            count' := count' + 1;
            totalPoints' := totalPoints' + a.points;
          }
          if v.value.evening {
            count' := count' + 1;
            totalPoints' := totalPoints' + a.points;
          }
        }
      case _ =>
        var n := NumberOr0(v);
        if n > 0 {
          ScaleIsProduct(a.points, n);
          count' := count' + n;
          totalPoints' := totalPoints' + a.points * n;
        }
    }
  }

  /**
   * The `forEach` over a member's records of the month, adding to `count`
   * and `totalPoints` as each value is read.
   */
  method AccumulateStat(monthScores: seq<MemberScore>, a: ScoringActivity, m: Member) returns (stat: MemberStat)
    ensures stat.memberId == m.id && stat.memberName == m.name
    ensures stat.count == CountOf(OfMember(monthScores, m.id), a)
    ensures stat.totalPoints == Scale(a.points, stat.count)
  {
    var count, totalPoints := AccumulateRecords(OfMember(monthScores, m.id), a);
    stat := MemberStat(m.id, m.name, count, totalPoints);
  }

  /** The loop of `AccumulateStat` over the member's records. */
  method AccumulateRecords(mine: seq<MemberScore>, a: ScoringActivity) returns (count: nat, totalPoints: int)
    ensures count == CountOf(mine, a)
    ensures totalPoints == Scale(a.points, count)
  {
    count, totalPoints := 0, 0;
    var i := 0;
    while i < |mine|
      invariant 0 <= i <= |mine|
      invariant count == CountOf(mine[..i], a)
      invariant totalPoints == Scale(a.points, count)
    {
      var v := LookupValue(mine[i].activities, a.id);
      ghost var count0 := count;
      count, totalPoints := AddRecord(a, v, count, totalPoints);
      ScaleAdd(a.points, count0, RecordCount(a, v));
      CountOfSnoc(mine, i, a);
      i := i + 1;
    }
    assert mine[..i] == mine;
  }

  /** Reading one more record adds its count. */
  lemma CountOfSnoc(scores: seq<MemberScore>, i: int, a: ScoringActivity)
    requires 0 <= i < |scores|
    ensures CountOf(scores[..i + 1], a) == CountOf(scores[..i], a) + RecordCount(a, LookupValue(scores[i].activities, a.id))
  {
    assert scores[..i + 1][..i] == scores[..i];
  }

  /** `p * c` as repeated addition, which the loop's invariant is kept in. */
  function Scale(p: int, c: nat): int
  {
    if c == 0 then 0 else Scale(p, c - 1) + p
  }

  lemma {:induction false} ScaleIsProduct(p: int, c: nat)
    ensures Scale(p, c) == p * c
  {
    if c > 0 {
      ScaleIsProduct(p, c - 1);
    }
  }

  lemma {:induction false} ScaleAdd(p: int, c: nat, d: nat)
    ensures Scale(p, c + d) == Scale(p, c) + Scale(p, d)
  {
    if d > 0 {
      ScaleAdd(p, c, d - 1);
    }
  }

  /** One activity's summary: the members with a positive count, in member order. */
  function SummaryOf(monthScores: seq<MemberScore>, a: ScoringActivity, members: seq<Member>): ActivitySummary
  {
    ActivitySummary(a.id, a.name,
      Filter(MapSeq(members, (m: Member) => StatOf(monthScores, a, m)), (st: MemberStat) => st.count > 0))
  }

  /** The summaries of `loadMonthlySummary`: the activities some member did, in catalog order. */
  function Summaries(cat: seq<ScoringActivity>, members: seq<Member>, all: seq<MemberScore>, month: string): (r: seq<ActivitySummary>)
    ensures |r| <= |cat|
    ensures forall i :: 0 <= i < |r| ==> |r[i].memberStats| > 0
    ensures members == [] ==> r == []
  {
    var monthScores := MonthScores(all, month);
    var shown := MapSeq(cat, (a: ScoringActivity) => SummaryOf(monthScores, a, members));
    assert members == [] ==> forall s :: s in shown ==> s.memberStats == [] by {
      if members == [] {
        forall s | s in shown ensures s.memberStats == [] {
          var k :| 0 <= k < |cat| && shown[k] == s;
        }
      }
    }
    var r := Filter(shown, (s: ActivitySummary) => |s.memberStats| > 0);
    assert r != [] ==> r[0] in shown && |r[0].memberStats| > 0;
    r
  }

  /** The display order of one activity's statistics: by total points, larger first. */
  function DisplayOrder(stats: seq<MemberStat>): (r: seq<MemberStat>)
    ensures multiset(r) == multiset(stats)
  {
    SortBy(stats, (st: MemberStat) => st.totalPoints, AtLeast)
  }

  // ---------------------------------------------------------------------
  // Properties.
  // ---------------------------------------------------------------------

  /** A statistic of an activity's summary is a member's statistic with a positive count. */
  lemma SummaryStatsFromMembers(monthScores: seq<MemberScore>, a: ScoringActivity, members: seq<Member>, j: int)
    requires 0 <= j < |SummaryOf(monthScores, a, members).memberStats|
    ensures var st := SummaryOf(monthScores, a, members).memberStats[j];
      st.count > 0 && st.totalPoints == Scale(a.points, st.count) &&
      exists m :: m in members && st == StatOf(monthScores, a, m)
  {
    var g := (m: Member) => StatOf(monthScores, a, m);
    var st := SummaryOf(monthScores, a, members).memberStats[j];
    assert st in MapSeq(members, g);
    var l :| 0 <= l < |members| && MapSeq(members, g)[l] == st;
    assert st == StatOf(monthScores, a, members[l]);
  }

  /**
   * Every statistic shown has a positive count and points equal to the
   * activity's points times the count; every summary shown has a statistic.
   */
  lemma StatsInvariant(cat: seq<ScoringActivity>, members: seq<Member>, all: seq<MemberScore>, month: string)
    ensures var r := Summaries(cat, members, all, month);
      forall i :: 0 <= i < |r| ==> (|r[i].memberStats| > 0 &&
        exists a :: (a in cat && r[i].activityId == a.id && r[i].activityName == a.name &&
          forall j :: 0 <= j < |r[i].memberStats| ==>
            r[i].memberStats[j].count > 0 && r[i].memberStats[j].totalPoints == a.points * r[i].memberStats[j].count))
  {
    var monthScores := MonthScores(all, month);
    var f := (a: ScoringActivity) => SummaryOf(monthScores, a, members);
    var r := Summaries(cat, members, all, month);
    forall i | 0 <= i < |r|
      ensures exists a :: (a in cat && r[i].activityId == a.id && r[i].activityName == a.name &&
          forall j :: 0 <= j < |r[i].memberStats| ==>
            r[i].memberStats[j].count > 0 && r[i].memberStats[j].totalPoints == a.points * r[i].memberStats[j].count)
    {
      var a := ShownSummaryActivity(cat, f, r[i]);
      SummaryStatsProduct(monthScores, a, members);
    }
  }

  /** A summary in the mapped catalog is the summary of some catalog activity. */
  lemma ShownSummaryActivity(cat: seq<ScoringActivity>, f: ScoringActivity -> ActivitySummary, s: ActivitySummary)
    returns (a: ScoringActivity)
    requires s in MapSeq(cat, f)
    ensures a in cat && s == f(a)
  {
    var k :| 0 <= k < |cat| && MapSeq(cat, f)[k] == s;
    a := cat[k];
  }

  /** Every statistic of one activity's summary has a positive count and its points are the product. */
  lemma SummaryStatsProduct(monthScores: seq<MemberScore>, a: ScoringActivity, members: seq<Member>)
    ensures var st := SummaryOf(monthScores, a, members).memberStats;
      forall j :: 0 <= j < |st| ==> st[j].count > 0 && st[j].totalPoints == a.points * st[j].count
  {
    var st := SummaryOf(monthScores, a, members).memberStats;
    forall j | 0 <= j < |st|
      ensures st[j].count > 0 && st[j].totalPoints == a.points * st[j].count
    {
      SummaryStatsFromMembers(monthScores, a, members, j);
      ScaleIsProduct(a.points, st[j].count);
    }
  }

  /**
   * Every member with a positive count for a catalog activity appears, with
   * that count, in the summary of that activity.
   */
  lemma SummaryComplete(cat: seq<ScoringActivity>, members: seq<Member>, all: seq<MemberScore>, month: string,
                        a: ScoringActivity, m: Member)
    requires a in cat && m in members
    requires CountOf(OfMember(MonthScores(all, month), m.id), a) > 0
    ensures exists i :: (0 <= i < |Summaries(cat, members, all, month)| &&
      Summaries(cat, members, all, month)[i].activityId == a.id &&
      MemberStat(m.id, m.name, CountOf(OfMember(MonthScores(all, month), m.id), a),
                 a.points * CountOf(OfMember(MonthScores(all, month), m.id), a))
        in Summaries(cat, members, all, month)[i].memberStats)
  {
    var monthScores := MonthScores(all, month);
    var f := (a: ScoringActivity) => SummaryOf(monthScores, a, members);
    var g := (m: Member) => StatOf(monthScores, a, m);
    var st := StatOf(monthScores, a, m);
    var l :| 0 <= l < |members| && members[l] == m;
    assert MapSeq(members, g)[l] == st;
    var s := SummaryOf(monthScores, a, members);
    assert st in s.memberStats;
    var k :| 0 <= k < |cat| && cat[k] == a;
    assert MapSeq(cat, f)[k] == s;
    assert s in Summaries(cat, members, all, month);
    ScaleIsProduct(a.points, st.count);
  }

  /** Surviving summaries keep catalog order, and surviving statistics member order. */
  lemma SummaryOrder(cat: seq<ScoringActivity>, members: seq<Member>, all: seq<MemberScore>, month: string)
    ensures IsSubsequence(Summaries(cat, members, all, month),
                          MapSeq(cat, (a: ScoringActivity) => SummaryOf(MonthScores(all, month), a, members)))
    ensures forall a :: IsSubsequence(SummaryOf(MonthScores(all, month), a, members).memberStats,
                                      MapSeq(members, (m: Member) => StatOf(MonthScores(all, month), a, m)))
  {
    var monthScores := MonthScores(all, month);
    FilterIsSubsequence(MapSeq(cat, (a: ScoringActivity) => SummaryOf(monthScores, a, members)),
                        (s: ActivitySummary) => |s.memberStats| > 0);
    forall a ensures IsSubsequence(SummaryOf(monthScores, a, members).memberStats,
                                   MapSeq(members, (m: Member) => StatOf(monthScores, a, m)))
    {
      FilterIsSubsequence(MapSeq(members, (m: Member) => StatOf(monthScores, a, m)), (st: MemberStat) => st.count > 0);
    }
  }

  lemma MonthScoresSkip(a: seq<MemberScore>, r: MemberScore, b: seq<MemberScore>, month: string)
    requires !(month <= r.date)
    ensures MonthScores(a + [r] + b, month) == MonthScores(a + b, month)
  {
    var p := (s: MemberScore) => month <= s.date;
    assert Filter([r], p) == [] by {
      assert [r][1..] == [];
    }
    FilterConcat(a, [r], p);
    assert Filter(a + [r], p) == Filter(a, p);
    FilterConcat(a + [r], b, p);
    FilterConcat(a, b, p);
  }

  /** A record of another month changes no summary. */
  lemma OtherMonthIgnored(cat: seq<ScoringActivity>, members: seq<Member>, a: seq<MemberScore>, r: MemberScore,
                          b: seq<MemberScore>, month: string)
    requires !(month <= r.date)
    ensures Summaries(cat, members, a + [r] + b, month) == Summaries(cat, members, a + b, month)
  {
    MonthScoresSkip(a, r, b, month);
  }

  /**
   * The display order is by total points, larger first, holds the same
   * statistics, and keeps statistics with equal totals in their order.
   */
  lemma DisplayOrderFacts(stats: seq<MemberStat>, total: int)
    ensures var d := DisplayOrder(stats);
      multiset(d) == multiset(stats) &&
      (forall i, j :: 0 <= i < j < |d| ==> d[i].totalPoints >= d[j].totalPoints) &&
      WithKey(d, (st: MemberStat) => st.totalPoints, total) == WithKey(stats, (st: MemberStat) => st.totalPoints, total)
  {
    AtLeastIsTotalPreorder();
    SortBySorted(stats, (st: MemberStat) => st.totalPoints, AtLeast);
    SortByStable(stats, (st: MemberStat) => st.totalPoints, AtLeast, total);
  }

  /**
   * How this page's counting differs from the goal engine's for one stored
   * value: they agree on checkboxes, on double-checkbox pairs and on
   * non-negative numbers, and part where the goal engine counts a bare `true`
   * of a double checkbox as 2, a radio once whatever its value, and a `true`
   * of a number activity as nothing.
   */
  lemma CountingComparedWithGoals(a: ScoringActivity, v: ActivityValue)
    ensures a.entryType == Checkbox ==> RecordCount(a, Some(v)) == GoalProgressEngine.Occurrences(a.entryType, v)
    ensures a.entryType == CheckboxDouble ==>
      (v.DualVal? ==> RecordCount(a, Some(v)) == GoalProgressEngine.Occurrences(a.entryType, v)) &&
      (v == BoolVal(true) ==> RecordCount(a, Some(v)) == 0 && GoalProgressEngine.Occurrences(a.entryType, v) == 2)
    ensures a.entryType == Radio && v.NumVal? && v.n > 0 ==>
      RecordCount(a, Some(v)) == v.n && GoalProgressEngine.Occurrences(a.entryType, v) == 1
    ensures a.entryType == Number ==>
      (v.NumVal? && v.n >= 0 ==> RecordCount(a, Some(v)) == GoalProgressEngine.Occurrences(a.entryType, v)) &&
      (v == BoolVal(true) ==> RecordCount(a, Some(v)) == 1 && GoalProgressEngine.Occurrences(a.entryType, v) == 0)
  {
  }
}
