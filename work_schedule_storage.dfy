/**
 * The store of work schedules: one `MemberWorkSchedule` per member, each
 * holding day schedules kept sorted by date.
 */
module WorkScheduleStorage {
  import opened Wrappers
  import opened Text
  import opened Seqs
  import opened Sorting
  import opened WorkCatalog

  /** The sort key of a day schedule. */
  function DateOf(d: DaySchedule): string
  {
    d.date
  }

  /** `allSchedules.findIndex(s => s.memberId === memberId)`, or -1. */
  function MemberIndex(entries: seq<MemberWorkSchedule>, memberId: string): (i: int)
    ensures -1 <= i < |entries|
    ensures i == -1 <==> forall k :: 0 <= k < |entries| ==> entries[k].memberId != memberId
    ensures i >= 0 ==> entries[i].memberId == memberId &&
                       forall k :: 0 <= k < i ==> entries[k].memberId != memberId
  {
    if entries == [] then -1
    else if entries[0].memberId == memberId then 0
    else
      var j := MemberIndex(entries[1..], memberId);
      if j == -1 then -1 else j + 1
  }

  /** `schedules.findIndex(s => s.date === date)`, or -1. */
  function DayIndex(days: seq<DaySchedule>, date: string): (i: int)
    ensures -1 <= i < |days|
    ensures i == -1 <==> forall k :: 0 <= k < |days| ==> days[k].date != date
    ensures i >= 0 ==> days[i].date == date && forall k :: 0 <= k < i ==> days[k].date != date
  {
    if days == [] then -1
    else if days[0].date == date then 0
    else
      var j := DayIndex(days[1..], date);
      if j == -1 then -1 else j + 1
  }

  /** `find(s => s.date === date)`. */
  function FindDay(days: seq<DaySchedule>, date: string): (r: Option<DaySchedule>)
    ensures r.None? <==> forall k :: 0 <= k < |days| ==> days[k].date != date
    ensures r.Some? ==> r.value in days && r.value.date == date
    ensures r.Some? ==> r.value == days[DayIndex(days, date)]
  {
    var i := DayIndex(days, date);
    if i >= 0 then Some(days[i]) else None
  }

  /** The member's schedule list updated with one day: the first of that date replaced, or the day appended. */
  function UpsertDay(days: seq<DaySchedule>, schedule: DaySchedule): (r: seq<DaySchedule>)
    ensures schedule in r
    ensures |r| == |days| || |r| == |days| + 1
    ensures |r| == |days| + 1 <==> forall k :: 0 <= k < |days| ==> days[k].date != schedule.date
    ensures forall k :: 0 <= k < |days| && days[k].date != schedule.date ==> r[k] == days[k]
  {
    var i := DayIndex(days, schedule.date);
    if i >= 0 then
      var r := days[i := schedule];
      assert r[i] == schedule;
      r
    else days + [schedule]
  }

  /** `schedules.sort((a, b) => a.date.localeCompare(b.date))`. */
  function SortByDate(days: seq<DaySchedule>): (r: seq<DaySchedule>)
    ensures multiset(r) == multiset(days)
  {
    SortBy(days, DateOf, LexLe)
  }

  /** The entries after `saveMemberDaySchedule(memberId, schedule)`. */
  function SavedEntries(entries: seq<MemberWorkSchedule>, memberId: string, schedule: DaySchedule): (r: seq<MemberWorkSchedule>)
    ensures |r| == |entries| || |r| == |entries| + 1
    ensures |r| == |entries| + 1 <==> forall k :: 0 <= k < |entries| ==> entries[k].memberId != memberId
    ensures forall k :: 0 <= k < |entries| && entries[k].memberId != memberId ==> r[k] == entries[k]
    ensures MemberIndex(r, memberId) >= 0
  {
    var i := MemberIndex(entries, memberId);
    var base := if i >= 0 then entries else entries + [MemberWorkSchedule(memberId, [])];
    var j := if i >= 0 then i else |entries|;
    var r := base[j := MemberWorkSchedule(memberId, SortByDate(UpsertDay(base[j].schedules, schedule)))];
    assert r[j].memberId == memberId;
    r
  }

  /** The week filter: `s.date >= startDate && s.date <= endDate`; no day is in a week that ends before it starts. */
  predicate InWeek(d: DaySchedule, startDate: string, endDate: string)
    ensures InWeek(d, startDate, endDate) ==> LexLe(startDate, endDate)
  {
    if LexLe(startDate, d.date) && LexLe(d.date, endDate) then
      LexLeTransitive(startDate, d.date, endDate);
      true
    else false
  }

  /** The days of `days` within the week, in their order. */
  function WeekDays(days: seq<DaySchedule>, startDate: string, endDate: string): (r: seq<DaySchedule>)
    ensures forall k :: 0 <= k < |r| ==> InWeek(r[k], startDate, endDate)
    ensures IsSubsequence(r, days)
    ensures forall d :: d in days && InWeek(d, startDate, endDate) ==> d in r
    ensures forall d :: multiset(r)[d] == if InWeek(d, startDate, endDate) then multiset(days)[d] else 0
  {
    var r := Filter(days, (d: DaySchedule) => InWeek(d, startDate, endDate));
    FilterIsSubsequence(days, (d: DaySchedule) => InWeek(d, startDate, endDate));
    FilterMultiset(days, (d: DaySchedule) => InWeek(d, startDate, endDate));
    FilterMembership(days, (d: DaySchedule) => InWeek(d, startDate, endDate));
    r
  }

  class ScheduleStore {
    /** The parsed contents of the `church_work_schedules` key. */
    var entries: seq<MemberWorkSchedule>

    constructor(stored: seq<MemberWorkSchedule>)
      ensures entries == stored
    {
      entries := stored;
    }

    /**
     * `getMemberDaySchedule`: the first schedule of the date in the member's
     * first entry; nothing for an unknown member or a date the entry lacks.
     */
    function GetMemberDaySchedule(memberId: string, date: string): (r: Option<DaySchedule>)
      reads this
      ensures MemberIndex(entries, memberId) == -1 ==> r.None?
      ensures MemberIndex(entries, memberId) >= 0 ==>
        (r.None? <==> forall d :: d in entries[MemberIndex(entries, memberId)].schedules ==> d.date != date)
      ensures r.Some? ==> r.value.date == date && r.value in entries[MemberIndex(entries, memberId)].schedules
      ensures r.Some? ==>
        var days := entries[MemberIndex(entries, memberId)].schedules;
        r.value == days[DayIndex(days, date)] &&
        forall k :: 0 <= k < DayIndex(days, date) ==> days[k].date != date
    {
      var i := MemberIndex(entries, memberId);
      if i >= 0 then FindDay(entries[i].schedules, date) else None
    }

    /** `getMemberSchedulesForWeek`: the member's days between the two dates, in stored order. */
    function GetMemberSchedulesForWeek(memberId: string, startDate: string, endDate: string): (r: seq<DaySchedule>)
      reads this
      ensures MemberIndex(entries, memberId) == -1 ==> r == []
      ensures forall k :: 0 <= k < |r| ==> InWeek(r[k], startDate, endDate)
      ensures MemberIndex(entries, memberId) >= 0 ==>
        var days := entries[MemberIndex(entries, memberId)].schedules;
        IsSubsequence(r, days) && forall d :: d in days && InWeek(d, startDate, endDate) ==> d in r
      ensures MemberIndex(entries, memberId) >= 0 ==>
        var days := entries[MemberIndex(entries, memberId)].schedules;
        forall d :: multiset(r)[d] == if InWeek(d, startDate, endDate) then multiset(days)[d] else 0
    {
      var i := MemberIndex(entries, memberId);
      if i >= 0 then WeekDays(entries[i].schedules, startDate, endDate) else []
    }

    /** `saveMemberDaySchedule`, its local part. */
    method SaveMemberDaySchedule(memberId: string, schedule: DaySchedule)
      modifies this
      ensures entries == SavedEntries(old(entries), memberId, schedule)
      ensures GetMemberDaySchedule(memberId, schedule.date) == Some(schedule)
    {
      GetAfterSaveSchedule(entries, memberId, schedule);
      var i := MemberIndex(entries, memberId);
      if i < 0 {
        entries := entries + [MemberWorkSchedule(memberId, [])];
        i := |entries| - 1;
      }
      var days := entries[i].schedules;
      var existing := DayIndex(days, schedule.date);
      if existing >= 0 {
        days := days[existing := schedule];
      } else {
        days := days + [schedule];
      }
      days := SortByDate(days);
      entries := entries[i := MemberWorkSchedule(memberId, days)];
    }
  }

  // ---------------------------------------------------------------------
  // Properties.
  // ---------------------------------------------------------------------

  lemma LexLeIsTotalPreorder()
    ensures Total(LexLe) && Transitive(LexLe)
  {
    forall a, b ensures LexLe(a, b) || LexLe(b, a) {
      LexLeTotal(a, b);
    }
    forall a, b, c | LexLe(a, b) && LexLe(b, c) ensures LexLe(a, c) {
      LexLeTransitive(a, b, c);
    }
  }

  /** The first day with a date is the first of the days `WithKey` keeps for it. */
  lemma {:induction false} FindDayIsFirstWithKey(days: seq<DaySchedule>, date: string)
    ensures FindDay(days, date) == if WithKey(days, DateOf, date) == [] then None else Some(WithKey(days, DateOf, date)[0])
  {
    if days != [] {
      FindDayIsFirstWithKey(days[1..], date);
    }
  }

  /** After the upsert, the first day with the schedule's date is the schedule. */
  lemma UpsertDayFinds(days: seq<DaySchedule>, schedule: DaySchedule)
    ensures FindDay(UpsertDay(days, schedule), schedule.date) == Some(schedule)
  {
    var r := UpsertDay(days, schedule);
    var i := DayIndex(days, schedule.date);
    var j := if i >= 0 then i else |days|;
    DayIndexAt(r, schedule.date, j);
  }

  lemma DayIndexAt(days: seq<DaySchedule>, date: string, i: int)
    requires 0 <= i < |days| && days[i].date == date
    requires forall k :: 0 <= k < i ==> days[k].date != date
    ensures DayIndex(days, date) == i
  {
  }

  lemma MemberIndexAt(entries: seq<MemberWorkSchedule>, memberId: string, i: int)
    requires 0 <= i < |entries| && entries[i].memberId == memberId
    requires forall k :: 0 <= k < i ==> entries[k].memberId != memberId
    ensures MemberIndex(entries, memberId) == i
  {
  }

  /**
   * The member's entry is found where it was, or appended when new; its
   * days are sorted by date; every other entry is unchanged.
   */
  lemma SavedEntriesShape(entries: seq<MemberWorkSchedule>, memberId: string, schedule: DaySchedule)
    ensures var i := MemberIndex(entries, memberId);
      var r := SavedEntries(entries, memberId, schedule);
      var j := MemberIndex(r, memberId);
      (i >= 0 ==> |r| == |entries| && j == i) &&
      (i == -1 ==> |r| == |entries| + 1 && j == |entries|) &&
      0 <= j < |r| &&
      r[j].memberId == memberId &&
      SortedBy(r[j].schedules, DateOf, LexLe) &&
      multiset(r[j].schedules) == multiset(UpsertDay(if i >= 0 then entries[i].schedules else [], schedule)) &&
      (forall k :: 0 <= k < |entries| && k != j ==> r[k] == entries[k])
  {
    var i := MemberIndex(entries, memberId);
    var r := SavedEntries(entries, memberId, schedule);
    MemberIndexAt(r, memberId, if i >= 0 then i else |entries|);
    LexLeIsTotalPreorder();
    var base := if i >= 0 then entries else entries + [MemberWorkSchedule(memberId, [])];
    var jj := if i >= 0 then i else |entries|;
    SortBySorted(UpsertDay(base[jj].schedules, schedule), DateOf, LexLe);
  }

  /** After a save, `getMemberDaySchedule(memberId, schedule.date)` returns the schedule. */
  lemma GetAfterSaveSchedule(entries: seq<MemberWorkSchedule>, memberId: string, schedule: DaySchedule)
    ensures var r := SavedEntries(entries, memberId, schedule);
      var j := MemberIndex(r, memberId);
      j >= 0 && FindDay(r[j].schedules, schedule.date) == Some(schedule)
  {
    var i := MemberIndex(entries, memberId);
    var r := SavedEntries(entries, memberId, schedule);
    var base := if i >= 0 then entries else entries + [MemberWorkSchedule(memberId, [])];
    var jj := if i >= 0 then i else |entries|;
    MemberIndexAt(r, memberId, jj);
    var upd := UpsertDay(base[jj].schedules, schedule);
    UpsertDayFinds(base[jj].schedules, schedule);
    LexLeIsTotalPreorder();
    FirstWithKeyStable(upd, DateOf, LexLe, schedule.date);
    FindDayIsFirstWithKey(upd, schedule.date);
    FindDayIsFirstWithKey(SortByDate(upd), schedule.date);
  }

  /** A save for one member changes nothing another member's queries see. */
  lemma OtherMembersUnchanged(entries: seq<MemberWorkSchedule>, memberId: string, schedule: DaySchedule, other: string)
    requires other != memberId
    ensures var r := SavedEntries(entries, memberId, schedule);
      (MemberIndex(r, other) == -1 <==> MemberIndex(entries, other) == -1) &&
      (MemberIndex(entries, other) >= 0 ==> r[MemberIndex(r, other)] == entries[MemberIndex(entries, other)])
  {
    var r := SavedEntries(entries, memberId, schedule);
    SavedEntriesIds(entries, memberId, schedule);
    var k := MemberIndex(entries, other);
    if k >= 0 {
      MemberIndexAt(r, other, k);
    } else {
      assert forall n :: 0 <= n < |r| ==> r[n].memberId != other;
    }
  }

  /**
   * A save keeps every entry's member id where it was and changes only the
   * saving member's entry; a new member's entry is the one appended.
   */
  lemma SavedEntriesIds(entries: seq<MemberWorkSchedule>, memberId: string, schedule: DaySchedule)
    ensures var r := SavedEntries(entries, memberId, schedule);
      |entries| <= |r| <= |entries| + 1 &&
      (forall n :: 0 <= n < |entries| ==> r[n].memberId == entries[n].memberId) &&
      (forall n :: 0 <= n < |entries| && entries[n].memberId != memberId ==> r[n] == entries[n]) &&
      (|r| > |entries| ==> r[|entries|].memberId == memberId)
  {
  }

  /** No two days share a date. */
  predicate DistinctDates(days: seq<DaySchedule>)
  {
    forall i, j :: 0 <= i < j < |days| ==> days[i].date != days[j].date
  }

  /** Distinct dates: no date keeps more than one day, and the converse. */
  lemma {:induction false} DistinctKeysAtMostOne(days: seq<DaySchedule>)
    requires DistinctDates(days)
    ensures forall d :: |WithKey(days, DateOf, d)| <= 1
  {
    if days != [] {
      var t := days[1..];
      assert DistinctDates(t) by {
        forall i, j | 0 <= i < j < |t| ensures t[i].date != t[j].date {
          assert t[i] == days[i + 1] && t[j] == days[j + 1];
        }
      }
      DistinctKeysAtMostOne(t);
      forall d ensures |WithKey(days, DateOf, d)| <= 1 {
        assert days == [days[0]] + t;
        WithKeyCons(days[0], t, DateOf, d);
        if d == days[0].date {
          forall k | 0 <= k < |t| ensures t[k].date != d {
            assert t[k] == days[k + 1];
          }
          NoKeyEmpty(t, d);
        }
      }
    }
  }

  lemma {:induction false} AtMostOneDistinct(days: seq<DaySchedule>)
    requires forall d :: |WithKey(days, DateOf, d)| <= 1
    ensures DistinctDates(days)
  {
    if days != [] {
      var t := days[1..];
      assert days == [days[0]] + t;
      forall d ensures |WithKey(t, DateOf, d)| <= 1 {
        WithKeyCons(days[0], t, DateOf, d);
        assert |WithKey(days, DateOf, d)| <= 1;
      }
      AtMostOneDistinct(t);
      forall i, j | 0 <= i < j < |days| ensures days[i].date != days[j].date {
        if i == 0 {
          WithKeyCons(days[0], t, DateOf, days[0].date);
          assert |WithKey(days, DateOf, days[0].date)| <= 1;
          KeyEmptyNone(t, days[0].date, j - 1);
          assert t[j - 1] == days[j];
        } else {
          assert days[i] == t[i - 1] && days[j] == t[j - 1];
        }
      }
    }
  }

  lemma {:induction false} NoKeyEmpty(days: seq<DaySchedule>, d: string)
    requires forall k :: 0 <= k < |days| ==> days[k].date != d
    ensures WithKey(days, DateOf, d) == []
  {
    if days != [] {
      NoKeyEmpty(days[1..], d);
    }
  }

  lemma {:induction false} KeyEmptyNone(days: seq<DaySchedule>, d: string, k: int)
    requires WithKey(days, DateOf, d) == [] && 0 <= k < |days|
    ensures days[k].date != d
  {
    if k > 0 {
      KeyEmptyNone(days[1..], d, k - 1);
    }
  }

  /** An upsert keeps dates distinct. */
  lemma UpsertKeepsDistinct(days: seq<DaySchedule>, schedule: DaySchedule)
    requires DistinctDates(days)
    ensures DistinctDates(UpsertDay(days, schedule))
  {
  }

  /** If the member's dates were distinct before a save, they are distinct after it. */
  lemma SaveKeepsDistinct(entries: seq<MemberWorkSchedule>, memberId: string, schedule: DaySchedule)
    requires MemberIndex(entries, memberId) >= 0 ==> DistinctDates(entries[MemberIndex(entries, memberId)].schedules)
    ensures var r := SavedEntries(entries, memberId, schedule);
      MemberIndex(r, memberId) >= 0 && DistinctDates(r[MemberIndex(r, memberId)].schedules)
  {
    var i := MemberIndex(entries, memberId);
    var r := SavedEntries(entries, memberId, schedule);
    var base := if i >= 0 then entries else entries + [MemberWorkSchedule(memberId, [])];
    var jj := if i >= 0 then i else |entries|;
    MemberIndexAt(r, memberId, jj);
    var upd := UpsertDay(base[jj].schedules, schedule);
    UpsertKeepsDistinct(base[jj].schedules, schedule);
    DistinctKeysAtMostOne(upd);
    LexLeIsTotalPreorder();
    forall d ensures |WithKey(SortByDate(upd), DateOf, d)| <= 1 {
      SortByStable(upd, DateOf, LexLe, d);
    }
    AtMostOneDistinct(SortByDate(upd));
  }
}
