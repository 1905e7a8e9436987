/**
 * The static catalogs of the application: the group's members and the
 * scoring activities with their points and entry types, and the shapes of a
 * stored day record.
 */
module Catalog {
  import opened Wrappers
  import opened Text

  datatype Member = Member(id: string, name: string)

  /** How an activity is entered: `'checkbox' | 'number' | 'radio' | 'checkbox_double'`. */
  datatype EntryType = Checkbox | Number | Radio | CheckboxDouble

  /**
   * One scorable activity. The optional flags `weekdaysOnly` and `monthlyOnly`
   * are `false` where the catalog leaves them out.
   */
  datatype ScoringActivity = ScoringActivity(
    id: string,
    name: string,
    points: int,
    maxPointsPerDay: Option<int>,
    maxPointsPerMonth: Option<int>,
    entryType: EntryType,
    weekdaysOnly: bool,
    monthlyOnly: bool,
    radioOptions: Option<seq<int>>)

  /**
   * A value stored for one activity on one day: a boolean, an integral
   * number, or the `{morning, evening}` pair of a double checkbox.
   */
  datatype ActivityValue = BoolVal(b: bool) | NumVal(n: int) | DualVal(morning: bool, evening: bool)

  /** One key of a record's `activities` object with its value. */
  datatype ActivityEntry = ActivityEntry(activityId: string, value: ActivityValue)

  /**
   * A member's record of one day. `activities` lists the object's keys in
   * their enumeration order; `totalPoints` is stored with the record.
   */
  datatype MemberScore = MemberScore(
    memberId: string,
    date: string,
    activities: seq<ActivityEntry>,
    totalPoints: int)

  /** `activities[id]`: the value under the first entry with that id, if any. */
  function LookupValue(es: seq<ActivityEntry>, id: string): (r: Option<ActivityValue>)
    ensures r.None? <==> forall k :: 0 <= k < |es| ==> es[k].activityId != id
    ensures r.Some? ==> ActivityEntry(id, r.value) in es
  {
    if es == [] then None
    else if es[0].activityId == id then Some(es[0].value)
    else LookupValue(es[1..], id)
  }

  /** The lookup finds the first entry with the id. */
  lemma {:induction false} LookupValueFirst(es: seq<ActivityEntry>, id: string, k: int)
    requires 0 <= k < |es| && es[k].activityId == id
    requires forall k' :: 0 <= k' < k ==> es[k'].activityId != id
    ensures LookupValue(es, id) == Some(es[k].value)
  {
    if k > 0 {
      assert es[1..][k - 1] == es[k];
      LookupValueFirst(es[1..], id, k - 1);
    }
  }

  const MEMBERS: seq<Member> := [
    Member("1", "Vũ Huy Điệp"),
    Member("2", "Vũ Quang Minh"),
    Member("3", "Bùi Hồng Dương"),
    Member("4", "Hoàng Văn Đào"),
    Member("5", "Nguyễn Tiến Đạt"),
    Member("6", "Vương Văn Chính"),
    Member("7", "Ninh Văn Thành"),
    Member("8", "Ngô Ngọc Phúc"),
    Member("9", "Trương Đình Đạt"),
    Member("10", "Vũ Văn Bảng"),
    Member("11", "Nguyễn Ngọc Khanh"),
    Member("12", "Lê Trung Kiên"),
    Member("13", "Nguyễn Hồng Tam"),
    Member("14", "Đỗ Văn Thoại"),
    Member("15", "Nguyễn Văn Phương"),
    Member("16", "Lê Ngọc Trí"),
    Member("17", "Nguyễn Văn Khôi"),
    Member("18", "Khuất Thanh Duy"),
    Member("19", "Nguyễn Huy Công"),
    Member("20", "Nguyễn Văn Thắng"),
    Member("21", "Đỗ Long Thành"),
    Member("22", "Nguyễn Thái Ất")
  ]

  const SCORING_ACTIVITIES: seq<ScoringActivity> := [
    ScoringActivity("morning_group", "Nhóm sáng: 8h-8h30", 50, Some(50), None, Checkbox, true, false, None),
    ScoringActivity("speech", "Phát biểu 1 bài GĐ", 50, None, None, Number, false, false, None),
    ScoringActivity("edu_complete", "Hoàn thành Edu", 500, None, Some(500), Checkbox, false, true, None),
    ScoringActivity("mypage_complete", "Hoàn thành My page", 100, Some(100), None, Checkbox, false, false, None),
    ScoringActivity("pray_daily", "Praydaily", 50, Some(50), None, Checkbox, false, false, None),
    ScoringActivity("dedication_prayer", "Cầu nguyện hằng hiến", 10, Some(20), None, CheckboxDouble, false, false, None),
    ScoringActivity("other_prayer", "Cầu nguyện khác (3 phút trở lên)", 10, Some(100), None, Number, false, false, None),
    ScoringActivity("teaching_post", "Bốc giáo huấn viết lên nhóm", 10, Some(20), None, Radio, false, false, Some([0, 1, 2])),
    ScoringActivity("letter_to_mother", "Viết thư lên Mẹ", 50, Some(50), None, Number, false, false, None),
    ScoringActivity("gratitude_three", "Viết 3 điều cảm tạ", 50, Some(50), None, Checkbox, false, false, None),
    ScoringActivity("online_preaching", "Truyền đạo trực tuyến", 50, Some(50), None, Checkbox, false, false, None),
    ScoringActivity("ca_trudo", "1 Ca trudo", 200, None, None, Number, false, false, None),
    ScoringActivity("baptism", "Báp têm", 1000, None, None, Number, false, false, None),
    ScoringActivity("pure", "Đơn thuần", 50, None, None, Number, false, false, None),
    ScoringActivity("effective", "Hữu hiệu", 200, None, None, Number, false, false, None),
    ScoringActivity("mymemo", "Nhập Mymemo", 20, None, None, Checkbox, false, false, None)
  ]

  /** `SCORING_ACTIVITIES.find(a => a.id === id)`. */
  function FindActivity(id: string): (r: Option<ScoringActivity>)
    ensures r.Some? ==> r.value in SCORING_ACTIVITIES && r.value.id == id
    ensures r.None? <==> forall a :: a in SCORING_ACTIVITIES ==> a.id != id
  {
    FindActivityIn(SCORING_ACTIVITIES, id)
  }

  /** The first activity of `s` with the id. */
  function FindActivityIn(s: seq<ScoringActivity>, id: string): (r: Option<ScoringActivity>)
    ensures r.Some? ==> r.value in s && r.value.id == id
    ensures r.None? <==> forall a :: a in s ==> a.id != id
  {
    if s == [] then None
    else if s[0].id == id then Some(s[0])
    else FindActivityIn(s[1..], id)
  }

  /** What is found is the entry at the first index holding the id. */
  lemma {:induction false} FindActivityInFirst(s: seq<ScoringActivity>, id: string, k: int)
    requires 0 <= k < |s| && s[k].id == id
    requires forall j :: 0 <= j < k ==> s[j].id != id
    ensures FindActivityIn(s, id) == Some(s[k])
  {
    if k > 0 {
      assert forall j :: 0 <= j < k - 1 ==> s[1..][j] == s[j + 1];
      FindActivityInFirst(s[1..], id, k - 1);
    }
  }


  predicate DistinctActivityIds(s: seq<ScoringActivity>)
  {
    forall i, j :: 0 <= i < j < |s| ==> s[i].id != s[j].id
  }

  lemma CatalogSize()
    ensures |SCORING_ACTIVITIES| == 16 && |MEMBERS| == 22
  {
  }

  /** No two ids share both their first letter and their length. */
  lemma CatalogIdsDistinct()
    ensures DistinctActivityIds(SCORING_ACTIVITIES)
  {
    var s := SCORING_ACTIVITIES;
    forall i, j | 0 <= i < j < |s| ensures s[i].id != s[j].id {
      assert s[i].id[0] != s[j].id[0] || |s[i].id| != |s[j].id|;
    }
  }

  lemma CatalogPointsPositive()
    ensures forall a :: a in SCORING_ACTIVITIES ==> a.points > 0
  {
    forall a | a in SCORING_ACTIVITIES ensures a.points > 0 {
      CatalogMember(a);
    }
  }

  /** Only `edu_complete` is monthly-only and only `morning_group` is weekdays-only. */
  lemma CatalogFlags()
    ensures forall a :: a in SCORING_ACTIVITIES ==> (a.monthlyOnly <==> a.id == "edu_complete")
    ensures forall a :: a in SCORING_ACTIVITIES ==> (a.weekdaysOnly <==> a.id == "morning_group")
  {
    forall a | a in SCORING_ACTIVITIES
      ensures (a.monthlyOnly <==> a.id == "edu_complete") && (a.weekdaysOnly <==> a.id == "morning_group")
    {
      CatalogMember(a);
    }
  }

  /** The one radio activity offers 0, 1 and 2, in ascending order. */
  lemma CatalogRadio()
    ensures forall a :: a in SCORING_ACTIVITIES && a.entryType == Radio ==>
              a.id == "teaching_post" && a.radioOptions == Some([0, 1, 2])
    ensures forall a :: a in SCORING_ACTIVITIES ==> (a.radioOptions.Some? <==> a.entryType == Radio)
  {
    forall a | a in SCORING_ACTIVITIES && a.entryType == Radio
      ensures a.id == "teaching_post" && a.radioOptions == Some([0, 1, 2])
    {
      CatalogMember(a);
    }
  }

  /** Membership in the catalog, as the list of its sixteen entries. */
  lemma CatalogMember(a: ScoringActivity)
    requires a in SCORING_ACTIVITIES
    ensures exists i :: 0 <= i < 16 && a == SCORING_ACTIVITIES[i]
  {
  }

  /** A double checkbox is capped at two times its points per day. */
  lemma CatalogDoubleCap()
    ensures forall a :: a in SCORING_ACTIVITIES && a.entryType == CheckboxDouble ==>
              a.maxPointsPerDay == Some(2 * a.points)
  {
    forall a | a in SCORING_ACTIVITIES && a.entryType == CheckboxDouble
      ensures a.maxPointsPerDay == Some(2 * a.points)
    {
      CatalogMember(a);
    }
  }

  /** A radio activity is capped at its points times its largest option. */
  lemma CatalogRadioCap()
    ensures forall a :: a in SCORING_ACTIVITIES && a.entryType == Radio ==>
              a.radioOptions.Some? && a.radioOptions.value != [] &&
              a.maxPointsPerDay == Some(a.points * a.radioOptions.value[|a.radioOptions.value| - 1])
  {
    forall a | a in SCORING_ACTIVITIES && a.entryType == Radio
      ensures a.radioOptions.Some? && a.radioOptions.value != [] &&
              a.maxPointsPerDay == Some(a.points * a.radioOptions.value[|a.radioOptions.value| - 1])
    {
      CatalogMember(a);
    }
  }

  /** A checkbox with a per-day cap is capped at its points. */
  lemma CatalogCheckboxCap()
    ensures forall a :: a in SCORING_ACTIVITIES && a.entryType == Checkbox && a.maxPointsPerDay.Some? ==>
              a.maxPointsPerDay == Some(a.points)
  {
    forall a | a in SCORING_ACTIVITIES && a.entryType == Checkbox && a.maxPointsPerDay.Some?
      ensures a.maxPointsPerDay == Some(a.points)
    {
      CatalogMember(a);
    }
  }

  /** Member ids are "1" to "22" in order, so they are distinct. */
  lemma MemberIds()
    ensures forall i :: 0 <= i < |MEMBERS| ==> MEMBERS[i].id == NatToString(i + 1)
    ensures forall i, j :: 0 <= i < j < |MEMBERS| ==> MEMBERS[i].id != MEMBERS[j].id
  {
    forall i | 0 <= i < |MEMBERS| ensures MEMBERS[i].id == NatToString(i + 1) {
    }
    forall i, j | 0 <= i < j < |MEMBERS| ensures MEMBERS[i].id != MEMBERS[j].id {
      NatToStringShape(i + 1);
      NatToStringShape(j + 1);
    }
  }
}
