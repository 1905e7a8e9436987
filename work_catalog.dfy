/**
 * The work-activity codes offered in the weekly schedule, and the shape of a
 * day's schedule: one optional activity code per time slot.
 */
module WorkCatalog {
  import opened Wrappers
  import opened Text

  /** A work activity; its long description is display text and is not kept. */
  datatype WorkActivity = WorkActivity(code: string, name: string)

  /**
   * `WORK_ACTIVITIES`, in the order the catalog lists them; it is written as the
   * concatenation of its runs of codes that share their first two digits.
   */
  const WORK_ACTIVITIES: seq<WorkActivity> := CODES_10X + CODES_11X + CODES_12X + CODES_20X + CODES_21X + CODES_30X + CODES_40X + CODES_50X

  /** Direct preaching (101-105). */
  const CODES_10X: seq<WorkActivity> := [
    WorkActivity("101", "Truyền đạo gõ cửa"),
    WorkActivity("102", "Truyền đạo đường phố"),
    WorkActivity("103", "Truyền đạo trại"),
    WorkActivity("104", "Truyền đạo sự kiện"),
    WorkActivity("105", "Truyền đạo liên kết")
  ]

  /** Preaching by audience (110-118). */
  const CODES_11X: seq<WorkActivity> := [
    WorkActivity("110", "Truyền đạo gia đình"),
    WorkActivity("111", "Truyền đạo người đi làm"),
    WorkActivity("112", "Truyền đạo bộ đội"),
    WorkActivity("113", "Truyền đạo sinh viên"),
    WorkActivity("114", "Truyền đạo học sinh"),
    WorkActivity("115", "Truyền đạo thương gia"),
    WorkActivity("116", "Truyền đạo cơ quan"),
    WorkActivity("117", "Truyền đạo hàng xóm"),
    WorkActivity("118", "Truyền đạo loại hình khác")
  ]

  /** Preaching support (120-127). */
  const CODES_12X: seq<WorkActivity> := [
    WorkActivity("120", "Hoạt động phụng sự"),
    WorkActivity("121", "Hoạt động quảng bá"),
    WorkActivity("122", "Truyền đạo đối ứng"),
    WorkActivity("123", "Hỗ trợ truyền đạo"),
    WorkActivity("124", "Hành chính truyền đạo"),
    WorkActivity("125", "Tài liệu truyền đạo"),
    WorkActivity("126", "Hỗ trợ truyền đạo loại hình khác"),
    WorkActivity("127", "Truyền giáo trực tuyến")
  ]

  /** Education by audience (201-207). */
  const CODES_20X: seq<WorkActivity> := [
    WorkActivity("201", "Giáo dục thánh đồ mới"),
    WorkActivity("202", "Giáo dục thánh đồ không phải người truyền đạo"),
    WorkActivity("203", "Giáo dục người truyền đạo"),
    WorkActivity("204", "Giáo dục người chức phận chức trách"),
    WorkActivity("205", "Giáo dục đào tạo người chăn"),
    WorkActivity("206", "Giáo dục người chăn"),
    WorkActivity("207", "Giáo dục khác")
  ]

  /** Education support (210-213). */
  const CODES_21X: seq<WorkActivity> := [
    WorkActivity("210", "Tài liệu giáo dục"),
    WorkActivity("211", "Hỗ trợ giáo dục"),
    WorkActivity("212", "Quản lý thánh đồ"),
    WorkActivity("213", "Hỗ trợ giáo dục khác")
  ]

  /** Worship (301-306). */
  const CODES_30X: seq<WorkActivity> := [
    WorkActivity("301", "Thờ phượng hàng tuần"),
    WorkActivity("302", "Thờ phượng lễ trọng thể"),
    WorkActivity("303", "Thờ phượng kỷ niệm"),
    WorkActivity("304", "Tài liệu thờ phượng"),
    WorkActivity("305", "Sự kiện thờ phượng khác"),
    WorkActivity("306", "Education Event")
  ]

  /** Administration (401-409). */
  const CODES_40X: seq<WorkActivity> := [
    WorkActivity("401", "Hành chính nhân sự"),
    WorkActivity("402", "Hành chính tài vụ"),
    WorkActivity("403", "Hành chính pháp lý"),
    WorkActivity("404", "Hành chính thư ký"),
    WorkActivity("405", "Hành chính điện toán"),
    WorkActivity("406", "Hành chính thư vụ"),
    WorkActivity("407", "Quản lý tài sản"),
    WorkActivity("408", "Phúc lợi"),
    WorkActivity("409", "Hành chính khác")
  ]

  /** Temple and facilities (501-502). */
  const CODES_50X: seq<WorkActivity> := [
    WorkActivity("501", "Xây dựng đền thờ"),
    WorkActivity("502", "Quản lý trang thiết bị")
  ]

  /** `'morning' | 'afternoon' | 'evening'`. */
  datatype TimeSlot = Morning | Afternoon | Evening

  /** One day of a member's schedule; an absent slot is `None`. */
  datatype DaySchedule = DaySchedule(
    date: string,
    morning: Option<string>,
    afternoon: Option<string>,
    evening: Option<string>)
  {
    /** The code stored for `slot` (`schedule[slot]`). */
    function Slot(slot: TimeSlot): Option<string>
    {
      match slot
      case Morning => morning
      case Afternoon => afternoon
      case Evening => evening
    }
  }

  /** All stored schedules of one member. */
  datatype MemberWorkSchedule = MemberWorkSchedule(memberId: string, schedules: seq<DaySchedule>)

  /** `WORK_ACTIVITIES.find(a => a.code === code)`. */
  function FindWorkActivity(code: string): (r: Option<WorkActivity>)
    ensures r.Some? ==> r.value in WORK_ACTIVITIES && r.value.code == code
    ensures r.None? <==> forall a :: a in WORK_ACTIVITIES ==> a.code != code
  {
    FindWorkActivityIn(WORK_ACTIVITIES, code)
  }

  /** The first entry of `s` with the code. */
  function FindWorkActivityIn(s: seq<WorkActivity>, code: string): (r: Option<WorkActivity>)
    ensures r.Some? ==> r.value in s && r.value.code == code
    ensures r.None? <==> forall a :: a in s ==> a.code != code
  {
    if s == [] then None
    else if s[0].code == code then Some(s[0])
    else FindWorkActivityIn(s[1..], code)
  }

  /** What is found is the entry at the first index holding the code. */
  lemma {:induction false} FindWorkActivityInFirst(s: seq<WorkActivity>, code: string, k: int)
    requires 0 <= k < |s| && s[k].code == code
    requires forall j :: 0 <= j < k ==> s[j].code != code
    ensures FindWorkActivityIn(s, code) == Some(s[k])
  {
    if k > 0 {
      assert forall j :: 0 <= j < k - 1 ==> s[1..][j] == s[j + 1];
      FindWorkActivityInFirst(s[1..], code, k - 1);
    }
  }


  /** Each code is strictly before the next one in string order. */
  predicate AscendingCodes(s: seq<WorkActivity>)
  {
    forall i :: 0 < i < |s| ==> LexLess(s[i - 1].code, s[i].code)
  }

  /** A code is three decimal digits, the first from 1 to 5. */
  predicate WellFormedCode(code: string)
  {
    |code| == 3 && '1' <= code[0] <= '5' && IsDigit(code[1]) && IsDigit(code[2])
  }

  predicate AllWellFormed(s: seq<WorkActivity>)
  {
    forall a :: a in s ==> WellFormedCode(a.code)
  }

  lemma Codes10XChecked()
    ensures |CODES_10X| == 5 && CODES_10X[0].code == "101" && CODES_10X[4].code == "105"
    ensures AscendingCodes(CODES_10X) && AllWellFormed(CODES_10X)
  {
    forall i | 0 < i < |CODES_10X| ensures LexLess(CODES_10X[i - 1].code, CODES_10X[i].code) {
      if i == 1 { assert LexLess(CODES_10X[0].code, CODES_10X[1].code); }
      else if i == 2 { assert LexLess(CODES_10X[1].code, CODES_10X[2].code); }
      else if i == 3 { assert LexLess(CODES_10X[2].code, CODES_10X[3].code); }
      else if i == 4 { assert LexLess(CODES_10X[3].code, CODES_10X[4].code); }
    }
    forall i | 0 <= i < |CODES_10X| ensures WellFormedCode(CODES_10X[i].code) {
    }
  }

  lemma Codes11XChecked()
    ensures |CODES_11X| == 9 && CODES_11X[0].code == "110" && CODES_11X[8].code == "118"
    ensures AscendingCodes(CODES_11X) && AllWellFormed(CODES_11X)
  {
    forall i | 0 < i < |CODES_11X| ensures LexLess(CODES_11X[i - 1].code, CODES_11X[i].code) {
      if i == 1 { assert LexLess(CODES_11X[0].code, CODES_11X[1].code); }
      else if i == 2 { assert LexLess(CODES_11X[1].code, CODES_11X[2].code); }
      else if i == 3 { assert LexLess(CODES_11X[2].code, CODES_11X[3].code); }
      else if i == 4 { assert LexLess(CODES_11X[3].code, CODES_11X[4].code); }
      else if i == 5 { assert LexLess(CODES_11X[4].code, CODES_11X[5].code); }
      else if i == 6 { assert LexLess(CODES_11X[5].code, CODES_11X[6].code); }
      else if i == 7 { assert LexLess(CODES_11X[6].code, CODES_11X[7].code); }
      else if i == 8 { assert LexLess(CODES_11X[7].code, CODES_11X[8].code); }
    }
    forall i | 0 <= i < |CODES_11X| ensures WellFormedCode(CODES_11X[i].code) {
    }
  }

  lemma Codes12XChecked()
    ensures |CODES_12X| == 8 && CODES_12X[0].code == "120" && CODES_12X[7].code == "127"
    ensures AscendingCodes(CODES_12X) && AllWellFormed(CODES_12X)
  {
    forall i | 0 < i < |CODES_12X| ensures LexLess(CODES_12X[i - 1].code, CODES_12X[i].code) {
      if i == 1 { assert LexLess(CODES_12X[0].code, CODES_12X[1].code); }
      else if i == 2 { assert LexLess(CODES_12X[1].code, CODES_12X[2].code); }
      else if i == 3 { assert LexLess(CODES_12X[2].code, CODES_12X[3].code); }
      else if i == 4 { assert LexLess(CODES_12X[3].code, CODES_12X[4].code); }
      else if i == 5 { assert LexLess(CODES_12X[4].code, CODES_12X[5].code); }
      else if i == 6 { assert LexLess(CODES_12X[5].code, CODES_12X[6].code); }
      else if i == 7 { assert LexLess(CODES_12X[6].code, CODES_12X[7].code); }
    }
    forall i | 0 <= i < |CODES_12X| ensures WellFormedCode(CODES_12X[i].code) {
    }
  }

  lemma Codes20XChecked()
    ensures |CODES_20X| == 7 && CODES_20X[0].code == "201" && CODES_20X[6].code == "207"
    ensures AscendingCodes(CODES_20X) && AllWellFormed(CODES_20X)
  {
    forall i | 0 < i < |CODES_20X| ensures LexLess(CODES_20X[i - 1].code, CODES_20X[i].code) {
      if i == 1 { assert LexLess(CODES_20X[0].code, CODES_20X[1].code); }
      else if i == 2 { assert LexLess(CODES_20X[1].code, CODES_20X[2].code); }
      else if i == 3 { assert LexLess(CODES_20X[2].code, CODES_20X[3].code); }
      else if i == 4 { assert LexLess(CODES_20X[3].code, CODES_20X[4].code); }
      else if i == 5 { assert LexLess(CODES_20X[4].code, CODES_20X[5].code); }
      else if i == 6 { assert LexLess(CODES_20X[5].code, CODES_20X[6].code); }
    }
    forall i | 0 <= i < |CODES_20X| ensures WellFormedCode(CODES_20X[i].code) {
    }
  }

  lemma Codes21XChecked()
    ensures |CODES_21X| == 4 && CODES_21X[0].code == "210" && CODES_21X[3].code == "213"
    ensures AscendingCodes(CODES_21X) && AllWellFormed(CODES_21X)
  {
    forall i | 0 < i < |CODES_21X| ensures LexLess(CODES_21X[i - 1].code, CODES_21X[i].code) {
      if i == 1 { assert LexLess(CODES_21X[0].code, CODES_21X[1].code); }
      else if i == 2 { assert LexLess(CODES_21X[1].code, CODES_21X[2].code); }
      else if i == 3 { assert LexLess(CODES_21X[2].code, CODES_21X[3].code); }
    }
    forall i | 0 <= i < |CODES_21X| ensures WellFormedCode(CODES_21X[i].code) {
    }
  }

  lemma Codes30XChecked()
    ensures |CODES_30X| == 6 && CODES_30X[0].code == "301" && CODES_30X[5].code == "306"
    ensures AscendingCodes(CODES_30X) && AllWellFormed(CODES_30X)
  {
    forall i | 0 < i < |CODES_30X| ensures LexLess(CODES_30X[i - 1].code, CODES_30X[i].code) {
      if i == 1 { assert LexLess(CODES_30X[0].code, CODES_30X[1].code); }
      else if i == 2 { assert LexLess(CODES_30X[1].code, CODES_30X[2].code); }
      else if i == 3 { assert LexLess(CODES_30X[2].code, CODES_30X[3].code); }
      else if i == 4 { assert LexLess(CODES_30X[3].code, CODES_30X[4].code); }
      else if i == 5 { assert LexLess(CODES_30X[4].code, CODES_30X[5].code); }
    }
    forall i | 0 <= i < |CODES_30X| ensures WellFormedCode(CODES_30X[i].code) {
    }
  }

  lemma Codes40XChecked()
    ensures |CODES_40X| == 9 && CODES_40X[0].code == "401" && CODES_40X[8].code == "409"
    ensures AscendingCodes(CODES_40X) && AllWellFormed(CODES_40X)
  {
    forall i | 0 < i < |CODES_40X| ensures LexLess(CODES_40X[i - 1].code, CODES_40X[i].code) {
      if i == 1 { assert LexLess(CODES_40X[0].code, CODES_40X[1].code); }
      else if i == 2 { assert LexLess(CODES_40X[1].code, CODES_40X[2].code); }
      else if i == 3 { assert LexLess(CODES_40X[2].code, CODES_40X[3].code); }
      else if i == 4 { assert LexLess(CODES_40X[3].code, CODES_40X[4].code); }
      else if i == 5 { assert LexLess(CODES_40X[4].code, CODES_40X[5].code); }
      else if i == 6 { assert LexLess(CODES_40X[5].code, CODES_40X[6].code); }
      else if i == 7 { assert LexLess(CODES_40X[6].code, CODES_40X[7].code); }
      else if i == 8 { assert LexLess(CODES_40X[7].code, CODES_40X[8].code); }
    }
    forall i | 0 <= i < |CODES_40X| ensures WellFormedCode(CODES_40X[i].code) {
    }
  }

  lemma Codes50XChecked()
    ensures |CODES_50X| == 2 && CODES_50X[0].code == "501" && CODES_50X[1].code == "502"
    ensures AscendingCodes(CODES_50X) && AllWellFormed(CODES_50X)
  {
    forall i | 0 < i < |CODES_50X| ensures LexLess(CODES_50X[i - 1].code, CODES_50X[i].code) {
      if i == 1 { assert LexLess(CODES_50X[0].code, CODES_50X[1].code); }
    }
    forall i | 0 <= i < |CODES_50X| ensures WellFormedCode(CODES_50X[i].code) {
    }
  }

  lemma AscendingConcat(a: seq<WorkActivity>, b: seq<WorkActivity>)
    requires AscendingCodes(a) && AscendingCodes(b) && AllWellFormed(a) && AllWellFormed(b)
    requires a != [] && b != [] && LexLess(a[|a| - 1].code, b[0].code)
    ensures AscendingCodes(a + b) && AllWellFormed(a + b)
    ensures |a + b| == |a| + |b| && (a + b)[0] == a[0] && (a + b)[|a + b| - 1] == b[|b| - 1]
  {
    var s := a + b;
    forall i | 0 < i < |s| ensures LexLess(s[i - 1].code, s[i].code) {
      if i < |a| {
        assert s[i - 1] == a[i - 1] && s[i] == a[i];
      } else if i == |a| {
        assert s[i - 1] == a[|a| - 1] && s[i] == b[0];
      } else {
        assert s[i - 1] == b[i - 1 - |a|] && s[i] == b[i - |a|];
      }
    }
  }

  lemma PrefixThrough11X()
    ensures |CODES_10X + CODES_11X| == 14 && (CODES_10X + CODES_11X)[13].code == "118"
    ensures AscendingCodes(CODES_10X + CODES_11X) && AllWellFormed(CODES_10X + CODES_11X)
  {
    Codes10XChecked();
    Codes11XChecked();
    AscendingConcat(CODES_10X, CODES_11X);
  }

  lemma PrefixThrough12X()
    ensures |CODES_10X + CODES_11X + CODES_12X| == 22 && (CODES_10X + CODES_11X + CODES_12X)[21].code == "127"
    ensures AscendingCodes(CODES_10X + CODES_11X + CODES_12X) && AllWellFormed(CODES_10X + CODES_11X + CODES_12X)
  {
    PrefixThrough11X();
    Codes12XChecked();
    AscendingConcat(CODES_10X + CODES_11X, CODES_12X);
  }

  lemma PrefixThrough20X()
    ensures |CODES_10X + CODES_11X + CODES_12X + CODES_20X| == 29 && (CODES_10X + CODES_11X + CODES_12X + CODES_20X)[28].code == "207"
    ensures AscendingCodes(CODES_10X + CODES_11X + CODES_12X + CODES_20X) && AllWellFormed(CODES_10X + CODES_11X + CODES_12X + CODES_20X)
  {
    PrefixThrough12X();
    Codes20XChecked();
    AscendingConcat(CODES_10X + CODES_11X + CODES_12X, CODES_20X);
  }

  lemma PrefixThrough21X()
    ensures |CODES_10X + CODES_11X + CODES_12X + CODES_20X + CODES_21X| == 33 && (CODES_10X + CODES_11X + CODES_12X + CODES_20X + CODES_21X)[32].code == "213"
    ensures AscendingCodes(CODES_10X + CODES_11X + CODES_12X + CODES_20X + CODES_21X) && AllWellFormed(CODES_10X + CODES_11X + CODES_12X + CODES_20X + CODES_21X)
  {
    PrefixThrough20X();
    Codes21XChecked();
    AscendingConcat(CODES_10X + CODES_11X + CODES_12X + CODES_20X, CODES_21X);
  }

  lemma PrefixThrough30X()
    ensures |CODES_10X + CODES_11X + CODES_12X + CODES_20X + CODES_21X + CODES_30X| == 39 && (CODES_10X + CODES_11X + CODES_12X + CODES_20X + CODES_21X + CODES_30X)[38].code == "306"
    ensures AscendingCodes(CODES_10X + CODES_11X + CODES_12X + CODES_20X + CODES_21X + CODES_30X) && AllWellFormed(CODES_10X + CODES_11X + CODES_12X + CODES_20X + CODES_21X + CODES_30X)
  {
    PrefixThrough21X();
    Codes30XChecked();
    AscendingConcat(CODES_10X + CODES_11X + CODES_12X + CODES_20X + CODES_21X, CODES_30X);
  }

  lemma PrefixThrough40X()
    ensures |CODES_10X + CODES_11X + CODES_12X + CODES_20X + CODES_21X + CODES_30X + CODES_40X| == 48 && (CODES_10X + CODES_11X + CODES_12X + CODES_20X + CODES_21X + CODES_30X + CODES_40X)[47].code == "409"
    ensures AscendingCodes(CODES_10X + CODES_11X + CODES_12X + CODES_20X + CODES_21X + CODES_30X + CODES_40X) && AllWellFormed(CODES_10X + CODES_11X + CODES_12X + CODES_20X + CODES_21X + CODES_30X + CODES_40X)
  {
    PrefixThrough30X();
    Codes40XChecked();
    AscendingConcat(CODES_10X + CODES_11X + CODES_12X + CODES_20X + CODES_21X + CODES_30X, CODES_40X);
  }

  lemma PrefixThrough50X()
    ensures |CODES_10X + CODES_11X + CODES_12X + CODES_20X + CODES_21X + CODES_30X + CODES_40X + CODES_50X| == 50 && (CODES_10X + CODES_11X + CODES_12X + CODES_20X + CODES_21X + CODES_30X + CODES_40X + CODES_50X)[49].code == "502"
    ensures AscendingCodes(CODES_10X + CODES_11X + CODES_12X + CODES_20X + CODES_21X + CODES_30X + CODES_40X + CODES_50X) && AllWellFormed(CODES_10X + CODES_11X + CODES_12X + CODES_20X + CODES_21X + CODES_30X + CODES_40X + CODES_50X)
  {
    PrefixThrough40X();
    Codes50XChecked();
    AscendingConcat(CODES_10X + CODES_11X + CODES_12X + CODES_20X + CODES_21X + CODES_30X + CODES_40X, CODES_50X);
  }

  /** The catalog has 50 codes, each well formed, in strictly ascending order. */
  lemma WorkCatalogShape()
    ensures |WORK_ACTIVITIES| == 50
    ensures AscendingCodes(WORK_ACTIVITIES)
    ensures forall a :: a in WORK_ACTIVITIES ==> WellFormedCode(a.code)
  {
    PrefixThrough50X();
  }

  /** Consecutive codes ascending strictly means every earlier code is strictly smaller. */
  lemma {:induction false} AscendingCodesPairwise(s: seq<WorkActivity>, i: int, j: int)
    requires AscendingCodes(s)
    requires 0 <= i < j < |s|
    ensures LexLess(s[i].code, s[j].code)
    decreases j - i
  {
    if i + 1 < j {
      AscendingCodesPairwise(s, i + 1, j);
      LexLeTransitive(s[i].code, s[i + 1].code, s[j].code);
      if s[i].code == s[j].code {
        LexLeAntisymmetric(s[i].code, s[i + 1].code);
      }
    }
  }

  /** Codes are distinct, so `FindWorkActivity` finds the only entry with that code. */
  lemma WorkCodesDistinct()
    ensures forall i, j :: 0 <= i < j < |WORK_ACTIVITIES| ==> WORK_ACTIVITIES[i].code != WORK_ACTIVITIES[j].code
  {
    WorkCatalogShape();
    forall i, j | 0 <= i < j < |WORK_ACTIVITIES|
      ensures WORK_ACTIVITIES[i].code != WORK_ACTIVITIES[j].code
    {
      AscendingCodesPairwise(WORK_ACTIVITIES, i, j);
    }
  }
}
