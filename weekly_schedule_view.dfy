/**
 * The read-only week view of one member's work schedule: the per-date
 * lookup, the activity name shown for a code, the tab-separated text copied
 * for pasting into a spreadsheet, the grid cells and the legend of codes.
 * The seven week dates and the header text of each date are inputs: date
 * arithmetic and formatting are not modelled.
 */
module WeeklyScheduleView {
  import opened Wrappers
  import opened Text
  import opened Seqs
  import opened WorkCatalog
  import opened WorkScheduleStorage
  import opened WorkScheduleEditor

  // ---------------------------------------------------------------------
  // Lookups.
  // ---------------------------------------------------------------------

  /**
   * `getScheduleForDate(date)` is `schedules.find(s => s.date === date)`,
   * which is `FindDay`: it yields the first schedule of that date.
   */
  lemma ScheduleForDateIsFirst(schedules: seq<DaySchedule>, date: string, k: int)
    requires 0 <= k < |schedules| && schedules[k].date == date
    requires forall j :: 0 <= j < k ==> schedules[j].date != date
    ensures FindDay(schedules, date) == Some(schedules[k])
  {
    DayIndexAt(schedules, date, k);
  }

  /**
   * `getActivityName(code)`: nothing for an empty code, "code: name" for a
   * catalogued code, and the code itself otherwise.
   */
  function ActivityName(cat: seq<WorkActivity>, code: Option<string>): (r: string)
    ensures r == "" <==> code.None? || code.value == ""
    ensures code.Some? && code.value != "" ==> code.value <= r
    ensures code.Some? && code.value != "" && FindWorkActivityIn(cat, code.value).Some? ==>
              r == code.value + ": " + FindWorkActivityIn(cat, code.value).value.name
    ensures code.Some? && code.value != "" && FindWorkActivityIn(cat, code.value).None? ==> r == code.value
  {
    if code.None? || code.value == "" then ""
    else
      match FindWorkActivityIn(cat, code.value)
      case Some(a) => code.value + ": " + a.name
      case None => code.value
  }

  /** A grid cell: the slot's code, or "-" when the slot is empty. */
  function GridCell(schedule: Option<DaySchedule>, slot: TimeSlot): (r: string)
    ensures r != ""
    ensures SlotCode(schedule, slot) == "" ==> r == "-"
    ensures SlotCode(schedule, slot) != "" ==> schedule.value.Slot(slot) == Some(r)
  {
    var code := SlotCode(schedule, slot);
    if code == "" then "-" else code
  }

  // ---------------------------------------------------------------------
  // The copied text.
  // ---------------------------------------------------------------------

  /** The title line and the blank line after it. */
  function Title(memberName: string): string
  {
    "Lịch làm việc - " + memberName + "\n\n"
  }

  /** One header cell per date, each followed by a tab. */
  function HeaderCells(dates: seq<string>, header: string -> string): string
  {
    if dates == [] then ""
    else HeaderCells(dates[..|dates| - 1], header) + header(dates[|dates| - 1]) + "\t"
  }

  /** One cell per date holding the slot's code (or nothing), each followed by a tab. */
  function SlotCells(dates: seq<string>, schedules: seq<DaySchedule>, slot: TimeSlot): (r: string)
    ensures |r| >= |dates|
  {
    if dates == [] then ""
    else SlotCells(dates[..|dates| - 1], schedules, slot) + SlotCode(FindDay(schedules, dates[|dates| - 1]), slot) + "\t"
  }

  /** A slot's row: its label, a tab, then its cells. */
  function SlotRow(dates: seq<string>, schedules: seq<DaySchedule>, slot: TimeSlot): (r: string)
    ensures |r| > |dates|
  {
    SlotLabel(slot) + "\t" + SlotCells(dates, schedules, slot)
  }

  /** The header row: "Thời gian", a tab, then one cell per date. */
  function HeaderRow(dates: seq<string>, header: string -> string): string
  {
    "Thời gian\t" + HeaderCells(dates, header)
  }

  /**
   * The whole text: title, header row, then the morning, afternoon and
   * evening rows separated by newlines, the evening row without one.
   */
  function ExportText(memberName: string, dates: seq<string>, header: string -> string, schedules: seq<DaySchedule>): (r: string)
    ensures Title(memberName) <= r
    ensures |r| > 3 * |dates|
  {
    Title(memberName) + HeaderRow(dates, header) + "\n"
      + SlotRow(dates, schedules, Morning) + "\n"
      + SlotRow(dates, schedules, Afternoon) + "\n"
      + SlotRow(dates, schedules, Evening)
  }

  /** Appends one slot row cell by cell, as the `forEach` over the week dates does. */
  method AppendSlotRow(tableData: string, weekDates: seq<string>, schedules: seq<DaySchedule>, slot: TimeSlot)
    returns (t: string)
    ensures t == tableData + SlotRow(weekDates, schedules, slot)
  {
    var rowHead := SlotLabel(slot) + "\t";
    t := AppendSlotCells(tableData + rowHead, weekDates, schedules, slot);
    ConcatAssoc(tableData, rowHead, SlotCells(weekDates, schedules, slot));
  }

  /** The loop of `AppendSlotRow`: one cell per week date. */
  method AppendSlotCells(prefix: string, weekDates: seq<string>, schedules: seq<DaySchedule>, slot: TimeSlot)
    returns (t: string)
    ensures t == prefix + SlotCells(weekDates, schedules, slot)
  {
    t := prefix;
    var i := 0;
    while i < |weekDates|
      invariant 0 <= i <= |weekDates|
      invariant t == prefix + SlotCells(weekDates[..i], schedules, slot)
    {
      var cell := SlotCode(FindDay(schedules, weekDates[i]), slot) + "\t";
      CellsStep(prefix, weekDates, schedules, slot, i);
      t := t + cell;
      i := i + 1;
    }
    assert weekDates[..|weekDates|] == weekDates;
  }

  lemma ConcatAssoc(a: string, b: string, c: string)
    ensures a + b + c == a + (b + c)
  {
  }

  lemma CellsStep(prefix: string, dates: seq<string>, schedules: seq<DaySchedule>, slot: TimeSlot, i: int)
    requires 0 <= i < |dates|
    ensures prefix + SlotCells(dates[..i + 1], schedules, slot) ==
            prefix + SlotCells(dates[..i], schedules, slot) + (SlotCode(FindDay(schedules, dates[i]), slot) + "\t")
  {
    assert dates[..i + 1][..i] == dates[..i];
    ConcatAssoc(prefix, SlotCells(dates[..i], schedules, slot), SlotCode(FindDay(schedules, dates[i]), slot) + "\t");
  }

  lemma HeaderStep(dates: seq<string>, header: string -> string, i: int)
    requires 0 <= i < |dates|
    ensures HeaderCells(dates[..i + 1], header) == HeaderCells(dates[..i], header) + (header(dates[i]) + "\t")
  {
    assert dates[..i + 1][..i] == dates[..i];
  }

  /** `copyToClipboard`: the text handed to the clipboard. */
  method CopyToClipboard(memberName: string, weekDates: seq<string>, header: string -> string, schedules: seq<DaySchedule>)
    returns (tableData: string)
    ensures tableData == ExportText(memberName, weekDates, header, schedules)
  {
    tableData := "Lịch làm việc - " + memberName + "\n\n";
    tableData := tableData + "Thời gian\t";
    ghost var prefix := tableData;
    var i := 0;
    while i < |weekDates|
      invariant 0 <= i <= |weekDates|
      invariant tableData == prefix + HeaderCells(weekDates[..i], header)
    {
      var cell := header(weekDates[i]) + "\t";
      HeaderStep(weekDates, header, i);
      tableData := tableData + cell;
      i := i + 1;
    }
    assert weekDates[..|weekDates|] == weekDates;
    assert tableData == Title(memberName) + HeaderRow(weekDates, header);
    tableData := tableData + "\n";
    tableData := AppendSlotRow(tableData, weekDates, schedules, Morning);
    tableData := tableData + "\n";
    tableData := AppendSlotRow(tableData, weekDates, schedules, Afternoon);
    tableData := tableData + "\n";
    tableData := AppendSlotRow(tableData, weekDates, schedules, Evening);
  }

  /** No stored code contains the character `c`. */
  predicate CodesFree(schedules: seq<DaySchedule>, c: char)
  {
    forall i, slot :: 0 <= i < |schedules| && schedules[i].Slot(slot).Some? ==> c !in schedules[i].Slot(slot).value
  }

  lemma {:induction false} CountCharAbsent(s: string, c: char)
    requires c !in s
    ensures CountChar(s, c) == 0
  {
    if s != [] {
      CountCharAbsent(s[1..], c);
    }
  }

  /** A code read for any date is free of a character no stored code holds. */
  lemma SlotCodeFree(schedules: seq<DaySchedule>, date: string, slot: TimeSlot, c: char)
    requires CodesFree(schedules, c)
    ensures c !in SlotCode(FindDay(schedules, date), slot)
  {
    var i := DayIndex(schedules, date);
    if i >= 0 {
      assert FindDay(schedules, date) == Some(schedules[i]);
    }
  }

  /** With k dates, the cells hold exactly k tabs when no code holds one. */
  lemma {:induction false} SlotCellsTabs(dates: seq<string>, schedules: seq<DaySchedule>, slot: TimeSlot)
    requires CodesFree(schedules, '\t')
    ensures CountChar(SlotCells(dates, schedules, slot), '\t') == |dates|
  {
    if dates != [] {
      var n := |dates| - 1;
      var code := SlotCode(FindDay(schedules, dates[n]), slot);
      SlotCellsTabs(dates[..n], schedules, slot);
      SlotCodeFree(schedules, dates[n], slot, '\t');
      CountCharAbsent(code, '\t');
      CountCharConcat(SlotCells(dates[..n], schedules, slot), code, '\t');
      CountCharConcat(SlotCells(dates[..n], schedules, slot) + code, "\t", '\t');
    }
  }

  /** With k dates and tab-free codes, every slot row holds exactly k + 1 tabs. */
  lemma SlotRowTabs(dates: seq<string>, schedules: seq<DaySchedule>, slot: TimeSlot)
    requires CodesFree(schedules, '\t')
    ensures CountChar(SlotRow(dates, schedules, slot), '\t') == |dates| + 1
  {
    SlotCellsTabs(dates, schedules, slot);
    CountCharAbsent(SlotLabel(slot), '\t');
    CountCharConcat(SlotLabel(slot), "\t", '\t');
    CountCharConcat(SlotLabel(slot) + "\t", SlotCells(dates, schedules, slot), '\t');
  }

  /** The cells of a row hold no newline when no code holds one. */
  lemma {:induction false} SlotCellsNoNewline(dates: seq<string>, schedules: seq<DaySchedule>, slot: TimeSlot)
    requires CodesFree(schedules, '\n')
    ensures CountChar(SlotCells(dates, schedules, slot), '\n') == 0
  {
    if dates != [] {
      var n := |dates| - 1;
      var code := SlotCode(FindDay(schedules, dates[n]), slot);
      SlotCellsNoNewline(dates[..n], schedules, slot);
      SlotCodeFree(schedules, dates[n], slot, '\n');
      CountCharAbsent(code, '\n');
      CountCharConcat(SlotCells(dates[..n], schedules, slot), code, '\n');
      CountCharConcat(SlotCells(dates[..n], schedules, slot) + code, "\t", '\n');
    }
  }

  lemma {:induction false} HeaderCellsNoNewline(dates: seq<string>, header: string -> string)
    requires forall i :: 0 <= i < |dates| ==> '\n' !in header(dates[i])
    ensures CountChar(HeaderCells(dates, header), '\n') == 0
  {
    if dates != [] {
      var n := |dates| - 1;
      HeaderCellsNoNewline(dates[..n], header);
      CountCharAbsent(header(dates[n]), '\n');
      CountCharConcat(HeaderCells(dates[..n], header), header(dates[n]), '\n');
      CountCharConcat(HeaderCells(dates[..n], header) + header(dates[n]), "\t", '\n');
    }
  }

  lemma SlotRowNoNewline(dates: seq<string>, schedules: seq<DaySchedule>, slot: TimeSlot)
    requires CodesFree(schedules, '\n')
    ensures CountChar(SlotRow(dates, schedules, slot), '\n') == 0
  {
    SlotCellsNoNewline(dates, schedules, slot);
    CountCharAbsent(SlotLabel(slot) + "\t", '\n');
    CountCharConcat(SlotLabel(slot) + "\t", SlotCells(dates, schedules, slot), '\n');
  }

  /** The title holds its two newlines and no other when the name holds none. */
  lemma TitleNewlines(memberName: string)
    requires '\n' !in memberName
    ensures CountChar(Title(memberName), '\n') == 2
  {
    var line := "Lịch làm việc - " + memberName;
    assert '\n' !in line;
    CountCharAbsent(line, '\n');
    CountCharConcat(line, "\n\n", '\n');
  }

  lemma HeaderRowNoNewline(dates: seq<string>, header: string -> string)
    requires forall i :: 0 <= i < |dates| ==> '\n' !in header(dates[i])
    ensures CountChar(HeaderRow(dates, header), '\n') == 0
  {
    HeaderCellsNoNewline(dates, header);
    CountCharAbsent("Thời gian\t", '\n');
    CountCharConcat("Thời gian\t", HeaderCells(dates, header), '\n');
  }

  /** Counting a character across pieces joined by newlines. */
  lemma CountJoined(t: string, h: string, m: string, a: string, e: string, c: char)
    ensures CountChar(t + h + "\n" + m + "\n" + a + "\n" + e, c) ==
            CountChar(t, c) + CountChar(h, c) + CountChar(m, c) + CountChar(a, c) + CountChar(e, c) + 3 * CountChar("\n", c)
  {
    CountCharConcat(t, h, c);
    CountCharConcat(t + h, "\n", c);
    CountCharConcat(t + h + "\n", m, c);
    CountCharConcat(t + h + "\n" + m, "\n", c);
    CountCharConcat(t + h + "\n" + m + "\n", a, c);
    CountCharConcat(t + h + "\n" + m + "\n" + a, "\n", c);
    CountCharConcat(t + h + "\n" + m + "\n" + a + "\n", e, c);
  }

  /** A slot row always ends with a tab: the label's one when there are no dates, else the last cell's. */
  lemma SlotRowEndsWithTab(dates: seq<string>, schedules: seq<DaySchedule>, slot: TimeSlot)
    ensures var row := SlotRow(dates, schedules, slot); |row| > 0 && row[|row| - 1] == '\t'
  {
    var cells := SlotCells(dates, schedules, slot);
    if dates != [] {
      var n := |dates| - 1;
      assert cells == SlotCells(dates[..n], schedules, slot) + SlotCode(FindDay(schedules, dates[n]), slot) + "\t";
    }
  }

  lemma LastOfConcat(x: string, e: string)
    requires |e| > 0
    ensures (x + e)[|x + e| - 1] == e[|e| - 1]
  {
  }

  /**
   * When the name, the header cells and the codes hold no newline, the
   * text holds exactly five: two after the title, one after the header
   * row and one after each of the morning and afternoon rows. It ends
   * with the evening row's last tab, so it has no trailing newline.
   */
  lemma ExportLines(memberName: string, dates: seq<string>, header: string -> string, schedules: seq<DaySchedule>)
    requires '\n' !in memberName
    requires forall i :: 0 <= i < |dates| ==> '\n' !in header(dates[i])
    requires CodesFree(schedules, '\n')
    ensures CountChar(ExportText(memberName, dates, header, schedules), '\n') == 5
    ensures var t := ExportText(memberName, dates, header, schedules); t[|t| - 1] == '\t'
  {
    var title := Title(memberName);
    var head := HeaderRow(dates, header);
    var m := SlotRow(dates, schedules, Morning);
    var a := SlotRow(dates, schedules, Afternoon);
    var e := SlotRow(dates, schedules, Evening);
    TitleNewlines(memberName);
    HeaderRowNoNewline(dates, header);
    SlotRowNoNewline(dates, schedules, Morning);
    SlotRowNoNewline(dates, schedules, Afternoon);
    SlotRowNoNewline(dates, schedules, Evening);
    CountJoined(title, head, m, a, e, '\n');
    SlotRowEndsWithTab(dates, schedules, Evening);
    LastOfConcat(title + head + "\n" + m + "\n" + a + "\n", e);
  }

  // ---------------------------------------------------------------------
  // The legend.
  // ---------------------------------------------------------------------

  /** The three slot codes of a day, in slot order. */
  function SlotCodes(schedule: Option<DaySchedule>): seq<string>
  {
    [SlotCode(schedule, Morning), SlotCode(schedule, Afternoon), SlotCode(schedule, Evening)]
  }

  lemma SlotCodesAll(schedule: Option<DaySchedule>)
    ensures forall c :: c in SlotCodes(schedule) <==> exists slot :: SlotCode(schedule, slot) == c
  {
    var codes := SlotCodes(schedule);
    forall slot ensures SlotCode(schedule, slot) in codes {
      match slot
      case Morning => assert codes[0] == SlotCode(schedule, slot);
      case Afternoon => assert codes[1] == SlotCode(schedule, slot);
      case Evening => assert codes[2] == SlotCode(schedule, slot);
    }
    forall c | c in codes ensures exists slot :: SlotCode(schedule, slot) == c {
      if c == codes[0] { assert SlotCode(schedule, Morning) == c; }
      else if c == codes[1] { assert SlotCode(schedule, Afternoon) == c; }
      else { assert SlotCode(schedule, Evening) == c; }
    }
  }

  /** `[morning, afternoon, evening].filter(Boolean)`: the day's non-empty codes in slot order. */
  function DayCodes(schedule: Option<DaySchedule>): (r: seq<string>)
    ensures |r| <= 3
    ensures forall c :: c in r <==> c != "" && c in SlotCodes(schedule)
  {
    Filter(SlotCodes(schedule), (c: string) => c != "")
  }

  /** The index of the first occurrence of `x` in `s`. */
  function FirstIndex(s: seq<string>, x: string): (i: nat)
    requires x in s
    ensures i < |s| && s[i] == x && forall j :: 0 <= j < i ==> s[j] != x
  {
    if s[0] == x then 0 else 1 + FirstIndex(s[1..], x)
  }

  lemma FirstIndexAt(s: seq<string>, x: string, i: nat)
    requires i < |s| && s[i] == x && forall j :: 0 <= j < i ==> s[j] != x
    ensures FirstIndex(s, x) == i
  {
  }

  /** `[...new Set(codes)]`: each element once, where it first occurs. */
  function Dedupe(s: seq<string>): (r: seq<string>)
    ensures forall x :: x in r <==> x in s
    ensures forall i, j :: 0 <= i < j < |r| ==> r[i] != r[j]
  {
    if s == [] then []
    else
      var p := s[..|s| - 1];
      var d := Dedupe(p);
      assert s == p + [s[|s| - 1]];
      if s[|s| - 1] in d then d else d + [s[|s| - 1]]
  }

  /** The deduplicated elements come in the order of their first occurrences. */
  lemma {:induction false} DedupeOrder(s: seq<string>)
    ensures forall i, j :: 0 <= i < j < |Dedupe(s)| ==> FirstIndex(s, Dedupe(s)[i]) < FirstIndex(s, Dedupe(s)[j])
  {
    if s != [] {
      var n := |s| - 1;
      var p := s[..n];
      var d := Dedupe(p);
      DedupeOrder(p);
      DedupeSnoc(s);
      forall i, j | 0 <= i < j < |Dedupe(s)| ensures FirstIndex(s, Dedupe(s)[i]) < FirstIndex(s, Dedupe(s)[j]) {
        DedupeOrderStep(s, p, d, i, j);
      }
    }
  }

  /** The last element is kept by the dedupe exactly when it is new. */
  lemma DedupeSnoc(s: seq<string>)
    requires s != []
    ensures var p := s[..|s| - 1];
      Dedupe(s) == if s[|s| - 1] in Dedupe(p) then Dedupe(p) else Dedupe(p) + [s[|s| - 1]]
  {
  }

  /** An element of the prefix first occurs where it first occurs in the prefix. */
  lemma FirstIndexPrefix(s: seq<string>, x: string)
    requires s != [] && x in s[..|s| - 1]
    ensures FirstIndex(s, x) == FirstIndex(s[..|s| - 1], x)
  {
    var p := s[..|s| - 1];
    var k := FirstIndex(p, x);
    assert s[k] == p[k];
    assert forall j :: 0 <= j < k ==> s[j] == p[j];
    FirstIndexAt(s, x, k);
  }

  /** One pair of the order, given the order on the prefix `p` and its dedupe `d`. */
  lemma DedupeOrderStep(s: seq<string>, p: seq<string>, d: seq<string>, i: int, j: int)
    requires s != [] && p == s[..|s| - 1] && d == Dedupe(p)
    requires 0 <= i < j < |Dedupe(s)|
    requires Dedupe(s) == if s[|s| - 1] in d then d else d + [s[|s| - 1]]
    requires forall a, b :: 0 <= a < b < |d| ==> FirstIndex(p, d[a]) < FirstIndex(p, d[b])
    ensures FirstIndex(s, Dedupe(s)[i]) < FirstIndex(s, Dedupe(s)[j])
  {
    var n := |s| - 1;
    var r := Dedupe(s);
    assert r[i] == d[i] && d[i] in p;
    FirstIndexPrefix(s, d[i]);
    if j < |d| {
      assert r[j] == d[j] && d[j] in p;
      FirstIndexPrefix(s, d[j]);
    } else {
      assert r[j] == s[n] && s[n] !in p;
      assert forall k :: 0 <= k < n ==> s[k] == p[k];
      FirstIndexAt(s, s[n], n);
    }
  }

  /** The catalogued activities of a list of codes, in the codes' order; unknown codes are dropped. */
  function KnownActivities(cat: seq<WorkActivity>, codes: seq<string>): (r: seq<WorkActivity>)
    ensures |r| <= |codes|
    ensures forall i :: 0 <= i < |r| ==> r[i].code in codes && FindWorkActivityIn(cat, r[i].code) == Some(r[i])
    ensures forall c :: c in codes && FindWorkActivityIn(cat, c).Some? ==> FindWorkActivityIn(cat, c).value in r
  {
    if codes == [] then []
    else
      (match FindWorkActivityIn(cat, codes[0]) case Some(a) => [a] case None => []) + KnownActivities(cat, codes[1..])
  }

  /** The legend's codes follow the codes' own order. */
  lemma {:induction false} KnownActivitiesOrder(cat: seq<WorkActivity>, codes: seq<string>)
    ensures IsSubsequence(MapSeq(KnownActivities(cat, codes), (a: WorkActivity) => a.code), codes)
  {
    if codes != [] {
      var f := (a: WorkActivity) => a.code;
      var rest := KnownActivities(cat, codes[1..]);
      KnownActivitiesOrder(cat, codes[1..]);
      match FindWorkActivityIn(cat, codes[0])
      case Some(a) =>
        assert KnownActivities(cat, codes) == [a] + rest;
        assert MapSeq([a] + rest, f)[1..] == MapSeq(rest, f);
      case None =>
        assert KnownActivities(cat, codes) == rest;
        SubsequenceDropHead(MapSeq(rest, f), codes);
    }
  }

  /** Distinct codes give legend entries with distinct codes. */
  lemma {:induction false} KnownActivitiesDistinct(cat: seq<WorkActivity>, codes: seq<string>)
    requires forall i, j :: 0 <= i < j < |codes| ==> codes[i] != codes[j]
    ensures forall i, j :: 0 <= i < j < |KnownActivities(cat, codes)| ==>
              KnownActivities(cat, codes)[i].code != KnownActivities(cat, codes)[j].code
  {
    if codes != [] {
      var t := codes[1..];
      DistinctTail(codes);
      KnownActivitiesDistinct(cat, t);
      KnownHeadFresh(cat, codes);
    }
  }

  /** The tail of a list of distinct codes is distinct, and lacks the head. */
  lemma DistinctTail(codes: seq<string>)
    requires codes != []
    requires forall i, j :: 0 <= i < j < |codes| ==> codes[i] != codes[j]
    ensures forall i, j :: 0 <= i < j < |codes[1..]| ==> codes[1..][i] != codes[1..][j]
    ensures codes[0] !in codes[1..]
  {
    forall i, j | 0 <= i < j < |codes[1..]| ensures codes[1..][i] != codes[1..][j] {
      assert codes[1..][i] == codes[i + 1] && codes[1..][j] == codes[j + 1];
    }
  }

  /** A head code missing from the tail adds an entry whose code the tail's entries lack. */
  lemma KnownHeadFresh(cat: seq<WorkActivity>, codes: seq<string>)
    requires codes != [] && codes[0] !in codes[1..]
    requires forall i, j :: 0 <= i < j < |KnownActivities(cat, codes[1..])| ==>
               KnownActivities(cat, codes[1..])[i].code != KnownActivities(cat, codes[1..])[j].code
    ensures forall i, j :: 0 <= i < j < |KnownActivities(cat, codes)| ==>
              KnownActivities(cat, codes)[i].code != KnownActivities(cat, codes)[j].code
  {
    var rest := KnownActivities(cat, codes[1..]);
    var r := KnownActivities(cat, codes);
    match FindWorkActivityIn(cat, codes[0])
    case Some(a) =>
      assert r == [a] + rest;
      forall k | 0 <= k < |rest| ensures rest[k].code != a.code {
        assert rest[k].code in codes[1..];
      }
      FreshHeadDistinct(a, rest);
    case None =>
      assert r == rest;
  }

  /** An entry whose code none of the others has keeps the codes distinct when put in front. */
  lemma FreshHeadDistinct(a: WorkActivity, rest: seq<WorkActivity>)
    requires forall k :: 0 <= k < |rest| ==> rest[k].code != a.code
    requires forall i, j :: 0 <= i < j < |rest| ==> rest[i].code != rest[j].code
    ensures forall i, j :: 0 <= i < j < |[a] + rest| ==> ([a] + rest)[i].code != ([a] + rest)[j].code
  {
    var r := [a] + rest;
    forall i, j | 0 <= i < j < |r| ensures r[i].code != r[j].code {
      assert r[j] == rest[j - 1];
      if i > 0 {
        assert r[i] == rest[i - 1];
      }
    }
  }

  /** The legend entries of one day's schedule (the inner `map` over its unique codes). */
  function DayEntries(cat: seq<WorkActivity>, schedule: Option<DaySchedule>): (r: seq<WorkActivity>)
    ensures |r| <= 3
    ensures forall i :: 0 <= i < |r| ==> FindWorkActivityIn(cat, r[i].code) == Some(r[i])
  {
    DayCodesAtMostThree(schedule);
    KnownActivities(cat, Dedupe(DayCodes(schedule)))
  }

  /** The legend entries of one date. */
  function DayLegend(cat: seq<WorkActivity>, schedules: seq<DaySchedule>, date: string): seq<WorkActivity>
  {
    DayEntries(cat, FindDay(schedules, date))
  }

  /** The whole legend: each date's entries in date order, flattened. */
  function Legend(cat: seq<WorkActivity>, dates: seq<string>, schedules: seq<DaySchedule>): (r: seq<WorkActivity>)
    ensures forall i :: 0 <= i < |r| ==> FindWorkActivityIn(cat, r[i].code) == Some(r[i])
  {
    var ss := MapSeq(dates, (d: string) => DayLegend(cat, schedules, d));
    var r := Flatten(ss);
    assert forall i :: 0 <= i < |r| ==> FindWorkActivityIn(cat, r[i].code) == Some(r[i]) by {
      forall i | 0 <= i < |r| ensures FindWorkActivityIn(cat, r[i].code) == Some(r[i]) {
        FlattenMembership(ss, r[i]);
        var j :| 0 <= j < |ss| && r[i] in ss[j];
      }
    }
    r
  }

  /** The three codes only ever give at most three codes after dedupe. */
  lemma DayCodesAtMostThree(schedule: Option<DaySchedule>)
    ensures |Dedupe(DayCodes(schedule))| <= 3
  {
    var codes := DayCodes(schedule);
    DedupeLength(codes);
  }

  lemma {:induction false} DedupeLength(s: seq<string>)
    ensures |Dedupe(s)| <= |s|
  {
    if s != [] {
      DedupeLength(s[..|s| - 1]);
    }
  }

  /**
   * A day's legend lists each of its non-empty catalogued slot codes
   * exactly once, with the catalog's name, nothing else, in the order the
   * codes first occur among morning, afternoon and evening.
   */
  lemma DayLegendFacts(cat: seq<WorkActivity>, s: Option<DaySchedule>)
    ensures forall i :: 0 <= i < |DayEntries(cat, s)| ==>
              DayEntries(cat, s)[i].code != "" &&
              FindWorkActivityIn(cat, DayEntries(cat, s)[i].code) == Some(DayEntries(cat, s)[i]) &&
              exists slot :: SlotCode(s, slot) == DayEntries(cat, s)[i].code
    ensures forall slot :: SlotCode(s, slot) != "" && FindWorkActivityIn(cat, SlotCode(s, slot)).Some? ==>
              FindWorkActivityIn(cat, SlotCode(s, slot)).value in DayEntries(cat, s)
    ensures forall i, j :: 0 <= i < j < |DayEntries(cat, s)| ==> DayEntries(cat, s)[i].code != DayEntries(cat, s)[j].code
    ensures IsSubsequence(MapSeq(DayEntries(cat, s), (a: WorkActivity) => a.code), Dedupe(DayCodes(s)))
  {
    SlotCodesAll(s);
    var codes := DayCodes(s);
    var d := Dedupe(codes);
    var r := KnownActivities(cat, d);
    KnownActivitiesDistinct(cat, d);
    KnownActivitiesOrder(cat, d);
    forall slot | SlotCode(s, slot) != "" && FindWorkActivityIn(cat, SlotCode(s, slot)).Some?
      ensures FindWorkActivityIn(cat, SlotCode(s, slot)).value in r
    {
      assert SlotCode(s, slot) in SlotCodes(s);
      assert SlotCode(s, slot) in d;
    }
  }

  /**
   * An entry is in the legend exactly when it is in the legend of one of
   * the dates, and the legend has at most three entries per date.
   */
  lemma LegendFacts(cat: seq<WorkActivity>, dates: seq<string>, schedules: seq<DaySchedule>, e: WorkActivity)
    ensures e in Legend(cat, dates, schedules) <==> exists i :: 0 <= i < |dates| && e in DayLegend(cat, schedules, dates[i])
    ensures |Legend(cat, dates, schedules)| <= 3 * |dates|
  {
    var ss := MapSeq(dates, (d: string) => DayLegend(cat, schedules, d));
    FlattenMembership(ss, e);
    forall i | 0 <= i < |ss| ensures |ss[i]| <= 3 {
      DayCodesAtMostThree(FindDay(schedules, dates[i]));
    }
    FlattenLength(ss, 3);
  }
}
