/**
 * The per-day activity details of a member: how each stored value is
 * shown, the name shown beside it, and which entries are shown at all.
 * The catalog is a parameter; the view looks activities up in
 * `SCORING_ACTIVITIES`.
 */
module ActivityDetails {
  import opened Wrappers
  import opened Text
  import opened Seqs
  import opened Catalog

  /** `String(value)`: a pair object prints as "[object Object]"; nothing prints as the empty string. */
  function JsString(v: ActivityValue): (r: string)
    ensures r != []
    ensures v.NumVal? ==> (r[0] == '-' <==> v.n < 0)
    ensures v.BoolVal? ==> r == (if v.b then "true" else "false")
    ensures v.NumVal? ==> r == IntToString(v.n)
    ensures v.DualVal? ==> r == "[object Object]"
  {
    match v
    case BoolVal(b) => if b then "true" else "false"
    case NumVal(n) => IntToString(n)
    case DualVal(_, _) => "[object Object]"
  }

  /**
   * `getActivityName(id)`: the catalog name, or the id itself when the id
   * is not in the catalog (or its name is empty).
   */
  function ActivityName(cat: seq<ScoringActivity>, activityId: string): (r: string)
    ensures FindActivityIn(cat, activityId).Some? && FindActivityIn(cat, activityId).value.name != "" ==>
              r == FindActivityIn(cat, activityId).value.name
    ensures FindActivityIn(cat, activityId).None? ==> r == activityId
    ensures r == activityId || exists a :: a in cat && a.id == activityId && a.name == r
  {
    match FindActivityIn(cat, activityId)
    case Some(a) => if a.name != "" then a.name else activityId
    case None => activityId
  }

  /**
   * `formatActivityValue(id, value)`. An unknown id prints the value as
   * `String` does; a known id prints true as "Có", false as nothing, 0 as
   * nothing and any other number in decimal.
   */
  function FormatActivityValue(cat: seq<ScoringActivity>, activityId: string, value: ActivityValue): (r: string)
    ensures FindActivityIn(cat, activityId).None? ==> r == JsString(value)
    ensures FindActivityIn(cat, activityId).None? && value == BoolVal(false) ==> r == "false"
    ensures FindActivityIn(cat, activityId).Some? && value == NumVal(0) ==> r == ""
    ensures FindActivityIn(cat, activityId).Some? && value.DualVal? ==> r == "[object Object]"
    ensures FindActivityIn(cat, activityId).Some? && value.BoolVal? ==> r == if value.b then "Có" else ""
    ensures FindActivityIn(cat, activityId).Some? && value.NumVal? && value.n != 0 ==> r == IntToString(value.n)
  {
    if FindActivityIn(cat, activityId).None? then JsString(value)
    else
      match value
      case BoolVal(b) => if b then "Có" else ""
      case NumVal(n) => if n == 0 then "" else IntToString(n)
      case DualVal(_, _) => JsString(value)
  }

  /**
   * A value shows as nothing exactly when its activity is known and the
   * value is false or 0; an unknown activity always shows something
   * ("false" for false).
   */
  lemma FormatEmptyIff(cat: seq<ScoringActivity>, activityId: string, value: ActivityValue)
    ensures FormatActivityValue(cat, activityId, value) == "" <==>
              FindActivityIn(cat, activityId).Some? && (value == BoolVal(false) || value == NumVal(0))
  {
  }

  /** One rendered entry: the activity's name and its shown value. */
  datatype Row = Row(name: string, display: string)

  function RowOf(cat: seq<ScoringActivity>, e: ActivityEntry): Row
  {
    Row(ActivityName(cat, e.activityId), FormatActivityValue(cat, e.activityId, e.value))
  }

  /** The rows of one day's record: the entries in order, those shown as nothing skipped. */
  function VisibleRows(cat: seq<ScoringActivity>, entries: seq<ActivityEntry>): (r: seq<Row>)
    ensures |r| <= |entries|
    ensures forall i :: 0 <= i < |r| ==> r[i].display != ""
  {
    if entries == [] then []
    else
      var row := RowOf(cat, entries[0]);
      (if row.display == "" then [] else [row]) + VisibleRows(cat, entries[1..])
  }

  /**
   * Every entry whose value shows as something has its row, and every row
   * is that of an entry, in the entries' order.
   */
  lemma {:induction false} VisibleRowsExact(cat: seq<ScoringActivity>, entries: seq<ActivityEntry>)
    ensures forall k :: 0 <= k < |entries| && FormatActivityValue(cat, entries[k].activityId, entries[k].value) != "" ==>
              RowOf(cat, entries[k]) in VisibleRows(cat, entries)
    ensures IsSubsequence(VisibleRows(cat, entries), MapSeq(entries, (e: ActivityEntry) => RowOf(cat, e)))
  {
    if entries != [] {
      var f := (e: ActivityEntry) => RowOf(cat, e);
      var rest := VisibleRows(cat, entries[1..]);
      VisibleRowsExact(cat, entries[1..]);
      var all := MapSeq(entries, f);
      assert all[1..] == MapSeq(entries[1..], f);
      forall k | 0 <= k < |entries| && FormatActivityValue(cat, entries[k].activityId, entries[k].value) != ""
        ensures RowOf(cat, entries[k]) in VisibleRows(cat, entries)
      {
        if k > 0 {
          assert entries[1..][k - 1] == entries[k];
        }
      }
      if RowOf(cat, entries[0]).display == "" {
        assert VisibleRows(cat, entries) == rest;
        SubsequenceDropHead(rest, all);
      } else {
        assert VisibleRows(cat, entries) == [all[0]] + rest;
      }
    }
  }

  /** Each row that shows something occurs as often as entries give it; the others do not occur. */
  lemma {:induction false} VisibleRowsMultiset(cat: seq<ScoringActivity>, entries: seq<ActivityEntry>)
    ensures forall x: Row :: multiset(VisibleRows(cat, entries))[x] ==
              if x.display != "" then multiset(MapSeq(entries, (e: ActivityEntry) => RowOf(cat, e)))[x] else 0
  {
    if entries != [] {
      var f := (e: ActivityEntry) => RowOf(cat, e);
      VisibleRowsMultiset(cat, entries[1..]);
      var all := MapSeq(entries, f);
      assert all == [all[0]] + MapSeq(entries[1..], f);
      var row := RowOf(cat, entries[0]);
      assert VisibleRows(cat, entries) == (if row.display == "" then [] else [row]) + VisibleRows(cat, entries[1..]);
    }
  }

  /** A known activity ticked false, or counted 0, is never shown. */
  lemma HiddenEntries(cat: seq<ScoringActivity>, entries: seq<ActivityEntry>, k: int)
    requires 0 <= k < |entries| && FindActivityIn(cat, entries[k].activityId).Some?
    requires entries[k].value == BoolVal(false) || entries[k].value == NumVal(0)
    ensures forall i :: 0 <= i < |VisibleRows(cat, entries)| ==> VisibleRows(cat, entries)[i] != RowOf(cat, entries[k])
  {
    FormatEmptyIff(cat, entries[k].activityId, entries[k].value);
  }
}
