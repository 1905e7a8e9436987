/**
 * The monthly goal editor of one member: the text typed for each activity,
 * read back from the stored goal and parsed into targets on save.
 *
 * The inputs object is an association list in key-insertion order (the
 * order `Object.keys` gives for keys that do not look like array indices;
 * every activity id of the catalog is such a key).
 */
module GoalSetting {
  import opened Wrappers
  import opened Text
  import opened Seqs
  import opened Goals
  import opened GoalStorage

  /** One text input: an activity id and what was typed for it. */
  datatype Input = Input(activityId: string, text: string)

  /** `inputs[activityId]`. */
  function InputText(inputs: seq<Input>, activityId: string): (r: Option<string>)
    ensures r.None? <==> forall k :: 0 <= k < |inputs| ==> inputs[k].activityId != activityId
    ensures r.Some? ==> Input(activityId, r.value) in inputs
  {
    if inputs == [] then None
    else if inputs[0].activityId == activityId then Some(inputs[0].text)
    else InputText(inputs[1..], activityId)
  }

  /** The keys of the inputs object are distinct. */
  predicate DistinctKeys(inputs: seq<Input>)
  {
    forall i, j :: 0 <= i < j < |inputs| ==> inputs[i].activityId != inputs[j].activityId
  }

  /**
   * `{ ...inputs, [activityId]: text }` (and `inputs[activityId] = text`): an
   * existing key keeps its place and takes the new text, a new key goes last.
   */
  function SetInput(inputs: seq<Input>, activityId: string, text: string): (r: seq<Input>)
    ensures |r| == |inputs| || |r| == |inputs| + 1
  {
    if inputs == [] then [Input(activityId, text)]
    else if inputs[0].activityId == activityId then [Input(activityId, text)] + inputs[1..]
    else [inputs[0]] + SetInput(inputs[1..], activityId, text)
  }

  /** After setting a key, reading that key gives the new text and every other key reads as before. */
  lemma {:induction false} SetInputReads(inputs: seq<Input>, activityId: string, text: string, other: string)
    ensures InputText(SetInput(inputs, activityId, text), activityId) == Some(text)
    ensures other != activityId ==> InputText(SetInput(inputs, activityId, text), other) == InputText(inputs, other)
  {
    if inputs != [] && inputs[0].activityId != activityId {
      SetInputReads(inputs[1..], activityId, text, other);
    }
  }

  /** Setting a key keeps the keys distinct, and appends exactly when the key is new. */
  lemma {:induction false} SetInputKeys(inputs: seq<Input>, activityId: string, text: string)
    requires DistinctKeys(inputs)
    ensures DistinctKeys(SetInput(inputs, activityId, text))
    ensures InputText(inputs, activityId).None? ==> SetInput(inputs, activityId, text) == inputs + [Input(activityId, text)]
    ensures InputText(inputs, activityId).Some? ==> |SetInput(inputs, activityId, text)| == |inputs|
  {
    if inputs != [] && inputs[0].activityId != activityId {
      SetInputKeys(inputs[1..], activityId, text);
      var rest := SetInput(inputs[1..], activityId, text);
      forall k | 0 <= k < |rest| ensures rest[k].activityId != inputs[0].activityId {
        SetInputKeyFrom(inputs[1..], activityId, text, k);
      }
    }
  }

  /** Every key after the update is the new key or one of the old keys. */
  lemma {:induction false} SetInputKeyFrom(inputs: seq<Input>, activityId: string, text: string, k: int)
    requires 0 <= k < |SetInput(inputs, activityId, text)|
    ensures var key := SetInput(inputs, activityId, text)[k].activityId;
      key == activityId || exists j :: 0 <= j < |inputs| && inputs[j].activityId == key
  {
    if inputs != [] && inputs[0].activityId != activityId && k > 0 {
      SetInputKeyFrom(inputs[1..], activityId, text, k - 1);
      var key := SetInput(inputs, activityId, text)[k].activityId;
      if key != activityId {
        var j :| 0 <= j < |inputs| - 1 && inputs[1..][j].activityId == key;
        assert inputs[j + 1].activityId == key;
      }
    }
  }

  /** The text shown for a count: `targetCount.toString()`. */
  function TargetText(t: ActivityTarget): string
  {
    IntToString(t.targetCount)
  }

  /** The inputs `loadGoal` / `handleCancel` build from a list of targets, one key set per target. */
  function InputsFrom(targets: seq<ActivityTarget>): (r: seq<Input>)
    ensures |r| <= |targets|
    ensures targets != [] ==> r != []
  {
    if targets == [] then []
    else
      var last := targets[|targets| - 1];
      SetInput(InputsFrom(targets[..|targets| - 1]), last.activityId, TargetText(last))
  }

  /** The inputs for an optional goal; no goal gives the empty object. */
  function InputsOf(goal: Option<MemberGoal>): (r: seq<Input>)
    ensures goal.None? ==> r == []
  {
    match goal
    case None => []
    case Some(g) => InputsFrom(g.activityTargets)
  }

  /** The target an input yields on save, if its text parses to a number greater than 0. */
  function TargetOf(parse: string -> Option<int>, input: Input): (r: Option<ActivityTarget>)
    ensures r.Some? <==> parse(input.text).Some? && parse(input.text).value > 0
    ensures r.Some? ==> r.value == ActivityTarget(input.activityId, parse(input.text).value)
  {
    match parse(input.text)
    case Some(count) => if count > 0 then Some(ActivityTarget(input.activityId, count)) else None
    case None => None
  }

  /** The targets `handleSave` builds: the valid inputs, in key order. */
  function ValidTargets(parse: string -> Option<int>, inputs: seq<Input>): (r: seq<ActivityTarget>)
    ensures |r| <= |inputs|
    ensures forall i :: 0 <= i < |r| ==> r[i].targetCount > 0
  {
    if inputs == [] then []
    else
      var n := |inputs| - 1;
      match TargetOf(parse, inputs[n])
      case Some(t) => ValidTargets(parse, inputs[..n]) + [t]
      case None => ValidTargets(parse, inputs[..n])
  }

  /** The loop of `handleSave`: each input in key order, keeping those that parse to a count above 0. */
  method CollectTargets(inputs: seq<Input>) returns (targets: seq<ActivityTarget>)
    ensures targets == ValidTargets(ParseInt, inputs)
  {
    targets := [];
    var i := 0;
    while i < |inputs|
      invariant 0 <= i <= |inputs|
      invariant targets == ValidTargets(ParseInt, inputs[..i])
    {
      assert inputs[..i + 1][..i] == inputs[..i];
      var target := TargetOf(ParseInt, inputs[i]);
      if target.Some? {
        targets := targets + [target.value];
      }
      i := i + 1;
    }
    assert inputs[..|inputs|] == inputs;
  }

  /** Every saved target comes from one of the inputs, so its count is above 0. */
  lemma {:induction false} ValidTargetsSound(parse: string -> Option<int>, inputs: seq<Input>, t: ActivityTarget)
    requires t in ValidTargets(parse, inputs)
    ensures exists k :: 0 <= k < |inputs| && TargetOf(parse, inputs[k]) == Some(t)
    ensures t.targetCount > 0
  {
    var n := |inputs| - 1;
    var p := inputs[..n];
    if t in ValidTargets(parse, p) {
      ValidTargetsSound(parse, p, t);
      var k :| 0 <= k < n && TargetOf(parse, p[k]) == Some(t);
      assert inputs[k] == p[k];
    } else {
      assert TargetOf(parse, inputs[n]) == Some(t);
    }
  }

  /** Every input whose text parses to a count above 0 gives a saved target. */
  lemma {:induction false} ValidTargetsComplete(parse: string -> Option<int>, inputs: seq<Input>, k: int)
    requires 0 <= k < |inputs| && TargetOf(parse, inputs[k]).Some?
    ensures TargetOf(parse, inputs[k]).value in ValidTargets(parse, inputs)
  {
    var n := |inputs| - 1;
    var p := inputs[..n];
    var t := TargetOf(parse, inputs[k]).value;
    ValidTargetsStep(parse, inputs);
    if k < n {
      assert p[k] == inputs[k];
      ValidTargetsComplete(parse, p, k);
    }
  }

  /** Each input adds its target, if any, at the end. */
  lemma ValidTargetsStep(parse: string -> Option<int>, inputs: seq<Input>)
    requires inputs != []
    ensures var n := |inputs| - 1;
      ValidTargets(parse, inputs) == ValidTargets(parse, inputs[..n]) + (if TargetOf(parse, inputs[n]).Some? then [TargetOf(parse, inputs[n]).value] else [])
  {
  }

  /**
   * A target is saved exactly for each input whose text parses to a count
   * above 0, with that count; every saved count is therefore positive.
   */
  lemma ValidTargetsExact(parse: string -> Option<int>, inputs: seq<Input>, t: ActivityTarget)
    ensures t in ValidTargets(parse, inputs) <==> exists k :: 0 <= k < |inputs| && TargetOf(parse, inputs[k]) == Some(t)
    ensures t in ValidTargets(parse, inputs) ==> t.targetCount > 0
  {
    if t in ValidTargets(parse, inputs) {
      ValidTargetsSound(parse, inputs, t);
    }
    if exists k :: 0 <= k < |inputs| && TargetOf(parse, inputs[k]) == Some(t) {
      var k :| 0 <= k < |inputs| && TargetOf(parse, inputs[k]) == Some(t);
      ValidTargetsComplete(parse, inputs, k);
    }
  }

  /** No two targets share an activity id. */
  predicate DistinctIds(targets: seq<ActivityTarget>)
  {
    forall i, j :: 0 <= i < j < |targets| ==> targets[i].activityId != targets[j].activityId
  }

  /** With distinct ids every target adds a new key, so the inputs are one per target, in order. */
  lemma {:induction false} InputsFromDistinct(targets: seq<ActivityTarget>)
    requires DistinctIds(targets)
    ensures InputsFrom(targets) == MapSeq(targets, (t: ActivityTarget) => Input(t.activityId, TargetText(t)))
    ensures DistinctKeys(InputsFrom(targets))
  {
    if targets != [] {
      var n := |targets| - 1;
      var f := (t: ActivityTarget) => Input(t.activityId, TargetText(t));
      var p := InputsFrom(targets[..n]);
      InputsFromDistinct(targets[..n]);
      assert p == MapSeq(targets[..n], f);
      assert InputText(p, targets[n].activityId).None? by {
        forall k | 0 <= k < |p| ensures p[k].activityId != targets[n].activityId {
          assert p[k] == f(targets[..n][k]) && targets[..n][k] == targets[k];
        }
      }
      SetInputKeys(p, targets[n].activityId, TargetText(targets[n]));
      assert InputsFrom(targets) == p + [f(targets[n])];
      MapSeqSnoc(targets, f);
    }
  }

  /** A positive count, printed into its input, parses back to the same target. */
  lemma TargetOfPrinted(t: ActivityTarget)
    requires t.targetCount > 0
    ensures TargetOf(ParseInt, Input(t.activityId, TargetText(t))) == Some(t)
  {
    ParseIntOfIntToString(t.targetCount);
  }

  /** A list of one input per positive target reads back as those targets. */
  lemma {:induction false} ValidTargetsOfPrinted(targets: seq<ActivityTarget>)
    requires forall i :: 0 <= i < |targets| ==> targets[i].targetCount > 0
    ensures ValidTargets(ParseInt, MapSeq(targets, (t: ActivityTarget) => Input(t.activityId, TargetText(t)))) == targets
  {
    var inputs := MapSeq(targets, (t: ActivityTarget) => Input(t.activityId, TargetText(t)));
    forall i | 0 <= i < |targets| ensures TargetOf(ParseInt, inputs[i]) == Some(targets[i]) {
      assert inputs[i] == Input(targets[i].activityId, TargetText(targets[i]));
      TargetOfPrinted(targets[i]);
    }
    ValidTargetsAll(ParseInt, inputs, targets);
  }

  /** When every input yields its target, all of them are saved, in order. */
  lemma {:induction false} ValidTargetsAll(parse: string -> Option<int>, inputs: seq<Input>, targets: seq<ActivityTarget>)
    requires |inputs| == |targets|
    requires forall i :: 0 <= i < |inputs| ==> TargetOf(parse, inputs[i]) == Some(targets[i])
    ensures ValidTargets(parse, inputs) == targets
  {
    if inputs != [] {
      var n := |inputs| - 1;
      ValidTargetsAll(parse, inputs[..n], targets[..n]);
      assert targets[..n] + [targets[n]] == targets;
    }
  }

  /**
   * Loading a goal whose targets have distinct ids and positive counts and
   * saving it without edits reproduces the same target list.
   */
  lemma LoadSaveRoundTrip(targets: seq<ActivityTarget>)
    requires DistinctIds(targets)
    requires forall i :: 0 <= i < |targets| ==> targets[i].targetCount > 0
    ensures ValidTargets(ParseInt, InputsFrom(targets)) == targets
  {
    InputsFromDistinct(targets);
    ValidTargetsOfPrinted(targets);
  }

  /** The goal editor's state for one member and month. */
  class GoalEditor {
    const memberId: string
    const month: string
    var goal: Option<MemberGoal>
    var inputs: seq<Input>
    var isEditing: bool

    constructor (memberId: string, month: string)
      ensures this.memberId == memberId && this.month == month
      ensures goal.None? && inputs == [] && !isEditing
    {
      this.memberId := memberId;
      this.month := month;
      goal := None;
      inputs := [];
      isEditing := false;
    }

    /** `loadGoal`: the stored goal for the member and month, and its targets as text. */
    method LoadGoal(store: GoalStore)
      modifies this
      ensures goal == store.GetMemberGoal(memberId, month)
      ensures inputs == InputsOf(goal)
      ensures isEditing == old(isEditing)
    {
      goal := store.GetMemberGoal(memberId, month);
      inputs := InputsOf(goal);
    }

    /** The edit buttons. */
    method StartEditing()
      modifies this
      ensures isEditing && goal == old(goal) && inputs == old(inputs)
    {
      isEditing := true;
    }

    /** `handleTargetChange`: only that activity's text changes. */
    method HandleTargetChange(activityId: string, value: string)
      modifies this
      ensures inputs == SetInput(old(inputs), activityId, value)
      ensures InputText(inputs, activityId) == Some(value)
      ensures forall other :: other != activityId ==> InputText(inputs, other) == InputText(old(inputs), other)
      ensures goal == old(goal) && isEditing == old(isEditing)
    {
      forall other ensures other != activityId ==> InputText(SetInput(inputs, activityId, value), other) == InputText(inputs, other) {
        SetInputReads(inputs, activityId, value, other);
      }
      SetInputReads(inputs, activityId, value, activityId);
      inputs := SetInput(inputs, activityId, value);
    }

    /** `handleCancel`: the texts go back to the loaded goal's, and editing ends. */
    method HandleCancel()
      modifies this
      ensures inputs == InputsOf(goal) && !isEditing && goal == old(goal)
    {
      inputs := InputsOf(goal);
      isEditing := false;
    }

    /**
     * `handleSave`: the valid inputs become the targets. With none, nothing
     * changes; otherwise the goal `{memberId, month, activityTargets}` with no
     * timestamps is saved to the store and kept, and editing ends.
     */
    method HandleSave(store: GoalStore, now: string) returns (saved: bool)
      modifies this, store
      ensures saved <==> ValidTargets(ParseInt, old(inputs)) != []
      ensures !saved ==> goal == old(goal) && inputs == old(inputs) && isEditing == old(isEditing) && store.goals == old(store.goals)
      ensures saved ==> goal == Some(MemberGoal(memberId, month, ValidTargets(ParseInt, old(inputs)), None, None)) && !isEditing
      ensures saved ==> store.goals == SavedGoals(old(store.goals), goal.value, now) && inputs == old(inputs)
    {
      var targets := CollectTargets(inputs);
      if |targets| == 0 {
        return false;
      }
      var newGoal := MemberGoal(memberId, month, targets, None, None);
      store.SaveMemberGoal(newGoal, now);
      goal := Some(newGoal);
      isEditing := false;
      saved := true;
    }
  }
}
