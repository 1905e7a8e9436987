/**
 * The input card of one activity: its four control states (checkbox,
 * morning/evening pair, counter, radio choice), their initial values taken
 * from the stored value, and the change handlers that update one state and
 * report the new value.
 */
module PrayerCard {
  import opened Wrappers
  import opened Text
  import opened JsMath
  import opened Catalog

  /** Which half of the morning/evening pair a change is for. */
  datatype Half = MorningHalf | EveningHalf

  /** The `maxValue` prop's default. */
  const DEFAULT_MAX_VALUE: int := 10

  /** The options the radio control offers by default. */
  const DEFAULT_OPTIONS: seq<string> := ["0", "1", "2"]

  /** `Math.max(0, Math.min(maxValue, v))`. */
  function Clamp(v: int, maxValue: int): (r: int)
    ensures r >= 0
    ensures maxValue >= 0 ==> r <= maxValue
    ensures 0 <= v <= maxValue ==> r == v
    ensures v < 0 ==> r == 0
    ensures v > maxValue ==> r == Max(0, maxValue)
  {
    Max(0, Min(maxValue, v))
  }

  /** The minus button is disabled. */
  predicate MinusDisabled(counterValue: int)
  {
    counterValue <= 0
  }

  /** The plus button is disabled. */
  predicate PlusDisabled(counterValue: int, maxValue: int)
  {
    counterValue >= maxValue
  }

  /** The card's state. */
  class Card {
    const maxValue: int
    var checkboxValue: bool
    var dualMorning: bool
    var dualEvening: bool
    var counterValue: int
    var radioValue: string

    /**
     * The initial state: each control starts from the stored value when it
     * has that control's shape, else from its default (unticked, both halves
     * unticked, a count of 1, the choice "1").
     */
    constructor (initialValue: Option<ActivityValue>, maxValue: Option<int>)
      ensures this.maxValue == maxValue.GetOr(DEFAULT_MAX_VALUE)
      ensures checkboxValue == (initialValue.Some? && initialValue.value.BoolVal? && initialValue.value.b)
      ensures initialValue.Some? && initialValue.value.DualVal? ==>
                dualMorning == initialValue.value.morning && dualEvening == initialValue.value.evening
      ensures !(initialValue.Some? && initialValue.value.DualVal?) ==> !dualMorning && !dualEvening
      ensures counterValue == if initialValue.Some? && initialValue.value.NumVal? then initialValue.value.n else 1
      ensures radioValue == if initialValue.Some? && initialValue.value.NumVal? then IntToString(initialValue.value.n) else "1"
    {
      this.maxValue := maxValue.GetOr(DEFAULT_MAX_VALUE);
      match initialValue {
        case Some(BoolVal(b)) =>
          checkboxValue, dualMorning, dualEvening, counterValue, radioValue := b, false, false, 1, "1";
        case Some(DualVal(m, e)) =>
          checkboxValue, dualMorning, dualEvening, counterValue, radioValue := false, m, e, 1, "1";
        case Some(NumVal(n)) =>
          checkboxValue, dualMorning, dualEvening, counterValue, radioValue := false, false, false, n, IntToString(n);
        case None =>
          checkboxValue, dualMorning, dualEvening, counterValue, radioValue := false, false, false, 1, "1";
      }
    }

    /** `handleCheckboxChange`: the checkbox takes the flag, which is reported. */
    method HandleCheckboxChange(checked: bool) returns (emitted: ActivityValue)
      modifies this
      ensures checkboxValue == checked && emitted == BoolVal(checked)
      ensures dualMorning == old(dualMorning) && dualEvening == old(dualEvening)
      ensures counterValue == old(counterValue) && radioValue == old(radioValue)
    {
      checkboxValue := checked;
      emitted := BoolVal(checked);
    }

    /** `handleDualCheckboxChange`: only the named half changes, and the whole pair is reported. */
    method HandleDualCheckboxChange(half: Half, checked: bool) returns (emitted: ActivityValue)
      modifies this
      ensures half == MorningHalf ==> dualMorning == checked && dualEvening == old(dualEvening)
      ensures half == EveningHalf ==> dualEvening == checked && dualMorning == old(dualMorning)
      ensures emitted == DualVal(dualMorning, dualEvening)
      ensures checkboxValue == old(checkboxValue) && counterValue == old(counterValue) && radioValue == old(radioValue)
    {
      match half {
        case MorningHalf => dualMorning := checked;
        case EveningHalf => dualEvening := checked;
      }
      emitted := DualVal(dualMorning, dualEvening);
    }

    /** `handleCounterChange`: the count is clamped to 0..maxValue, stored and reported. */
    method HandleCounterChange(newValue: int) returns (emitted: ActivityValue)
      modifies this
      ensures counterValue == Clamp(newValue, maxValue) && emitted == NumVal(counterValue)
      ensures counterValue >= 0 && (maxValue >= 0 ==> counterValue <= maxValue)
      ensures checkboxValue == old(checkboxValue) && radioValue == old(radioValue)
      ensures dualMorning == old(dualMorning) && dualEvening == old(dualEvening)
    {
      counterValue := Max(0, Min(maxValue, newValue));
      emitted := NumVal(counterValue);
    }

    /** `handleRadioChange`: the choice is stored and its `parseInt` reported (`None` for NaN). */
    method HandleRadioChange(value: string) returns (emitted: Option<int>)
      modifies this
      ensures radioValue == value && emitted == ParseInt(value)
      ensures checkboxValue == old(checkboxValue) && counterValue == old(counterValue)
      ensures dualMorning == old(dualMorning) && dualEvening == old(dualEvening)
    {
      radioValue := value;
      emitted := ParseInt(value);
    }
  }

  /**
   * The enabled buttons move the count by exactly one: minus from a count
   * above 0, plus from a count below `maxValue`, within 0..maxValue.
   */
  lemma CounterButtonsStep(counterValue: int, maxValue: int)
    requires 0 <= counterValue <= maxValue
    ensures !MinusDisabled(counterValue) ==> Clamp(counterValue - 1, maxValue) == counterValue - 1
    ensures !PlusDisabled(counterValue, maxValue) ==> Clamp(counterValue + 1, maxValue) == counterValue + 1
    ensures MinusDisabled(counterValue) ==> Clamp(counterValue - 1, maxValue) == 0
    ensures PlusDisabled(counterValue, maxValue) ==> Clamp(counterValue + 1, maxValue) == maxValue
  {
  }

  /** Clamping twice is clamping once: a clamped count is left as it is. */
  lemma ClampIdempotent(v: int, maxValue: int)
    requires maxValue >= 0
    ensures Clamp(Clamp(v, maxValue), maxValue) == Clamp(v, maxValue)
  {
  }

  /** The default radio options report 0, 1 and 2. */
  lemma DefaultOptionsParse()
    ensures forall i :: 0 <= i < |DEFAULT_OPTIONS| ==> ParseInt(DEFAULT_OPTIONS[i]) == Some(i)
  {
    forall i | 0 <= i < |DEFAULT_OPTIONS| ensures ParseInt(DEFAULT_OPTIONS[i]) == Some(i) {
      var c := DEFAULT_OPTIONS[i][0];
      assert DEFAULT_OPTIONS[i] == [c] && IsDigit(c) && DigitValue(c) == i;
      ParseDigit(c);
    }
  }
}
