/**
 * The one-day slot editor: the codes picked for the three time slots of a
 * date, resynchronised from the stored schedule and emitted as a new
 * `DaySchedule` on every change.
 */
module WorkScheduleEditor {
  import opened Wrappers
  import opened WorkCatalog

  /** `getSlotLabel`: the Vietnamese name of each time slot. */
  function SlotLabel(slot: TimeSlot): (r: string)
    ensures slot == Morning <==> r == "Sáng"
    ensures slot == Afternoon <==> r == "Chiều"
    ensures slot == Evening <==> r == "Tối"
  {
    match slot
    case Morning => "Sáng"
    case Afternoon => "Chiều"
    case Evening => "Tối"
  }

  /** `schedule?.[slot] || ''`: a missing schedule or slot reads as the empty code. */
  function SlotCode(schedule: Option<DaySchedule>, slot: TimeSlot): (r: string)
    ensures r == "" <==> schedule.None? || schedule.value.Slot(slot).None? || schedule.value.Slot(slot).value == ""
    ensures r != "" ==> schedule.Some? && schedule.value.Slot(slot) == Some(r)
  {
    if schedule.Some? && schedule.value.Slot(slot).Some? then schedule.value.Slot(slot).value else ""
  }

  /** `code || undefined`: the empty code is stored as an absent slot. */
  function Stored(code: string): (r: Option<string>)
    ensures r.None? <==> code == ""
    ensures r.Some? ==> r.value == code
  {
    if code == "" then None else Some(code)
  }

  /** A stored slot never holds the empty code (what `Stored` produces). */
  predicate NoEmptySlot(s: DaySchedule)
  {
    s.morning != Some("") && s.afternoon != Some("") && s.evening != Some("")
  }

  /** The editor's `selectedSlots` state for one date. */
  class SlotEditor {
    const date: string
    var morning: string
    var afternoon: string
    var evening: string

    /** `selectedSlots[slot]`. */
    function Selected(slot: TimeSlot): string
      reads this
    {
      match slot
      case Morning => morning
      case Afternoon => afternoon
      case Evening => evening
    }

    /** The `DaySchedule` the editor emits for its current selection. */
    function Emitted(): (r: DaySchedule)
      reads this
      ensures r.date == date
      ensures forall slot :: r.Slot(slot) == Stored(Selected(slot))
    {
      DaySchedule(date, Stored(morning), Stored(afternoon), Stored(evening))
    }

    /** Initial `selectedSlots`: each slot copied from the schedule prop, `''` where missing. */
    constructor (date: string, schedule: Option<DaySchedule>)
      ensures this.date == date
      ensures forall slot :: Selected(slot) == SlotCode(schedule, slot)
    {
      this.date := date;
      morning := SlotCode(schedule, Morning);
      afternoon := SlotCode(schedule, Afternoon);
      evening := SlotCode(schedule, Evening);
    }

    /** The effect that resynchronises the selection when the schedule prop changes. */
    method Resync(schedule: Option<DaySchedule>)
      modifies this
      ensures forall slot :: Selected(slot) == SlotCode(schedule, slot)
    {
      morning := SlotCode(schedule, Morning);
      afternoon := SlotCode(schedule, Afternoon);
      evening := SlotCode(schedule, Evening);
    }

    /**
     * `handleSlotChange(slot, value)`: only the named slot takes the new
     * value, and the emitted schedule carries the editor's date with every
     * empty slot left out.
     */
    method HandleSlotChange(slot: TimeSlot, value: string) returns (newSchedule: DaySchedule)
      modifies this
      ensures Selected(slot) == value
      ensures forall other :: other != slot ==> Selected(other) == old(Selected(other))
      ensures newSchedule == Emitted()
      ensures newSchedule.date == date && newSchedule.Slot(slot) == Stored(value)
    {
      match slot {
        case Morning => morning := value;
        case Afternoon => afternoon := value;
        case Evening => evening := value;
      }
      newSchedule := DaySchedule(date, Stored(morning), Stored(afternoon), Stored(evening));
    }
  }

  /**
   * Reading a stored schedule into the editor and emitting it unchanged
   * gives the same schedule back, when it was stored for the editor's date
   * and holds no empty code.
   */
  lemma EmitAfterLoad(schedule: DaySchedule)
    requires NoEmptySlot(schedule)
    ensures forall slot :: Stored(SlotCode(Some(schedule), slot)) == schedule.Slot(slot)
    ensures DaySchedule(schedule.date,
                        Stored(SlotCode(Some(schedule), Morning)),
                        Stored(SlotCode(Some(schedule), Afternoon)),
                        Stored(SlotCode(Some(schedule), Evening))) == schedule
  {
    forall slot ensures Stored(SlotCode(Some(schedule), slot)) == schedule.Slot(slot) {
      match slot
      case Morning =>
      case Afternoon =>
      case Evening =>
    }
  }

  /** Every schedule the editor emits holds no empty code. */
  lemma EmittedHasNoEmptySlot(date: string, m: string, a: string, e: string)
    ensures NoEmptySlot(DaySchedule(date, Stored(m), Stored(a), Stored(e)))
  {
  }
}
