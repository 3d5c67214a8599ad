/** The decisions of the barber's profile screen: its own copy of the weekly
    default table, the daily-grid actions (toggle a slot, rename a slot, add
    a slot) and the exception form. Each action is modelled by the effect it
    asks for: nothing, an alert, closing the editor, or a call of the daily
    slot upsert with (old time, new time, active). The upsert itself runs in
    the database and is not part of this model. */
module BarberProfile {
  import opened Text
  import opened Clock
  import opened ScheduleService

  const DayNames: seq<string> := ["Domingo", "Segunda", "Terça", "Quarta", "Quinta", "Sexta", "Sábado"]

  /** The screen's own default for a weekday without a stored row. */
  function ProfileDefault(index: int): ScheduleConfig {
    var def := ScheduleConfig(index, "09:00", "19:00", None, None, false, None);
    if index >= 1 && index <= 4 then def.(endTime := "19:30", isActive := true)
    else if index == 5 then def.(endTime := "17:00", isActive := true)
    else if index == 0 then def.(endTime := "13:00", isActive := true)
    else def
  }

  /** `DAYS.map((_, index) => ...)` over a successful schedule fetch. */
  function ProfileWeek(stored: seq<ScheduleConfig>): (r: seq<ScheduleConfig>)
    ensures |r| == |DayNames|
  {
    seq(|DayNames|, index requires 0 <= index < |DayNames| =>
      match FindConfig(stored, index)
      case Some(existing) => existing
      case None => ProfileDefault(index))
  }

  /** The screen's table and the service's effective configuration agree on
      every stored list: the two copies of the default table are the same. */
  lemma ProfileWeekMatchesService(stored: seq<ScheduleConfig>)
    ensures ProfileWeek(stored) == EffectiveScheduleConfig(Some(stored))
    ensures forall day :: 0 <= day < 7 ==> ProfileDefault(day) == DefaultConfig(day)
  {
  }

  datatype SlotEffect =
    | NoEffect
    | AlertBooked
    | AlertBadFormat
    | CloseEditor
    | Upsert(oldTime: string, newTime: string, active: bool)

  function StatusName(status: SlotStatus): string {
    match status
    case Available => "available"
    case Blocked => "blocked"
    case Booked => "booked"
  }

  /** `handleToggleSlot`: a booked slot only raises an alert; any other slot is
      upserted in place, made active exactly when it is currently blocked. */
  function ToggleSlot(barberId: Option<string>, time: string, currentStatus: string): (e: SlotEffect)
    ensures barberId.None? ==> e == NoEffect
    ensures barberId.Some? && currentStatus == "booked" ==> e == AlertBooked
    ensures e.Upsert? <==> barberId.Some? && currentStatus != "booked"
    ensures e.Upsert? ==> e.oldTime == time && e.newTime == time && (e.active <==> currentStatus == "blocked")
  {
    if barberId.None? then NoEffect
    else if currentStatus == "booked" then AlertBooked
    else Upsert(time, time, currentStatus == "blocked")
  }

  /** The management grid never shows a blocked slot, so toggling any of its
      slots either refuses (booked) or deactivates it; the grid offers no way
      to re-activate a slot by toggling. */
  lemma GridToggleOnlyDeactivates(barberId: string, rows: Option<seq<SlotRow>>, bookings: Option<seq<string>>, i: nat)
    requires i < |DailyManagementSlots(rows, bookings)|
    ensures var slot := DailyManagementSlots(rows, bookings)[i];
      var e := ToggleSlot(Some(barberId), slot.time, StatusName(slot.status));
      && (slot.status == Booked ==> e == AlertBooked)
      && (slot.status != Booked ==> e == Upsert(slot.time, slot.time, false))
  {
  }

  /** `handleSaveSlotTime`: an unchanged time only closes the editor; a
      changed one is upserted as active under its new time. */
  function SaveSlotTime(barberId: Option<string>, oldTime: string, newTime: string): (e: SlotEffect)
    ensures barberId.None? ==> e == NoEffect
    ensures e.Upsert? <==> barberId.Some? && oldTime != newTime
    ensures barberId.Some? && oldTime == newTime ==> e == CloseEditor
    ensures e.Upsert? ==> e == Upsert(oldTime, newTime, true)
  {
    if barberId.None? then NoEffect
    else if oldTime == newTime then CloseEditor
    else Upsert(oldTime, newTime, true)
  }

  /** `handleAddSlot` as written: a cancelled or empty prompt does nothing, a
      string not shaped `DD:DD` raises an alert, and a shaped one is passed to
      the save routine as (time, time), which treats it as unchanged. */
  function AddSlotAsWritten(barberId: Option<string>, input: Option<string>): (e: SlotEffect)
    ensures input.None? || input.value == "" ==> e == NoEffect
    ensures input.Some? && input.value != "" && !IsClockShape(input.value) ==> e == AlertBadFormat
    ensures !e.Upsert?
  {
    if input.None? || input.value == "" then NoEffect
    else if !IsClockShape(input.value) then AlertBadFormat
    else SaveSlotTime(barberId, input.value, input.value)
  }

  /** The add button never creates a slot: even a well-formed time ends with the editor closed. */
  lemma AddSlotNeverCreates()
    ensures AddSlotAsWritten(Some("b1"), Some("08:15")) == CloseEditor
  {
    assert IsClockShape("08:15");
  }

  /** The format check is a shape check only: `99:99` is accepted although it names no time. */
  lemma AddSlotAcceptsOutOfRange()
    ensures IsClockShape("99:99") && !IsValidClock("99:99")
    ensures AddSlotAsWritten(Some("b1"), Some("99:99")) != AlertBadFormat
  {
    assert "99:99"[..2] == "99" && "99"[..1] == "9";
  }

  /** `handleAddSlot` as its comment intends ("oldTime=newTime for brand new
      slots"): a shaped time is upserted as a new active slot. */
  function AddSlot(barberId: Option<string>, input: Option<string>): (e: SlotEffect)
    ensures input.None? || input.value == "" ==> e == NoEffect
    ensures input.Some? && input.value != "" && !IsClockShape(input.value) ==> e == AlertBadFormat
    ensures e.Upsert? <==> barberId.Some? && input.Some? && IsClockShape(input.value)
    ensures e.Upsert? ==> e == Upsert(input.value, input.value, true)
  {
    if input.None? || input.value == "" then NoEffect
    else if !IsClockShape(input.value) then AlertBadFormat
    else if barberId.None? then NoEffect
    else Upsert(input.value, input.value, true)
  }

  datatype ExceptionEffect = NoExceptionEffect | AlertMissingReason | AddBlock(block: BlockedPeriod)

  /** `value || null` on a form string. */
  function EmptyAsNull(value: string): (r: Option<string>)
    ensures r.None? <==> value == ""
    ensures r.Some? ==> r.value == value
  {
    if value == "" then None else Some(value)
  }

  /** `handleAddException` up to the call: a reason is required, and empty
      start or end fields become null (a whole-day exception). */
  function AddException(barberId: Option<string>, date: string, start: string, end: string,
                        reason: string, kind: ExceptionKind): (e: ExceptionEffect)
    ensures e.AddBlock? <==> barberId.Some? && reason != ""
    ensures barberId.Some? && reason == "" ==> e == AlertMissingReason
    ensures e.AddBlock? ==>
      && e.block.date == date && e.block.reason == Some(reason) && e.block.kind == Some(kind)
      && (e.block.startTime.None? <==> start == "")
      && (e.block.endTime.None? <==> end == "")
      && (e.block.startTime.Some? ==> e.block.startTime.value == start)
      && (e.block.endTime.Some? ==> e.block.endTime.value == end)
  {
    if barberId.None? then NoExceptionEffect
    else if reason == "" then AlertMissingReason
    else AddBlock(BlockedPeriod(date, EmptyAsNull(start), EmptyAsNull(end), Some(reason), Some(kind)))
  }

  /** What the form submits reaches the database unchanged. */
  lemma ExceptionFormRoundTrip(barberId: string, date: string, start: string, end: string,
                               reason: string, kind: ExceptionKind)
    requires reason != ""
    ensures var e := AddException(Some(barberId), date, start, end, reason, kind);
      e.AddBlock? && BlockedPeriodParams(e.block) == BlockParams(date, EmptyAsNull(start), EmptyAsNull(end), reason, kind)
  {
  }
}
