/** The client-side part of the schedule service: the slot-grid generator,
    the seven-day weekly table with its hard-coded business defaults, and
    the staff-facing daily grid that marks booked slots and sorts by time.
    Everything the database computes (the stored rows, the day's slot rows,
    the day's bookings) arrives here as an input value; a failed fetch is
    `None`. */
module ScheduleService {
  import opened Text
  import opened Clock
  import opened Sorting

  /** Safety cap on the generator loop. */
  const SlotCap: nat := 100

  function Min(a: int, b: int): int {
    if a <= b then a else b
  }

  /** How many labels the generator emits from start to end: the grid points
      strictly before end, at most SlotCap. An interval of zero or less never
      reaches end, so such a loop always runs into the cap. */
  function SlotCount(start: int, end: int, interval: int): nat {
    if start >= end then 0
    else if interval <= 0 then SlotCap
    else Min(SlotCap, (end - start + interval - 1) / interval)
  }

  /** The i-th point of the grid that starts at s and steps by k. */
  function GridPoint(s: int, i: int, k: int): int {
    s + i * k
  }

  lemma GridStep(s: int, i: int, k: int)
    ensures GridPoint(s, i + 1, k) == GridPoint(s, i, k) + k
  {
    assert (i + 1) * k == i * k + k;
  }

  lemma MulCancel(x: int, y: int, k: int)
    requires k > 0 && x * k < y * k
    ensures x < y
  {
  }

  lemma MulMono(x: int, y: int, k: int)
    requires x < y && k > 0
    ensures x * k < y * k
  {
  }

  /** The loop's exit condition pins down its count: labels stop at the cap or
      at the first grid point that is not before end. */
  lemma StopCount(s: int, e: int, k: int, n: nat)
    requires n <= SlotCap
    requires forall i :: 0 <= i < n ==> GridPoint(s, i, k) < e
    requires n == SlotCap || GridPoint(s, n, k) >= e
    ensures n == SlotCount(s, e, k)
  {
    assert n == 0 || GridPoint(s, 0, k) < e;
    assert k <= 0 ==> n * k <= 0;
    if s < e && k > 0 {
      var d := e - s;
      var c := (d + k - 1) / k;
      assert c * k <= d + k - 1 < c * k + k;
      assert (c - 1) * k == c * k - k;
      assert n > 0 && GridPoint(s, n - 1, k) < e;
      if n == SlotCap {
        MulCancel(SlotCap - 1, c, k);
      } else {
        MulCancel(n - 1, c, k);
        MulCancel(c - 1, n, k);
      }
    }
  }

  /** A non-empty grid starts with its start label, which is the start string itself when that is a valid clock. */
  lemma GridStart(startStr: string, s: int, e: int, k: int, slots: seq<string>)
    requires ParseClock(startStr) == Some(s)
    requires |slots| == SlotCount(s, e, k)
    requires |slots| > 0 ==> slots[0] == Label(GridPoint(s, 0, k))
    ensures s >= e <==> slots == []
    ensures IsValidClock(startStr) && s < e ==> slots[0] == startStr
  {
    if s < e {
      assert SlotCount(s, e, k) > 0;
      assert GridPoint(s, 0, k) == s;
      if IsValidClock(startStr) {
        LabelOfParse(startStr);
      }
    }
  }

  /** Within one day, each label reads back as its grid point. */
  lemma GridReadsBack(s: int, e: int, k: int, slots: seq<string>)
    requires 0 <= s && k > 0 && e <= MinutesPerDay
    requires forall i :: 0 <= i < |slots| ==> slots[i] == Label(GridPoint(s, i, k)) && GridPoint(s, i, k) < e
    ensures forall i :: 0 <= i < |slots| ==> ParseClock(slots[i]) == Some(GridPoint(s, i, k))
  {
    forall i | 0 <= i < |slots|
      ensures ParseClock(slots[i]) == Some(GridPoint(s, i, k))
    {
      assert 0 <= i * k;
      ParseLabel(GridPoint(s, i, k));
    }
  }

  /** Within one day, the labels are strictly increasing as strings. */
  lemma GridIncreasing(s: int, e: int, k: int, slots: seq<string>)
    requires 0 <= s && k > 0 && e <= MinutesPerDay
    requires forall i :: 0 <= i < |slots| ==> slots[i] == Label(GridPoint(s, i, k)) && GridPoint(s, i, k) < e
    ensures forall i, j :: 0 <= i < j < |slots| ==> StrLess(slots[i], slots[j])
  {
    forall i, j | 0 <= i < j < |slots|
      ensures StrLess(slots[i], slots[j])
    {
      MulMono(i, j, k);
      assert 0 <= i * k;
      LabelOrder(GridPoint(s, i, k), GridPoint(s, j, k));
    }
  }

  lemma ParsedNonNegative(str: string)
    requires ParseClock(str).Some?
    ensures ParseClock(str).value >= 0
  {
  }

  /** `generateSlots`: labels `start, start + interval, ...` strictly before
      end, at most SlotCap of them. An empty, missing or non-numeric bound
      gives no labels. */
  method GenerateSlots(startStr: string, endStr: string, intervalMin: int) returns (slots: seq<string>)
    ensures |slots| <= SlotCap
    ensures startStr == "" || endStr == "" ==> slots == []
    ensures ParseClock(startStr).None? || ParseClock(endStr).None? ==> slots == []
    ensures startStr != "" && endStr != "" && ParseClock(startStr).Some? && ParseClock(endStr).Some? ==>
      var s, e := ParseClock(startStr).value, ParseClock(endStr).value;
      && |slots| == SlotCount(s, e, intervalMin)
      && (forall i :: 0 <= i < |slots| ==> slots[i] == Label(GridPoint(s, i, intervalMin)) && GridPoint(s, i, intervalMin) < e)
      && (s >= e <==> slots == [])
      && (IsValidClock(startStr) && s < e ==> slots[0] == startStr)
      && (intervalMin > 0 && e <= MinutesPerDay ==>
            && (forall i :: 0 <= i < |slots| ==> ParseClock(slots[i]) == Some(GridPoint(s, i, intervalMin)))
            && (forall i, j :: 0 <= i < j < |slots| ==> StrLess(slots[i], slots[j])))
  {
    if startStr == "" || endStr == "" {
      return [];
    }
    var startTime, endTime := ParseClock(startStr), ParseClock(endStr);
    if startTime.None? || endTime.None? {
      return [];
    }
    var s, e := startTime.value, endTime.value;
    slots := [];
    var current := s;
    var limit := 0;
    while current < e && limit < SlotCap
      invariant 0 <= limit <= SlotCap
      invariant current == GridPoint(s, limit, intervalMin)
      invariant |slots| == limit
      invariant forall i :: 0 <= i < limit ==> slots[i] == Label(GridPoint(s, i, intervalMin)) && GridPoint(s, i, intervalMin) < e
      decreases SlotCap - limit
    {
      GridStep(s, limit, intervalMin);
      slots := slots + [Label(current)];
      limit := limit + 1;
      current := current + intervalMin;
    }
    StopCount(s, e, intervalMin, limit);
    GridStart(startStr, s, e, intervalMin, slots);
    if intervalMin > 0 && e <= MinutesPerDay {
      ParsedNonNegative(startStr);
      GridReadsBack(s, e, intervalMin, slots);
      GridIncreasing(s, e, intervalMin, slots);
    }
  }

  /** One stored row of the weekly pattern. */
  datatype ScheduleConfig = ScheduleConfig(
    dayOfWeek: int,
    startTime: string,
    endTime: string,
    lunchStart: Option<string>,
    lunchEnd: Option<string>,
    isActive: bool,
    slotDuration: Option<int>)

  /** The business default for a weekday that has no stored row. */
  function DefaultConfig(day: int): (c: ScheduleConfig)
    ensures c.dayOfWeek == day && c.startTime == "09:00"
    ensures c.lunchStart.None? && c.lunchEnd.None? && c.slotDuration.None?
    ensures c.isActive <==> 0 <= day <= 5
  {
    var closed := ScheduleConfig(day, "09:00", "19:00", None, None, false, None);
    if 1 <= day <= 4 then closed.(endTime := "19:30", isActive := true)
    else if day == 5 then closed.(endTime := "17:00", isActive := true)
    else if day == 0 then closed.(endTime := "13:00", isActive := true)
    else closed
  }

  /** The default table: Monday to Thursday 09:00-19:30, Friday 09:00-17:00,
      Sunday 09:00-13:00, all open; Saturday closed; no lunch break. */
  lemma DefaultTable(day: int)
    requires 0 <= day < 7
    ensures DefaultConfig(day).dayOfWeek == day
    ensures DefaultConfig(day).startTime == "09:00"
    ensures DefaultConfig(day).lunchStart.None? && DefaultConfig(day).lunchEnd.None?
    ensures DefaultConfig(day).isActive <==> day != Saturday
    ensures 1 <= day <= 4 ==> DefaultConfig(day).endTime == "19:30"
    ensures day == 5 ==> DefaultConfig(day).endTime == "17:00"
    ensures day == Sunday ==> DefaultConfig(day).endTime == "13:00"
  {
  }

  /** Position of the first stored row for the day, or |configs| when there is none. */
  function FirstRowFor(configs: seq<ScheduleConfig>, day: int): (k: nat)
    ensures k <= |configs|
    ensures k < |configs| ==> configs[k].dayOfWeek == day
    ensures forall i :: 0 <= i < k ==> configs[i].dayOfWeek != day
  {
    if |configs| == 0 || configs[0].dayOfWeek == day then 0 else 1 + FirstRowFor(configs[1..], day)
  }

  /** `configs.find(c => c.day_of_week === day)`: the first stored row for the day. */
  function FindConfig(configs: seq<ScheduleConfig>, day: int): (r: Option<ScheduleConfig>)
    ensures r.None? <==> forall i :: 0 <= i < |configs| ==> configs[i].dayOfWeek != day
    ensures r.Some? ==> r.value.dayOfWeek == day && r.value in configs
    ensures r.Some? ==> FirstRowFor(configs, day) < |configs| && r.value == configs[FirstRowFor(configs, day)]
  {
    var k := FirstRowFor(configs, day);
    if k < |configs| then Some(configs[k]) else None
  }

  /** `getEffectiveScheduleConfig`: the stored row of each weekday, or its
      default when there is none; a failed fetch gives the empty list. */
  function EffectiveScheduleConfig(stored: Option<seq<ScheduleConfig>>): (r: seq<ScheduleConfig>)
    ensures stored.None? ==> r == []
    ensures stored.Some? ==> |r| == 7
    ensures stored.Some? ==> forall day :: 0 <= day < 7 ==>
      && r[day].dayOfWeek == day
      && (FindConfig(stored.value, day).Some? ==>
            FirstRowFor(stored.value, day) < |stored.value| && r[day] == stored.value[FirstRowFor(stored.value, day)])
      && (FindConfig(stored.value, day).None? ==> r[day] == DefaultConfig(day))
  {
    match stored
    case None => []
    case Some(configs) =>
      seq(7, day requires 0 <= day < 7 =>
        match FindConfig(configs, day)
        case Some(existing) => existing
        case None => DefaultConfig(day))
  }

  /** A stored row wins over the default: the first row for the day comes back unchanged. */
  lemma StoredRowWins(configs: seq<ScheduleConfig>, k: nat)
    requires k < |configs| && 0 <= configs[k].dayOfWeek < 7
    requires forall i :: 0 <= i < k ==> configs[i].dayOfWeek != configs[k].dayOfWeek
    ensures EffectiveScheduleConfig(Some(configs))[configs[k].dayOfWeek] == configs[k]
  {
    var day := configs[k].dayOfWeek;
    assert FirstRowFor(configs, day) == k;
  }

  /** With nothing stored the effective week is exactly the default table. */
  lemma NothingStoredGivesDefaults()
    ensures EffectiveScheduleConfig(Some([])) == seq(7, day => DefaultConfig(day))
  {
  }

  /** Slot row returned by the day-grid query. */
  datatype SlotRow = SlotRow(slotTime: string, source: string)

  datatype SlotStatus = Available | Blocked | Booked

  datatype ManagementSlot = ManagementSlot(time: string, status: SlotStatus, isCustom: bool, source: string)

  /** `appointment_time.substring(0, 5)` of each booking; a failed query books nothing. */
  function BookedTimes(bookings: Option<seq<string>>): (r: seq<string>)
    ensures bookings.None? ==> r == []
    ensures bookings.Some? ==> |r| == |bookings.value|
    ensures bookings.Some? ==> forall i :: 0 <= i < |r| ==> r[i] == Take(bookings.value[i], 5)
  {
    match bookings
    case None => []
    case Some(times) => seq(|times|, i requires 0 <= i < |times| => Take(times[i], 5))
  }

  /** Marks one grid row booked or available. */
  function MarkSlot(row: SlotRow, booked: seq<string>): (m: ManagementSlot)
    ensures m.time == row.slotTime && m.source == row.source
    ensures m.status == Booked <==> row.slotTime in booked
    ensures m.status != Blocked
    ensures m.isCustom <==> row.source == "custom"
  {
    var status := if row.slotTime in booked then Booked else Available;
    ManagementSlot(row.slotTime, status, row.source == "custom", row.source)
  }

  function MarkAll(rows: seq<SlotRow>, booked: seq<string>): (r: seq<ManagementSlot>)
    ensures |r| == |rows|
    ensures forall i :: 0 <= i < |rows| ==> r[i] == MarkSlot(rows[i], booked)
  {
    seq(|rows|, i requires 0 <= i < |rows| => MarkSlot(rows[i], booked))
  }

  function SlotTime(m: ManagementSlot): string {
    m.time
  }

  /** `getDailyManagementSlots`: each grid row marked booked when its time is
      among the day's bookings and available otherwise, sorted by time; rows
      sharing a time keep their grid order. */
  function DailyManagementSlots(slotRows: Option<seq<SlotRow>>, bookings: Option<seq<string>>): (r: seq<ManagementSlot>)
    ensures slotRows.None? ==> r == []
    ensures slotRows.Some? ==> |r| == |slotRows.value|
    ensures slotRows.Some? ==> multiset(r) == multiset(MarkAll(slotRows.value, BookedTimes(bookings)))
    ensures SortedBy(r, SlotTime)
    ensures slotRows.Some? ==> SameKeyOrder(r, MarkAll(slotRows.value, BookedTimes(bookings)), SlotTime)
    ensures forall i :: 0 <= i < |r| ==>
      && r[i].status != Blocked
      && (r[i].status == Booked <==> r[i].time in BookedTimes(bookings))
      && (r[i].isCustom <==> r[i].source == "custom")
  {
    match slotRows
    case None => []
    case Some(rows) =>
      var marked := MarkAll(rows, BookedTimes(bookings));
      var r := SortBy(marked, SlotTime);
      MarkingSurvivesSort(rows, BookedTimes(bookings), r);
      r
  }

  lemma MarkingSurvivesSort(rows: seq<SlotRow>, booked: seq<string>, r: seq<ManagementSlot>)
    requires multiset(r) == multiset(MarkAll(rows, booked))
    ensures forall i :: 0 <= i < |r| ==>
      && r[i].status != Blocked
      && (r[i].status == Booked <==> r[i].time in booked)
      && (r[i].isCustom <==> r[i].source == "custom")
  {
    var marked := MarkAll(rows, booked);
    forall i | 0 <= i < |r|
      ensures r[i].status != Blocked
      ensures r[i].status == Booked <==> r[i].time in booked
      ensures r[i].isCustom <==> r[i].source == "custom"
    {
      assert r[i] in multiset(marked);
      var k :| 0 <= k < |marked| && marked[k] == r[i];
    }
  }

  /** Every grid row shows up exactly once with its own time and source:
      the grid's times are preserved, only reordered. */
  lemma ManagementSlotsKeepRows(rows: seq<SlotRow>, bookings: Option<seq<string>>, row: SlotRow)
    ensures row in rows <==>
      exists i :: 0 <= i < |DailyManagementSlots(Some(rows), bookings)|
        && DailyManagementSlots(Some(rows), bookings)[i].time == row.slotTime
        && DailyManagementSlots(Some(rows), bookings)[i].source == row.source
  {
    var r := DailyManagementSlots(Some(rows), bookings);
    if row in rows {
      RowIsShown(rows, bookings, row);
    }
    if exists i :: 0 <= i < |r| && r[i].time == row.slotTime && r[i].source == row.source {
      var i :| 0 <= i < |r| && r[i].time == row.slotTime && r[i].source == row.source;
      ShownIsRow(rows, bookings, i);
    }
  }

  lemma RowIsShown(rows: seq<SlotRow>, bookings: Option<seq<string>>, row: SlotRow)
    requires row in rows
    ensures exists i :: 0 <= i < |DailyManagementSlots(Some(rows), bookings)|
                        && DailyManagementSlots(Some(rows), bookings)[i].time == row.slotTime
                        && DailyManagementSlots(Some(rows), bookings)[i].source == row.source
  {
    var marked := MarkAll(rows, BookedTimes(bookings));
    var r := DailyManagementSlots(Some(rows), bookings);
    var k :| 0 <= k < |rows| && rows[k] == row;
    assert marked[k] in multiset(r);
    var i :| 0 <= i < |r| && r[i] == marked[k];
  }

  lemma ShownIsRow(rows: seq<SlotRow>, bookings: Option<seq<string>>, i: int)
    requires 0 <= i < |DailyManagementSlots(Some(rows), bookings)|
    ensures var s := DailyManagementSlots(Some(rows), bookings)[i];
      SlotRow(s.time, s.source) in rows
  {
    var marked := MarkAll(rows, BookedTimes(bookings));
    var r := DailyManagementSlots(Some(rows), bookings);
    assert r[i] in multiset(marked);
    var k :| 0 <= k < |marked| && marked[k] == r[i];
    assert rows[k] == SlotRow(r[i].time, r[i].source);
  }

  /** The `type` of an exception: a blocked period or extra working hours. */
  datatype ExceptionKind = BlockedKind | WorkingKind

  /** An exception as the form builds it; the kind is optional in the record type. */
  datatype BlockedPeriod = BlockedPeriod(
    date: string, startTime: Option<string>, endTime: Option<string>, reason: Option<string>, kind: Option<ExceptionKind>)

  /** The parameters `addBlockedPeriod` sends. */
  datatype BlockParams = BlockParams(
    date: string, startTime: Option<string>, endTime: Option<string>, reason: string, kind: ExceptionKind)

  /** `addBlockedPeriod`: empty times become null, a missing reason the empty
      string, and a missing kind `blocked`. */
  function BlockedPeriodParams(block: BlockedPeriod): (p: BlockParams)
    ensures p.date == block.date
    ensures p.reason == (if block.reason.Some? then block.reason.value else "")
    ensures p.kind == (if block.kind.Some? then block.kind.value else BlockedKind)
    ensures p.startTime.Some? ==> p.startTime.value != "" && block.startTime == p.startTime
    ensures p.endTime.Some? ==> p.endTime.value != "" && block.endTime == p.endTime
    ensures block.startTime.Some? && block.startTime.value != "" ==> p.startTime == block.startTime
    ensures block.endTime.Some? && block.endTime.value != "" ==> p.endTime == block.endTime
  {
    var nonEmpty := (t: Option<string>) => if t.Some? && t.value != "" then t else None;
    BlockParams(block.date, nonEmpty(block.startTime), nonEmpty(block.endTime),
      if block.reason.Some? then block.reason.value else "",
      if block.kind.Some? then block.kind.value else BlockedKind)
  }
}
