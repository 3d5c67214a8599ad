/** The customer's appointment screen: the time shown on a card, the status
    badge, the 30-minute modification window, which buttons a card offers
    on each tab, and the guard on the reschedule form. Instants are
    milliseconds on one local time line; turning a date string into an
    instant is outside the model and arrives as a parameter (None when the
    date does not parse, where JavaScript yields NaN). */
module MyAppointments {
  import opened Text
  import opened AppointmentService

  /** `timeStr.substring(0, 5)`: the `HH:MM` part of a stored `HH:MM:SS`. */
  function FormatTime(t: string): (r: string)
    ensures |r| == if |t| < 5 then |t| else 5
    ensures r == t[..|r|]
  {
    Take(t, 5)
  }

  /** The short form the screen shows and edits is undone by the
      normalisation the reschedule call applies: a stored `HH:MM:00` time
      comes back unchanged, and a short time survives the trip. */
  lemma FormatThenNormalize(t: string)
    ensures |t| >= 5 ==> NormalizeTime(FormatTime(t)) == t[..5] + ":00"
    ensures |t| == 8 && t[5..] == ":00" ==> NormalizeTime(FormatTime(t)) == t
    ensures |t| == 5 ==> FormatTime(NormalizeTime(t)) == t
  {
    if |t| == 8 && t[5..] == ":00" {
      assert t == t[..5] + t[5..];
    }
  }

  datatype Badge = Pending | Confirmed | Completed | Cancelled

  function BadgeKey(b: Badge): string {
    match b
    case Pending => "pending"
    case Confirmed => "confirmed"
    case Completed => "completed"
    case Cancelled => "cancelled"
  }

  function BadgeLabel(b: Badge): string {
    match b
    case Pending => "Pendente"
    case Confirmed => "Confirmado"
    case Completed => "Concluído"
    case Cancelled => "Cancelado"
  }

  /** `statusConfig[status] || statusConfig.pending`. */
  function StatusBadge(status: string): (b: Badge)
    ensures status == BadgeKey(b) || (b == Pending && forall other: Badge :: BadgeKey(other) != status)
  {
    if status == "confirmed" then Confirmed
    else if status == "completed" then Completed
    else if status == "cancelled" then Cancelled
    else Pending
  }

  /** Every badge is shown for its own status key, and only for it or for an unknown status. */
  lemma BadgeRoundTrip(b: Badge, status: string)
    ensures StatusBadge(BadgeKey(b)) == b
    ensures StatusBadge(status) == b ==> status == BadgeKey(b) || b == Pending
  {
  }

  const MillisPerMinute: int := 60000
  const NoticeMinutes: int := 30

  /** `(aptDate - now) / 1000 / 60 > 30` on JavaScript numbers; an
      unparseable date is NaN, and NaN compares false. */
  function CanModify(aptInstant: Option<int>, now: int): (ok: bool)
    ensures ok <==> aptInstant.Some? && aptInstant.value - now > NoticeMinutes * MillisPerMinute
  {
    aptInstant.Some? && (aptInstant.value - now) as real / 1000.0 / 60.0 > 30.0
  }

  /** The window only closes as time passes: what can be modified now could be modified earlier. */
  lemma CanModifyEarlier(aptInstant: Option<int>, now: int, earlier: int)
    requires earlier <= now && CanModify(aptInstant, now)
    ensures CanModify(aptInstant, earlier)
  {
  }

  /** The instant of a minute of a calendar day on the local time line. */
  function LocalInstant(day: int, minute: int): int {
    (day * 1440 + minute) * MillisPerMinute
  }

  /** On one day, a card is modifiable exactly when it starts more than 30 minutes from now. */
  lemma CanModifySameDay(day: int, aptMinute: int, nowMinute: int)
    ensures CanModify(Some(LocalInstant(day, aptMinute)), LocalInstant(day, nowMinute)) <==> aptMinute - nowMinute > 30
  {
    assert LocalInstant(day, aptMinute) - LocalInstant(day, nowMinute) == (aptMinute - nowMinute) * MillisPerMinute;
  }

  datatype Tab = UpcomingTab | HistoryTab

  /** The cards the active tab renders. */
  function Shown(tab: Tab, lists: CustomerAppointments): seq<CustomerAppointment> {
    if tab == UpcomingTab then lists.upcoming else lists.history
  }

  /** The edit and cancel buttons appear only on the upcoming tab and inside the window. */
  predicate Editable(tab: Tab, aptInstant: Option<int>, now: int)
    ensures Editable(tab, aptInstant, now) <==>
      tab == UpcomingTab && aptInstant.Some? && aptInstant.value - now > NoticeMinutes * MillisPerMinute
  {
    tab == UpcomingTab && CanModify(aptInstant, now)
  }

  /** The delete button appears on the history tab and on any cancelled card. */
  predicate DeleteVisible(tab: Tab, status: string)
    ensures DeleteVisible(tab, status) <==> tab == HistoryTab || StatusBadge(status) == Cancelled
  {
    tab == HistoryTab || status == "cancelled"
  }

  /** Read against the upcoming/history split: no upcoming card offers
      delete, every history card does and none offers edit. */
  lemma ButtonsFollowSplit(rows: Option<seq<AppointmentRow>>, today: string, i: nat, aptInstant: Option<int>, now: int)
    ensures var lists := SplitAppointments(rows, today);
      && (i < |Shown(UpcomingTab, lists)| ==> !DeleteVisible(UpcomingTab, Shown(UpcomingTab, lists)[i].status))
      && (i < |Shown(HistoryTab, lists)| ==> DeleteVisible(HistoryTab, Shown(HistoryTab, lists)[i].status))
      && !Editable(HistoryTab, aptInstant, now)
  {
  }

  /** The reschedule request: the time is normalised by the service call. */
  datatype Reschedule = Reschedule(appointmentId: string, date: string, time: string)

  /** `handleRescheduleSubmit` up to the update: nothing is sent without a
      selected appointment, a date and a time. */
  function RescheduleSubmit(selected: Option<CustomerAppointment>, newDate: string, newTime: string): (r: Option<Reschedule>)
    ensures r.Some? <==> selected.Some? && newDate != "" && newTime != ""
    ensures r.Some? ==> r.value.appointmentId == selected.value.id && r.value.date == newDate
    ensures r.Some? && |newTime| == 5 ==> r.value.time == newTime + ":00"
    ensures r.Some? && |newTime| != 5 ==> r.value.time == newTime
  {
    if selected.None? || newDate == "" || newTime == "" then None
    else Some(Reschedule(selected.value.id, newDate, NormalizeTime(newTime)))
  }

  /** Opening the form on a card and confirming at once rewrites the card's
      own date and `HH:MM:00` time. */
  lemma UntouchedRescheduleKeepsTime(apt: CustomerAppointment)
    requires apt.date != "" && |apt.time| == 8 && apt.time[5..] == ":00"
    ensures RescheduleSubmit(Some(apt), apt.date, FormatTime(apt.time)) == Some(Reschedule(apt.id, apt.date, apt.time))
  {
    FormatThenNormalize(apt.time);
  }
}
