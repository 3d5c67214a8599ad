/** The client-side post-processing of the appointment service: the time and
    e-mail normalisation applied before a booking or a reschedule is sent,
    the split of a customer's appointments into upcoming and history, and
    the price coercion of the financial rows. The queries themselves are
    inputs; a failed query is `None`. */
module AppointmentService {
  import opened Text
  import opened Clock
  import opened Seqs

  /** `time.length === 5 ? time + ':00' : time`: an `HH:MM` time gains seconds. */
  function NormalizeTime(t: string): (r: string)
    ensures |t| == 5 ==> |r| == 8 && r[..5] == t && r[5..] == ":00"
    ensures |t| != 5 ==> r == t
  {
    if |t| == 5 then t + ":00" else t
  }

  /** Normalising twice is normalising once: a normalised time never has length 5. */
  lemma NormalizeTimeIdempotent(t: string)
    ensures |NormalizeTime(t)| != 5
    ensures NormalizeTime(NormalizeTime(t)) == NormalizeTime(t)
  {
  }

  /** A normalised valid clock still names the same minute of the day. */
  lemma NormalizedTimeReadsTheSame(t: string)
    requires IsValidClock(t)
    ensures ParseClock(NormalizeTime(t)) == ParseClock(t)
  {
    var r := NormalizeTime(t);
    ParseShaped(t);
    assert ColonIndex(r) == 2 by {
      assert r[0] != ':' && r[1] != ':' && r[2] == ':';
      assert r[1..][1..] == r[2..];
    }
    var rest := r[3..];
    assert rest == t[3..] + ":00";
    assert ColonIndex(rest) == 2 by {
      assert rest[0] != ':' && rest[1] != ':' && rest[2] == ':';
      assert rest[1..][1..] == rest[2..];
    }
    assert rest[..2] == t[3..];
    assert r[..2] == t[..2];
  }

  /** `(email || '').toLowerCase() || null`: lower-cased, with empty or missing becoming null. */
  function NormalizeEmail(email: Option<string>): (r: Option<string>)
    ensures r.None? <==> email.None? || email.value == ""
    ensures r.Some? ==> |r.value| == |email.value|
    ensures r.Some? ==> forall i :: 0 <= i < |r.value| ==> r.value[i] == LowerChar(email.value[i])
  {
    var lowered := Lower(if email.Some? then email.value else "");
    if lowered == "" then None else Some(lowered)
  }

  /** Addresses that differ only in letter case normalise alike, and normalising is idempotent. */
  lemma NormalizeEmailCaseInsensitive(email: string)
    ensures NormalizeEmail(Some(Lower(email))) == NormalizeEmail(Some(email))
    ensures NormalizeEmail(NormalizeEmail(Some(email))) == NormalizeEmail(Some(email))
  {
    LowerIdempotent(email);
  }

  /** The argument of `createAppointment`. */
  datatype BookingRequest = BookingRequest(
    barberId: string, customerName: string, customerPhone: string, customerEmail: string,
    day: int, time: string, serviceIds: seq<string>, userId: Option<string>)

  /** The parameters `createAppointment` sends to the booking RPC. */
  datatype AppointmentParams = AppointmentParams(
    barberId: string, customerName: string, customerPhone: string, customerEmail: Option<string>,
    day: int, time: string, serviceIds: seq<string>, userId: Option<string>)

  /** `createAppointment` up to the RPC: the time gains seconds, the e-mail is
      lower-cased or null, an empty user id becomes null, and everything else
      is passed as it is. */
  function CreateAppointmentParams(req: BookingRequest): (p: AppointmentParams)
    ensures p.time == NormalizeTime(req.time)
    ensures p.customerEmail == NormalizeEmail(Some(req.customerEmail))
    ensures p.userId == (if req.userId.Some? && req.userId.value != "" then req.userId else None)
    ensures p.barberId == req.barberId && p.serviceIds == req.serviceIds && p.day == req.day
    ensures p.customerName == req.customerName && p.customerPhone == req.customerPhone
  {
    AppointmentParams(req.barberId, req.customerName, req.customerPhone,
      NormalizeEmail(Some(req.customerEmail)), req.day, NormalizeTime(req.time), req.serviceIds,
      if req.userId.Some? && req.userId.value != "" then req.userId else None)
  }

  /** A booking from a valid clock goes out as `HH:MM:00` naming the same minute. */
  lemma SubmittedTimeIsNormalised(req: BookingRequest)
    requires IsValidClock(req.time)
    ensures |CreateAppointmentParams(req).time| == 8
    ensures ParseClock(CreateAppointmentParams(req).time) == ParseClock(req.time)
  {
    NormalizedTimeReadsTheSame(req.time);
  }

  /** An appointment as the customer screen receives it. */
  datatype CustomerAppointment = CustomerAppointment(
    id: string,
    barberId: string,
    barberName: string,
    barberPhotoUrl: string,
    customerName: string,
    customerPhone: string,
    customerEmail: Option<string>,
    date: string,
    time: string,
    status: string,
    createdAt: string,
    serviceNames: string,
    totalPrice: Option<real>)

  /** A row of the customer query; the joined barber name and photo may be missing. */
  datatype AppointmentRow = AppointmentRow(
    id: string,
    barberId: string,
    barberName: Option<string>,
    barberPhotoUrl: Option<string>,
    customerName: string,
    customerPhone: string,
    customerEmail: Option<string>,
    date: string,
    time: string,
    status: string,
    createdAt: string,
    serviceNames: string,
    totalPrice: Option<real>)

  const DefaultBarberName: string := "Barbeiro"

  /** `value || fallback` on an optional string. */
  function OrElse(value: Option<string>, fallback: string): (r: string)
    ensures value.Some? && value.value != "" ==> r == value.value
    ensures value.None? || value.value == "" ==> r == fallback
  {
    if value.Some? && value.value != "" then value.value else fallback
  }

  function FromRow(row: AppointmentRow): (a: CustomerAppointment)
    ensures a.id == row.id && a.date == row.date && a.time == row.time && a.status == row.status
    ensures a.barberName == OrElse(row.barberName, DefaultBarberName)
    ensures a.barberPhotoUrl == OrElse(row.barberPhotoUrl, "")
    ensures a.barberId == row.barberId && a.createdAt == row.createdAt
    ensures a.customerName == row.customerName && a.customerPhone == row.customerPhone
    ensures a.customerEmail == row.customerEmail
    ensures a.serviceNames == row.serviceNames && a.totalPrice == row.totalPrice
  {
    CustomerAppointment(row.id, row.barberId, OrElse(row.barberName, DefaultBarberName),
      OrElse(row.barberPhotoUrl, ""), row.customerName, row.customerPhone, row.customerEmail,
      row.date, row.time, row.status, row.createdAt, row.serviceNames, row.totalPrice)
  }

  function FromRows(rows: seq<AppointmentRow>): (r: seq<CustomerAppointment>)
    ensures |r| == |rows|
    ensures forall i :: 0 <= i < |rows| ==> r[i] == FromRow(rows[i])
  {
    seq(|rows|, i requires 0 <= i < |rows| => FromRow(rows[i]))
  }

  /** Dated today or later (JavaScript `date >= today`, i.e. not `date < today`)
      and neither cancelled nor completed. */
  predicate IsUpcoming(a: CustomerAppointment, today: string) {
    !StrLess(a.date, today) && a.status != "cancelled" && a.status != "completed"
  }

  predicate IsHistory(a: CustomerAppointment, today: string) {
    StrLess(a.date, today) || a.status == "completed" || a.status == "cancelled"
  }

  datatype CustomerAppointments = CustomerAppointments(upcoming: seq<CustomerAppointment>, history: seq<CustomerAppointment>)

  /** The post-query part of `getCustomerAppointments`. The query returns the
      rows newest first; upcoming is reversed so the closest date comes first. */
  function SplitAppointments(rows: Option<seq<AppointmentRow>>, today: string): (r: CustomerAppointments)
    ensures rows.None? ==> r.upcoming == [] && r.history == []
    ensures rows.Some? ==> multiset(r.upcoming) + multiset(r.history) == multiset(FromRows(rows.value))
    ensures rows.Some? ==> Subsequence(r.history, FromRows(rows.value))
    ensures rows.Some? ==> Subsequence(Reverse(r.upcoming), FromRows(rows.value))
    ensures forall i :: 0 <= i < |r.upcoming| ==>
      StrLeq(today, r.upcoming[i].date) && r.upcoming[i].status != "cancelled" && r.upcoming[i].status != "completed"
    ensures forall i :: 0 <= i < |r.history| ==>
      StrLess(r.history[i].date, today) || r.history[i].status == "completed" || r.history[i].status == "cancelled"
  {
    match rows
    case None => CustomerAppointments([], [])
    case Some(rs) =>
      var apts := FromRows(rs);
      SplitPartition(apts, today);
      UpcomingClassified(apts, today);
      HistoryClassified(apts, today);
      CustomerAppointments(Reverse(UpcomingOf(apts, today)), HistoryOf(apts, today))
  }

  /** `apts.filter(a => a.date >= today && …)`, in query order. */
  function UpcomingOf(apts: seq<CustomerAppointment>, today: string): seq<CustomerAppointment> {
    Filter(apts, (a: CustomerAppointment) => IsUpcoming(a, today))
  }

  /** `apts.filter(a => a.date < today || …)`, in query order. */
  function HistoryOf(apts: seq<CustomerAppointment>, today: string): seq<CustomerAppointment> {
    Filter(apts, (a: CustomerAppointment) => IsHistory(a, today))
  }

  /** The two lists share the appointments out between them, each in query order. */
  lemma SplitPartition(apts: seq<CustomerAppointment>, today: string)
    ensures multiset(Reverse(UpcomingOf(apts, today))) + multiset(HistoryOf(apts, today)) == multiset(apts)
    ensures Subsequence(HistoryOf(apts, today), apts)
    ensures Subsequence(Reverse(Reverse(UpcomingOf(apts, today))), apts)
  {
    var p := (a: CustomerAppointment) => IsUpcoming(a, today);
    var q := (a: CustomerAppointment) => IsHistory(a, today);
    var upcoming, history := Filter(apts, p), Filter(apts, q);
    assert upcoming == UpcomingOf(apts, today) && history == HistoryOf(apts, today);
    FilterSplit(apts, p, q);
    ReverseMultiset(upcoming);
    FilterIsSubsequence(apts, q);
    FilterIsSubsequence(apts, p);
    ReverseReverse(upcoming);
  }

  lemma UpcomingClassified(apts: seq<CustomerAppointment>, today: string)
    ensures var up := Reverse(UpcomingOf(apts, today));
      forall i :: 0 <= i < |up| ==>
        StrLeq(today, up[i].date) && up[i].status != "cancelled" && up[i].status != "completed"
  {
    var p := (a: CustomerAppointment) => IsUpcoming(a, today);
    var upcoming := Filter(apts, p);
    assert upcoming == UpcomingOf(apts, today);
    var up := Reverse(upcoming);
    forall i | 0 <= i < |up|
      ensures StrLeq(today, up[i].date) && up[i].status != "cancelled" && up[i].status != "completed"
    {
      var a := up[i];
      assert a == upcoming[|upcoming| - 1 - i];
      assert p(a);
      NotLessIsLeq(a.date, today);
    }
  }

  lemma HistoryClassified(apts: seq<CustomerAppointment>, today: string)
    ensures var hist := HistoryOf(apts, today);
      forall i :: 0 <= i < |hist| ==>
        StrLess(hist[i].date, today) || hist[i].status == "completed" || hist[i].status == "cancelled"
  {
    var q := (a: CustomerAppointment) => IsHistory(a, today);
    var history := Filter(apts, q);
    assert history == HistoryOf(apts, today);
    forall i | 0 <= i < |history|
      ensures StrLess(history[i].date, today) || history[i].status == "completed" || history[i].status == "cancelled"
    {
      assert q(history[i]);
    }
  }

  /** Every appointment is upcoming or history, never both. */
  lemma UpcomingOrHistory(a: CustomerAppointment, today: string)
    ensures IsUpcoming(a, today) != IsHistory(a, today)
    ensures IsUpcoming(a, today) <==> StrLeq(today, a.date) && a.status != "cancelled" && a.status != "completed"
  {
    NotLessIsLeq(a.date, today);
  }

  /** `Number(total_price)` as the financial query delivers it. */
  datatype RawPrice = Absent | Numeric(amount: real) | NotANumber

  datatype FinancialRow = FinancialRow(
    id: string, customerName: string, serviceNames: string,
    date: string, time: string, totalPrice: real, status: string)

  datatype RawFinancialRow = RawFinancialRow(
    id: string, customerName: string, serviceNames: string,
    date: string, time: string, totalPrice: RawPrice, status: string)

  /** `Number(price) || 0`: a missing or non-numeric price counts as zero. */
  function CoercePrice(p: RawPrice): (r: real)
    ensures p.Numeric? ==> r == p.amount
    ensures !p.Numeric? ==> r == 0.0
  {
    if p.Numeric? then p.amount else 0.0
  }

  /** The mapping step of `getBarberFinancials`; a failed query gives no rows. */
  function FinancialRows(raw: Option<seq<RawFinancialRow>>): (r: seq<FinancialRow>)
    ensures raw.None? ==> r == []
    ensures raw.Some? ==> |r| == |raw.value|
    ensures raw.Some? ==> forall i :: 0 <= i < |r| ==>
      var x := raw.value[i];
      && r[i].totalPrice == CoercePrice(x.totalPrice)
      && r[i].id == x.id && r[i].customerName == x.customerName && r[i].serviceNames == x.serviceNames
      && r[i].date == x.date && r[i].time == x.time && r[i].status == x.status
  {
    match raw
    case None => []
    case Some(xs) =>
      seq(|xs|, i requires 0 <= i < |xs| =>
        FinancialRow(xs[i].id, xs[i].customerName, xs[i].serviceNames, xs[i].date, xs[i].time,
          CoercePrice(xs[i].totalPrice), xs[i].status))
  }
}
