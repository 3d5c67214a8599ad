/** The booking-form rules of the main screen: the initial date, the Sunday
    afternoon time reset, the service-selection toggle, the price total with
    its "by quote" flag, the ordered checks before a booking is sent, and the
    confirm button's disabled state. Dates are calendar day numbers (see
    Clock); "today" is an input. */
module BookingForm {
  import opened Text
  import opened Clock
  import opened Seqs
  import AppointmentService

  /** A service price: a number, a text such as "Sob Consulta", or null. */
  datatype Price = Num(value: real) | Quote(text: string) | NoPrice

  datatype Service = Service(id: string, name: string, price: Price)

  /** The initial selected date: today, or tomorrow when today is a Saturday. */
  function InitialDate(today: int): (d: int)
    ensures WeekdayOf(d) != Saturday
    ensures d == today || d == today + 1
    ensures d == today <==> WeekdayOf(today) != Saturday
  {
    NextWeekday(today);
    if WeekdayOf(today) == Saturday then today + 1 else today
  }

  /** Number of leading decimal digits of s. */
  function DigitRun(s: string): (n: nat)
    ensures n <= |s| && AllDigits(s[..n])
    ensures n < |s| ==> !IsDigit(s[n])
  {
    if |s| == 0 || !IsDigit(s[0]) then 0
    else
      var n := 1 + DigitRun(s[1..]);
      assert s[..n] == [s[0]] + s[1..][..n - 1];
      n
  }

  /** `parseInt(s)` on decimal fields: an optional sign followed by the
      leading decimal digits; None (NaN) when no digit follows. Leading
      whitespace and the `0x` prefix are not read (see the README). */
  function ParseIntPrefix(s: string): (r: Option<int>)
    ensures |s| > 0 && IsDigit(s[0]) ==> r == Some(DecimalValue(s[..DigitRun(s)]) as int)
    ensures |s| == 0 || !(IsDigit(s[0]) || s[0] == '-' || s[0] == '+') ==> r.None?
    ensures r.Some? && s[0] != '-' ==> r.value >= 0
  {
    var signed := |s| > 0 && (s[0] == '-' || s[0] == '+');
    var body := if signed then s[1..] else s;
    var n := DigitRun(body);
    if n == 0 then None
    else if signed && s[0] == '-' then Some(0 - DecimalValue(body[..n]) as int)
    else Some(DecimalValue(body[..n]) as int)
  }

  /** `time.split(':')[0]`. */
  function HourField(time: string): string {
    time[..ColonIndex(time)]
  }

  /** The hour `parseInt(time.split(':')[0])` of a valid clock is its first two digits. */
  lemma HourOfValidClock(time: string)
    ensures IsValidClock(time) ==> ParseIntPrefix(HourField(time)) == Some(DecimalValue(time[..2]))
  {
    if IsValidClock(time) {
      assert ColonIndex(time) == 2 by {
        assert time[0] != ':' && time[1] != ':';
        assert time[1..][1..] == time[2..];
      }
      var h := HourField(time);
      assert h == time[..2];
      assert DigitRun(h) == 2 by {
        assert h[1..][1..] == [];
      }
      assert h[..2] == h;
    }
  }

  const SundayCutoffHour: int := 13
  const SundayResetTime: string := "10:00"

  /** The Sunday effect: on a Sunday a time whose hour is 13 or later becomes
      10:00; every other time, and every time on another day, is kept. */
  function SundayReset(weekday: int, time: string): (r: string)
    ensures r == time || r == SundayResetTime
    ensures weekday != Sunday ==> r == time
    ensures IsValidClock(time) ==>
      (r != time <==> weekday == Sunday && DecimalValue(time[..2]) >= SundayCutoffHour)
  {
    HourOfValidClock(time);
    var hour := ParseIntPrefix(HourField(time));
    if weekday == Sunday && hour.Some? && hour.value >= SundayCutoffHour then SundayResetTime else time
  }

  /** The effect re-runs whenever the time changes; after one run it settles,
      and on a Sunday a valid time ends up before the 13:00 cutoff. */
  lemma SundayResetSettles(weekday: int, time: string)
    ensures SundayReset(weekday, SundayReset(weekday, time)) == SundayReset(weekday, time)
    ensures weekday == Sunday && IsValidClock(time) ==>
      IsValidClock(SundayReset(weekday, time)) && DecimalValue(SundayReset(weekday, time)[..2]) < SundayCutoffHour
  {
    var r := SundayReset(weekday, time);
    assert IsValidClock(SundayResetTime) by {
      assert SundayResetTime[..2] == "10" && SundayResetTime[3..] == "00";
      assert "10"[..1] == "1";
      assert "00"[..1] == "0";
    }
    assert DecimalValue(SundayResetTime[..2]) == 10 by {
      assert SundayResetTime[..2] == "10";
      assert "10"[..1] == "1";
    }
    if r == SundayResetTime {
      assert SundayReset(weekday, r) == r;
    }
  }

  predicate HasId(services: seq<Service>, id: string) {
    exists i :: 0 <= i < |services| && services[i].id == id
  }

  predicate UniqueIds(services: seq<Service>) {
    forall i, j :: 0 <= i < j < |services| ==> services[i].id != services[j].id
  }

  /** `toggleService`: adds an unselected service at the end; removes a
      selected one unless it is the only one, which stays selected. */
  function ToggleService(prev: seq<Service>, service: Service): (r: seq<Service>)
    ensures !HasId(prev, service.id) ==> r == prev + [service]
    ensures HasId(prev, service.id) && |prev| == 1 ==> r == prev
    ensures HasId(prev, service.id) && |prev| != 1 ==>
      && !HasId(r, service.id)
      && Subsequence(r, prev)
      && (forall i :: 0 <= i < |prev| && prev[i].id != service.id ==> prev[i] in r)
  {
    if HasId(prev, service.id) then
      if |prev| == 1 then prev
      else
        var others := (s: Service) => s.id != service.id;
        FilterIsSubsequence(prev, others);
        FilterMembers(prev, others);
        Filter(prev, others)
    else prev + [service]
  }

  /** Filtering out one id of a duplicate-free list drops exactly one element. */
  lemma {:induction false} RemoveUniqueId(prev: seq<Service>, id: string)
    requires UniqueIds(prev) && HasId(prev, id)
    ensures |Filter(prev, (s: Service) => s.id != id)| == |prev| - 1
    ensures UniqueIds(Filter(prev, (s: Service) => s.id != id))
    decreases |prev|
  {
    var p := (s: Service) => s.id != id;
    if prev[0].id == id {
      FilterAll(prev[1..], p);
    } else {
      assert HasId(prev[1..], id) by {
        var i :| 0 <= i < |prev| && prev[i].id == id;
        assert prev[1..][i - 1].id == id;
      }
      RemoveUniqueId(prev[1..], id);
      var rest := Filter(prev[1..], p);
      assert Filter(prev, p) == [prev[0]] + rest;
      forall i, j | 0 <= i < j < |[prev[0]] + rest|
        ensures ([prev[0]] + rest)[i].id != ([prev[0]] + rest)[j].id
      {
        if i == 0 {
          FilterMembers(prev[1..], p);
          assert rest[j - 1] in prev[1..];
        }
      }
    }
  }

  /** The toggle keeps the selection duplicate-free, and a non-empty
      duplicate-free selection never becomes empty. */
  lemma ToggleKeepsSelection(prev: seq<Service>, service: Service)
    requires UniqueIds(prev)
    ensures UniqueIds(ToggleService(prev, service))
    ensures prev != [] ==> ToggleService(prev, service) != []
    ensures HasId(prev, service.id) && |prev| > 1 ==> |ToggleService(prev, service)| == |prev| - 1
    ensures !HasId(prev, service.id) ==> |ToggleService(prev, service)| == |prev| + 1
  {
    if HasId(prev, service.id) && |prev| > 1 {
      RemoveUniqueId(prev, service.id);
    }
  }

  /** Adding a service to a non-empty selection and toggling it again restores the selection. */
  lemma ToggleTwiceRestores(prev: seq<Service>, service: Service)
    requires prev != [] && !HasId(prev, service.id)
    ensures ToggleService(ToggleService(prev, service), service) == prev
  {
    var added := prev + [service];
    assert HasId(added, service.id) by {
      assert added[|prev|].id == service.id;
    }
    var p := (s: Service) => s.id != service.id;
    FilterAppend(prev, [service], p);
    FilterAll(prev, p);
    assert Filter([service], p) == [];
  }

  function PriceValue(s: Service): real {
    if s.price.Num? then s.price.value else 0.0
  }

  /** Sum of the numeric prices of a selection. */
  function SumPrices(services: seq<Service>): real {
    if |services| == 0 then 0.0
    else SumPrices(services[..|services| - 1]) + PriceValue(services[|services| - 1])
  }

  lemma {:induction false} SumPricesAppend(a: seq<Service>, b: seq<Service>)
    ensures SumPrices(a + b) == SumPrices(a) + SumPrices(b)
    decreases |b|
  {
    if |b| == 0 {
      assert a + b == a;
    } else {
      SumPricesAppend(a, b[..|b| - 1]);
      assert (a + b)[..|a + b| - 1] == a + b[..|b| - 1];
    }
  }

  /** `calculateTotal`: the sum of the numeric prices, and whether some
      selected service has no numeric price ("by quote"). */
  method CalculateTotal(services: seq<Service>) returns (total: real, hasQuote: bool)
    ensures total == SumPrices(services)
    ensures hasQuote <==> exists i :: 0 <= i < |services| && !services[i].price.Num?
    ensures services == [] ==> total == 0.0 && !hasQuote
  {
    total, hasQuote := 0.0, false;
    for k := 0 to |services|
      invariant total == SumPrices(services[..k])
      invariant hasQuote <==> exists i :: 0 <= i < k && !services[i].price.Num?
    {
      assert services[..k + 1][..k] == services[..k];
      if services[k].price.Num? {
        total := total + services[k].price.value;
      } else {
        hasQuote := true;
      }
    }
    assert services[..|services|] == services;
  }

  /** Adding an unselected service raises the total by exactly its numeric price. */
  lemma TotalAfterAdding(prev: seq<Service>, service: Service)
    requires !HasId(prev, service.id)
    ensures SumPrices(ToggleService(prev, service)) == SumPrices(prev) + PriceValue(service)
  {
    assert (prev + [service])[..|prev|] == prev;
  }

  /** The logged-in customer, if any. */
  datatype CustomerUser = CustomerUser(id: string, email: string)

  datatype UserInfo = UserInfo(name: string, phone: string, email: string)

  datatype BookingError = NoBarber | NoService | SaturdayClosed | MissingContact

  datatype ConfirmOutcome = Rejected(error: BookingError) | Submitted(request: AppointmentService.BookingRequest)

  function ServiceIds(services: seq<Service>): (r: seq<string>)
    ensures |r| == |services|
    ensures forall i :: 0 <= i < |services| ==> r[i] == services[i].id
  {
    seq(|services|, i requires 0 <= i < |services| => services[i].id)
  }

  /** Every failing check, in the order `handleConfirm` runs them. */
  function FailedChecks(barber: Option<string>, services: seq<Service>, day: int, info: UserInfo): seq<BookingError> {
    (if barber.None? then [NoBarber] else [])
    + (if |services| == 0 then [NoService] else [])
    + (if WeekdayOf(day) == Saturday then [SaturdayClosed] else [])
    + (if info.name == "" || info.phone == "" then [MissingContact] else [])
  }

  /** `handleConfirm` up to the call of `createAppointment`: barber, services,
      Saturday and contact are checked in that order and the first failure
      is reported; otherwise the request carries the form's values, with the
      logged-in customer's e-mail and id preferred. */
  function Confirm(barber: Option<string>, services: seq<Service>, day: int, time: string,
                   info: UserInfo, customer: Option<CustomerUser>): (r: ConfirmOutcome)
    ensures r.Submitted? <==> FailedChecks(barber, services, day, info) == []
    ensures r.Rejected? ==> r.error == FailedChecks(barber, services, day, info)[0]
    ensures r.Submitted? ==>
      && r.request.barberId == barber.value
      && r.request.serviceIds == ServiceIds(services)
      && r.request.day == day && r.request.time == time
      && r.request.customerName == info.name && r.request.customerPhone == info.phone
      && r.request.customerEmail == (if customer.Some? && customer.value.email != "" then customer.value.email else info.email)
      && r.request.userId == (if customer.Some? then Some(customer.value.id) else None)
  {
    if barber.None? then Rejected(NoBarber)
    else if |services| == 0 then Rejected(NoService)
    else if WeekdayOf(day) == Saturday then Rejected(SaturdayClosed)
    else if info.name == "" || info.phone == "" then Rejected(MissingContact)
    else
      var email := if customer.Some? && customer.value.email != "" then customer.value.email else info.email;
      Submitted(AppointmentService.BookingRequest(barber.value, info.name, info.phone, email, day, time, ServiceIds(services),
        if customer.Some? then Some(customer.value.id) else None))
  }

  /** A booking is sent only with a barber, at least one service, a day other
      than Saturday and both name and phone. */
  lemma SubmittedOnlyWhenComplete(barber: Option<string>, services: seq<Service>, day: int, time: string,
                                  info: UserInfo, customer: Option<CustomerUser>)
    ensures Confirm(barber, services, day, time, info, customer).Submitted? <==>
      barber.Some? && |services| > 0 && WeekdayOf(day) != Saturday && info.name != "" && info.phone != ""
  {
  }

  /** The confirm button is disabled while a booking is in flight or on a Saturday. */
  function ConfirmDisabled(isBooking: bool, day: int): (disabled: bool)
    ensures !disabled <==> !isBooking && WeekdayOf(day) != Saturday
  {
    isBooking || WeekdayOf(day) == Saturday
  }

  /** An enabled button never meets the Saturday rejection, and the initial
      date never disables it. */
  lemma EnabledButtonPassesSaturday(isBooking: bool, barber: Option<string>, services: seq<Service>, day: int,
                                    time: string, info: UserInfo, customer: Option<CustomerUser>, today: int)
    ensures !ConfirmDisabled(isBooking, day) ==> Confirm(barber, services, day, time, info, customer) != Rejected(SaturdayClosed)
    ensures !ConfirmDisabled(false, InitialDate(today))
  {
  }
}
