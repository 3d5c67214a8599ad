# Barbershop booking rules

A Dafny model of the client-side scheduling and booking rules of a barbershop
web application. It has three groups of logic:

- **Schedule service.** The weekly default table, the `HH:MM` slot grid, the
  barber's daily management grid, and the parameters of a schedule exception.
- **Appointment service.** The parameters of a new booking with their time and
  e-mail normalisation, the customer's upcoming/history split, and price
  coercion for the financial report.
- **Screens.** The booking form, the barber's profile screen (daily grid and
  exceptions), the customer's appointment list, the month calendar, and the
  financial summary.

Everything is a pure function or a small method over immutable data:

- Times of day are minutes after midnight.
- Calendar days are day numbers counted from 1970-01-01, so the weekday uses
  JavaScript `getDay()` numbering with 0 = Sunday.
- Strings are compared by code point. On the fixed-width `HH:MM` and
  `YYYY-MM-DD` labels that are compared and sorted, this agrees with
  JavaScript's `<`, `sort()` and `localeCompare`.
- Money is exact `real`.
- Database and RPC results are inputs. A failed query is `None`.
- "Today" and "now" are parameters.
- A screen action is modelled by the effect it asks for: an alert, a request
  with its parameters, or nothing.

Modules:

- `Text`: digits, two-digit padding, prefixes, ASCII lower-casing, string order.
- `Seqs`: filter and reverse.
- `Sorting`: stable insertion sort on a string key.
- `Clock`: `HH:MM` labels and their parsing, weekdays.
- `ScheduleService`: also the parameters of `addBlockedPeriod`.
- `AppointmentService`: also the parameters of `createAppointment`.
- `BookingForm`: the main booking screen.
- `BarberProfile`
- `MyAppointments`
- `Calendar`
- `BarberFinancials`

Behaviour worth noting:

- Rescheduling normalises the new time to `HH:MM:00` and sends it with the new
  date. Availability is not re-checked.
- The daily management grid never marks a slot `blocked`. Every slot is
  `booked` or `available`. As a result, toggling a grid slot can only
  deactivate it (`BarberProfile.GridToggleOnlyDeactivates`).

## Model

| member | source | states |
|---|---|---|
| Text.Pad2 | services/scheduleService.ts:88-89 | `padStart(2, '0')` on an hour or minute gives two decimal digits that read back as the number |
| Text.Pad2OfTwoDigits | services/scheduleService.ts:88-89 | padding the value of a two-digit field gives back that field |
| Text.Take | components/MyAppointments.tsx:57 | `substring(0, n)` is the first min(n, length) characters |
| Text.Lower | services/appointmentService.ts:35 | lower-casing keeps the length and maps each character through the ASCII lower-case map |
| Text.LowerIdempotent | services/appointmentService.ts:35 | lower-casing twice is lower-casing once |
| Text.StrLessTotal | services/scheduleService.ts:285 | any two distinct strings are ordered one way or the other, so sorting on time labels is well defined |
| Text.StrLessTransitive | services/scheduleService.ts:285 | the string order is transitive |
| Text.StrLessIrreflexive | services/appointmentService.ts:165 | no string is before itself, so `date >= today` and `date < today` exclude each other |
| Text.NotLessIsLeq | services/appointmentService.ts:165 | `!(a < b)` is `b <= a` on strings |
| Clock.Label | services/scheduleService.ts:88-90 | a label is five characters: two digits, a colon, two digits |
| Clock.ParseLabel | services/scheduleService.ts:75-76 | reading the label of a minute of the day gives that minute back |
| Clock.LabelOfParse | services/scheduleService.ts:75-76 | formatting a read valid `HH:MM` gives back the same string |
| Clock.LabelOrder | services/scheduleService.ts:86-92 | labels of one day are string-ordered as their minutes are |
| Clock.ParseClock | services/scheduleService.ts:75-76 | `split(':').map(Number)` of a string without a colon is unreadable, and a read time is never negative; `Clock.ParseShaped` pins the value of a shaped clock |
| Clock.ColonIndex | services/scheduleService.ts:75 | the position `split(':')` cuts at: no colon before it, a colon at it when inside the string |
| Clock.NextWeekday | App.tsx:33-34 | the next day has the next weekday, and weekdays repeat every 7 days |
| ScheduleService.GenerateSlots | services/scheduleService.ts:71-95 | at most 100 labels; empty for an empty or unreadable bound; otherwise label i is the start plus i intervals, before the end, and the count is the grid count capped at 100 |
| ScheduleService.GridStart | services/scheduleService.ts:85-90 | the grid is empty exactly when start >= end, and otherwise starts with the start label itself |
| ScheduleService.GridReadsBack | services/scheduleService.ts:88-92 | within one day, every label reads back as its grid minute |
| ScheduleService.GridIncreasing | services/scheduleService.ts:86-92 | with a positive interval within one day, the labels are strictly increasing |
| ScheduleService.StopCount | services/scheduleService.ts:85-86 | the loop's exit condition fixes the number of labels at min(100, slots before the end) |
| ScheduleService.DefaultConfig | services/scheduleService.ts:110-131 | the default row for a day is for that day, starts at 09:00, has no lunch break or slot length, and is active exactly from Sunday to Friday |
| ScheduleService.DefaultTable | services/scheduleService.ts:114-130 | defaults: Mon–Thu 09:00–19:30, Fri 09:00–17:00 and Sun 09:00–13:00 active; Sat inactive |
| ScheduleService.FirstRowFor | services/scheduleService.ts:105 | `find` returns the first row for the day |
| ScheduleService.FindConfig | services/scheduleService.ts:105 | a row is found exactly when some stored row is for the day, and it is the first such row |
| ScheduleService.EffectiveScheduleConfig | services/scheduleService.ts:98-136 | a failed fetch gives []; otherwise 7 entries, entry i for day i, the first stored row when there is one, else the default |
| ScheduleService.StoredRowWins | services/scheduleService.ts:104-106 | the first stored row for a day is returned unchanged |
| ScheduleService.NothingStoredGivesDefaults | services/scheduleService.ts:108-132 | with no stored rows the table is exactly the seven defaults |
| ScheduleService.BookedTimes | services/scheduleService.ts:234-236 | booked times are the first five characters of each booking time; no bookings gives [] |
| ScheduleService.MarkSlot | services/scheduleService.ts:274-283 | a slot keeps its time and source, is booked exactly when its time is booked, is never blocked, and is custom exactly when its source is `custom` |
| Sorting.SortBy | services/scheduleService.ts:285 | `sort` by a string key: the result is ordered by key, is a permutation of the input, and for every key the elements carrying it keep their input order (a stable sort) |
| ScheduleService.DailyManagementSlots | services/scheduleService.ts:274-285 | a failed grid fetch gives []; otherwise one slot per grid row (the same multiset), sorted by time with rows of equal time in grid order, each booked exactly when booked, none blocked |
| ScheduleService.ManagementSlotsKeepRows | services/scheduleService.ts:274-285 | a grid row is in the input exactly when its marked slot is in the output |
| AppointmentService.NormalizeTime | services/appointmentService.ts:29 | a 5-character time gains `:00`; any other passes unchanged |
| AppointmentService.NormalizeTimeIdempotent | services/appointmentService.ts:251 | normalising twice is normalising once |
| AppointmentService.NormalizedTimeReadsTheSame | services/appointmentService.ts:29 | a normalised valid clock names the same minute |
| AppointmentService.NormalizeEmail | services/appointmentService.ts:35 | e-mail is lower-cased character by character; missing or empty becomes null |
| AppointmentService.NormalizeEmailCaseInsensitive | services/appointmentService.ts:35 | addresses differing only in case normalise alike, and normalising is idempotent |
| AppointmentService.OrElse | services/appointmentService.ts:150-151 | a missing or empty optional string falls back to the default |
| AppointmentService.FromRow | services/appointmentService.ts:147-161 | fields are copied; a missing barber name becomes `Barbeiro` and a missing photo `''` |
| AppointmentService.FromRows | services/appointmentService.ts:147-161 | the mapping is element-wise |
| AppointmentService.SplitAppointments | services/appointmentService.ts:163-172 | upcoming and history together are the input (as multisets); history keeps input order; upcoming is a filtered input reversed; upcoming items are dated on or after today and neither cancelled nor completed; history items are dated before today, completed or cancelled; a failed query gives two empty lists |
| AppointmentService.SplitPartition | services/appointmentService.ts:163-170 | the upcoming and history filters share the list out between them (as multisets), each keeping the query order |
| AppointmentService.UpcomingClassified | services/appointmentService.ts:165-167 | every upcoming item is dated today or later and is neither cancelled nor completed |
| AppointmentService.HistoryClassified | services/appointmentService.ts:168-170 | every history item is dated before today, completed or cancelled |
| AppointmentService.UpcomingOrHistory | services/appointmentService.ts:163-170 | every appointment is in exactly one of upcoming and history |
| AppointmentService.CoercePrice | services/appointmentService.ts:227 | a missing or non-numeric price is coerced to 0; a number is kept |
| AppointmentService.FinancialRows | services/appointmentService.ts:220-228 | a failed query gives []; otherwise one row per input row, price coerced, other fields copied |
| BookingForm.InitialDate | App.tsx:30-38 | the initial date is never a Saturday; it is today unless today is a Saturday, then tomorrow |
| BookingForm.ParseIntPrefix | App.tsx:124 | `parseInt` of a field starting with a digit is the value of its leading digit run; a field starting with neither a digit nor a sign is NaN; an unsigned read is never negative |
| BookingForm.DigitRun | App.tsx:124 | the leading digits `parseInt` reads |
| BookingForm.HourOfValidClock | App.tsx:124 | `parseInt(time.split(':')[0])` of a valid clock is its hour |
| BookingForm.SundayReset | App.tsx:122-129 | the result is the time or `10:00`; off Sunday it is the time; on Sunday a valid clock is reset exactly when its hour is 13 or more |
| BookingForm.SundayResetSettles | App.tsx:122-129 | the effect settles after one run, and on Sunday it leaves a time before 13:00 |
| BookingForm.ToggleService | App.tsx:182-192 | an unselected service is appended; the only selected one stays; otherwise the selected one is filtered out |
| BookingForm.RemoveUniqueId | App.tsx:187 | filtering out a selected id from a duplicate-free selection removes exactly one and keeps it duplicate-free |
| BookingForm.ToggleKeepsSelection | App.tsx:182-192 | toggling keeps the selection duplicate-free and never empties a non-empty one; length changes by exactly one |
| BookingForm.ToggleTwiceRestores | App.tsx:182-192 | adding a service and toggling it again restores the selection |
| BookingForm.SumPricesAppend | App.tsx:215-226 | the numeric total of two selections is the sum of their totals |
| BookingForm.CalculateTotal | App.tsx:215-226 | total is the sum of the numeric prices; the quote flag holds exactly when some price is not a number; empty gives (0, false) |
| BookingForm.TotalAfterAdding | App.tsx:189 | adding an unselected service raises the total by its numeric price |
| BookingForm.ServiceIds | App.tsx:163 | the ids of the selection, in order |
| BookingForm.Confirm | App.tsx:131-165 | a booking is submitted exactly when no check fails, and a rejection names the first failing check in the order barber, services, Saturday, contact; a submission carries the form's barber, services, day, time, name and phone, the logged-in customer's e-mail when it is non-empty (else the form's), and the customer's id when logged in |
| BookingForm.SubmittedOnlyWhenComplete | App.tsx:131-147 | submission happens exactly with a barber, a service, a non-Saturday day, a name and a phone |
| AppointmentService.CreateAppointmentParams | services/appointmentService.ts:29-40 | the time and e-mail are normalised, an empty or missing user id becomes null and a non-empty one is kept, and barber, name, phone, day and services are passed as they are |
| BookingForm.ConfirmDisabled | App.tsx:500 | the confirm button is enabled exactly when no booking is in flight and the selected day is not a Saturday |
| AppointmentService.SubmittedTimeIsNormalised | services/appointmentService.ts:29 | a valid clock is sent as `HH:MM:00` naming the same minute |
| BookingForm.EnabledButtonPassesSaturday | App.tsx:500 | an enabled confirm button never meets the Saturday rejection, and it is enabled on the initial date when idle |
| BarberProfile.ProfileWeek | components/BarberProfile.tsx:68-93 | the profile table has one entry per day name |
| BarberProfile.ProfileWeekMatchesService | components/BarberProfile.tsx:68-93 | the profile screen's table equals the service's effective configuration for every stored list, so the two default tables agree |
| BarberProfile.ToggleSlot | components/BarberProfile.tsx:132-146 | a booked slot only alerts; any other is upserted in place as (time, time), active exactly when currently blocked; no barber does nothing |
| BarberProfile.GridToggleOnlyDeactivates | components/BarberProfile.tsx:132-146 | toggling a slot of the management grid either alerts (booked) or upserts it inactive |
| BarberProfile.SaveSlotTime | components/BarberProfile.tsx:148-164 | an unchanged time only closes the editor; a changed one is upserted as (old, new, active) |
| BarberProfile.AddSlotAsWritten | components/BarberProfile.tsx:166-173 | empty or cancelled input does nothing, a badly shaped one alerts, and no input ever leads to an upsert |
| BarberProfile.AddSlotNeverCreates | components/BarberProfile.tsx:172 | `08:15` only closes the editor |
| BarberProfile.AddSlotAcceptsOutOfRange | components/BarberProfile.tsx:168 | the shape check accepts `99:99`, which is not a time of day |
| BarberProfile.AddSlot | components/BarberProfile.tsx:166-173 | corrected add: a well-shaped time with a barber is upserted as a new active slot (t, t, true), and only then |
| BarberProfile.EmptyAsNull | components/BarberProfile.tsx:198-199 | an empty form string becomes null and any other is kept |
| BarberProfile.AddException | components/BarberProfile.tsx:192-202 | an exception is added exactly with a barber and a reason; empty start or end become null; other fields are copied |
| ScheduleService.BlockedPeriodParams | services/scheduleService.ts:45-53 | empty times become null and non-empty ones are kept, a missing reason becomes the empty string, and a missing type becomes `blocked` |
| BarberProfile.ExceptionFormRoundTrip | components/BarberProfile.tsx:196-204 | what the exception form builds reaches the call unchanged |
| MyAppointments.FormatTime | components/MyAppointments.tsx:56-58 | the shown time is the first five characters |
| MyAppointments.FormatThenNormalize | components/MyAppointments.tsx:110-115 | the short form opened for editing, normalised again, gives back a stored `HH:MM:00` time |
| MyAppointments.StatusBadge | components/MyAppointments.tsx:60-67 | a known status gets its own badge; any other falls back to pending |
| MyAppointments.BadgeRoundTrip | components/MyAppointments.tsx:60-67 | each badge is shown for its own key, and only for it or for an unknown status |
| MyAppointments.CanModify | components/MyAppointments.tsx:75-80 | modifiable exactly when the appointment is more than 30 minutes (1,800,000 ms) away; an unparseable date is never modifiable |
| MyAppointments.CanModifyEarlier | components/MyAppointments.tsx:75-80 | the window only closes as time passes |
| MyAppointments.CanModifySameDay | components/MyAppointments.tsx:75-80 | on one day, modifiable exactly when the start is more than 30 minutes after now |
| MyAppointments.Editable | components/MyAppointments.tsx:134 | the edit and cancel buttons show exactly on the upcoming tab for a parseable date more than 30 minutes ahead |
| MyAppointments.DeleteVisible | components/MyAppointments.tsx:205 | the delete button shows exactly on the history tab or for a card with the cancelled badge |
| MyAppointments.ButtonsFollowSplit | components/MyAppointments.tsx:205 | no upcoming card offers delete; every history card does, and no history card is editable |
| MyAppointments.RescheduleSubmit | components/MyAppointments.tsx:117-121 | a reschedule is sent exactly with a selected appointment, a date and a time; the time is normalised |
| MyAppointments.UntouchedRescheduleKeepsTime | components/MyAppointments.tsx:110-121 | confirming the form as opened rewrites the appointment's own date and time |
| Calendar.DaysInMonth | components/Calendar.tsx:13 | a month has 28 to 31 days, and 29 exactly for February of a leap year |
| Calendar.YearLength | components/Calendar.tsx:13 | a year has 366 days exactly when it is a leap year |
| Calendar.DaysInMonthEndsTheMonth | components/Calendar.tsx:13 | day 0 of the next month is the last day of this one |
| Calendar.KnownDates | components/Calendar.tsx:14 | the day numbering puts 1970-01-01 on a Thursday and 2024-01-01 on a Monday |
| Calendar.FirstDayOfMonth | components/Calendar.tsx:14 | the weekday of the 1st is in 0..6 |
| Calendar.WeekdayOfDay | components/Calendar.tsx:25-26 | day d falls on weekday (first + d − 1) mod 7 |
| Calendar.ShiftMonth | components/Calendar.tsx:63 | month navigation moves exactly one month and stays in 0..11 |
| Calendar.ShiftMonthInverse | components/Calendar.tsx:62-74 | previous undoes next and next undoes previous |
| Calendar.MonthGrid | components/Calendar.tsx:19-57 | the grid has first + n cells, the first `first` of them blank, and day d at position first + d − 1 |
| Calendar.MonthGridCells | components/Calendar.tsx:24-39 | each day cell sits in its weekday's column, is disabled exactly on a Saturday or a busy day, and is selected exactly on the selected date |
| Calendar.MonthGridIncreasing | components/Calendar.tsx:24 | days grow along the grid, so each appears once |
| BarberFinancials.Revenue | components/BarberFinancials.tsx:53 | the reduce over the period's prices starts at 0, and a single row's revenue is its price |
| BarberFinancials.RevenueNonNegative | components/BarberFinancials.tsx:53 | with no negative price the revenue is not negative |
| BarberFinancials.RevenueAppend | components/BarberFinancials.tsx:53 | the revenue of two lists is the sum of their revenues |
| BarberFinancials.CalculateStats | components/BarberFinancials.tsx:52-57 | the count is the number of rows and the revenue their sum; the average is 0 for no rows, otherwise average × count = revenue |
| BarberFinancials.DateTotalStepAt | components/BarberFinancials.tsx:62-66 | a new row adds its price to its own day's total only |
| BarberFinancials.GroupByDate | components/BarberFinancials.tsx:62-66 | the chart has one key per date present, with that date's revenue as value |
| BarberFinancials.AddTo | components/BarberFinancials.tsx:64 | adding a price to one date's entry (0 when absent) leaves every other entry as it was |
| BarberFinancials.GroupStep | components/BarberFinancials.tsx:62-66 | one fold step keeps the chart equal to the per-date revenue |
| BarberFinancials.KeyOrder | components/BarberFinancials.tsx:69 | the keys are duplicate-free and are exactly the dates present |
| BarberFinancials.ChartDates | components/BarberFinancials.tsx:69 | the sorted dates are strictly ascending, duplicate-free, and exactly the dates present |
| BarberFinancials.ChartValues | components/BarberFinancials.tsx:69-74 | one point per date present, in strictly ascending date order, each valued at its date's revenue |
| BarberFinancials.ChartSumsToRevenue | components/BarberFinancials.tsx:62-74 | the chart values add up to the total revenue |
| BarberFinancials.MaxChartValue | components/BarberFinancials.tsx:76 | the scale is at least 100, at least every value, and equal to 100 or to some value |

## Left out

- Server-side RPCs: the available-slot computation (lunch, exceptions,
  overrides), the booking commit and its no-double-booking guarantee, and the
  slot upsert have no bodies in the code. Their results are inputs, and calls
  to them are effects.
- The whole-screen React state, loading flags, confirm dialogs and alerts.
  Only the decision each handler makes is modelled.
- `ScheduleService.GenerateSlots`: `Number()` is modelled on decimal-digit
  fields only. Whitespace, signs, decimals, hexadecimal and exponent forms are
  not modelled, and anything else counts as unreadable. Minutes past midnight
  are not carried into the next day; the label wraps modulo 24 hours, as
  `getHours()` does. The interval's default argument of 30 minutes is not
  modelled; the interval is always an explicit parameter.
- `BookingForm.ParseIntPrefix` and `BookingForm.SundayReset`: only decimal,
  unpadded fields are read. JavaScript's `parseInt` also skips leading
  whitespace and reads a `0x` prefix as hexadecimal, so `" 14"` (reset on a
  Sunday by the source, kept by the model) and `"0x13"` differ. A time input
  never produces these forms.
- Time zones, daylight-saving changes and `toISOString`: instants are
  milliseconds on one local time line. Turning a date string into an instant
  is a parameter of `MyAppointments.CanModify`.
- `Text.Lower` lower-cases ASCII letters only. Unicode case mapping is not
  modelled.
- String order is by code point. JavaScript's UTF-16 code-unit order differs
  from it only beyond the Basic Multilingual Plane. `localeCompare` follows
  locale collation, which differs from code-point order in general (it puts
  `a` before `B`, and `:` before `0`). The model's order is faithful only on
  the fixed-width, digits-and-separator `HH:MM` and `YYYY-MM-DD` labels that
  services/scheduleService.ts:283-285 and the date comparisons use.
- Floating-point rounding, `Infinity` and `NaN` prices: money is exact.
  `AppointmentService.CoercePrice` maps every non-number to 0.
- `MyAppointments.StatusBadge`: statuses equal to inherited object keys such
  as `constructor` are not modelled. They would reach a prototype property
  instead of the pending fallback.
- The second `!selectedBarber` check in `handleConfirm`
  (App.tsx:148-151) can never fire after the first one, so it is not
  modelled.
- Date labels (`toLocaleDateString`), CSV export and file download, login and
  authentication, the chat assistant, and the presentational components.
- The financial period's default range (first and last day of the month via
  `toISOString`) is not modelled. The rows for the period are an input.

## Findings

| source | as written | input that shows it | evidently intended | confidence | as-written member | corrected member |
|---|---|---|---|---|---|---|
| components/BarberProfile.tsx:166-173 | `handleAddSlot` passes (time, time) to `handleSaveSlotTime`, which returns early on equal times, so no slot is ever created | prompt answered with `08:15` on a barber's grid: the editor closes and no upsert is made | create an active slot at the entered time, as upsert(time, time, true), as the call's own comment says | high; not executed | BarberProfile.AddSlotAsWritten (shown by BarberProfile.AddSlotNeverCreates) | BarberProfile.AddSlot |
