/** Times of day and calendar days.

    A time of day is an int count of minutes after local midnight; a
    calendar day is an int count of days after 1970-01-01 (a Thursday).
    Labels are the zero-padded `HH:MM` strings the application stores and
    shows. Reading a label follows `split(':').map(Number)`: the first two
    colon-separated fields are the hour and the minute, so `09:00:00` (the
    database form) reads the same as `09:00`. */
module Clock {
  import opened Text

  const MinutesPerDay: int := 1440

  /** JavaScript's `getDay()` numbering. */
  const Sunday: int := 0
  const Saturday: int := 6

  /** Weekday of a calendar day, 0 = Sunday; day 0 (1970-01-01) was a Thursday. */
  function WeekdayOf(day: int): (w: int)
    ensures 0 <= w < 7
  {
    (day + 4) % 7
  }

  lemma NextWeekday(day: int)
    ensures WeekdayOf(day + 1) == (WeekdayOf(day) + 1) % 7
    ensures WeekdayOf(day + 7) == WeekdayOf(day)
  {
    var q, w := (day + 4) / 7, WeekdayOf(day);
    assert day + 4 == 7 * q + w;
    assert day + 5 == 7 * q + (w + 1);
    assert day + 11 == 7 * (q + 1) + w;
  }

  /** The label `getHours():getMinutes()` of a clock t minutes after today's
      midnight; a t past the end of the day wraps into the next day's hours. */
  function Label(t: int): (r: string)
    ensures |r| == 5 && r[2] == ':'
    ensures IsDigit(r[0]) && IsDigit(r[1]) && IsDigit(r[3]) && IsDigit(r[4])
  {
    var inDay := t % MinutesPerDay;
    Pad2(inDay / 60) + ":" + Pad2(inDay % 60)
  }

  /** The add-slot input check: two digits, a colon, two digits, nothing else. */
  predicate IsClockShape(s: string) {
    |s| == 5 && s[2] == ':' && IsDigit(s[0]) && IsDigit(s[1]) && IsDigit(s[3]) && IsDigit(s[4])
  }

  /** A shaped label that names a real time of day. */
  predicate IsValidClock(s: string) {
    IsClockShape(s) && DecimalValue(s[..2]) < 24 && DecimalValue(s[3..]) < 60
  }

  /** Index of the first ':' in s, or |s| when there is none. */
  function ColonIndex(s: string): (k: nat)
    ensures k <= |s|
    ensures forall i :: 0 <= i < k ==> s[i] != ':'
    ensures k < |s| ==> s[k] == ':'
  {
    if |s| == 0 || s[0] == ':' then 0 else 1 + ColonIndex(s[1..])
  }

  /** Minutes after midnight named by `h:m`, or None when either field is not
      a number (no colon at all leaves the minute undefined, hence NaN). */
  function ParseClock(s: string): (r: Option<int>)
    ensures ColonIndex(s) == |s| ==> r.None?
    ensures r.Some? ==> r.value >= 0
  {
    var i := ColonIndex(s);
    if i == |s| then None
    else
      var hours := s[..i];
      var rest := s[i + 1..];
      var minutes := rest[..ColonIndex(rest)];
      if AllDigits(hours) && AllDigits(minutes) then
        Some(DecimalValue(hours) * 60 + DecimalValue(minutes))
      else None
  }

  lemma ParseShaped(s: string)
    requires IsClockShape(s)
    ensures ParseClock(s) == Some(DecimalValue(s[..2]) * 60 + DecimalValue(s[3..]))
  {
    assert ColonIndex(s) == 2 by {
      assert s[0] != ':' && s[1] != ':';
      assert s[1..][1..] == s[2..];
    }
    var rest := s[3..];
    assert ColonIndex(rest) == 2 by {
      assert rest[0] != ':' && rest[1] != ':';
      assert rest[1..][1..] == rest[2..];
      assert |rest[2..]| == 0;
    }
    assert rest[..2] == rest;
  }

  /** Reading a label gives back the minute of the day it was formatted from. */
  lemma ParseLabel(t: int)
    requires 0 <= t < MinutesPerDay
    ensures ParseClock(Label(t)) == Some(t)
  {
    var h, m := t / 60, t % 60;
    var r := Label(t);
    LabelFields(t);
    assert r[..2] == Pad2(h) && r[3..] == Pad2(m);
    ParseShaped(r);
    assert DecimalValue(Pad2(h)) * 60 + DecimalValue(Pad2(m)) == h * 60 + m;
  }

  /** Formatting a read label gives back the same string. */
  lemma LabelOfParse(s: string)
    requires IsValidClock(s)
    ensures ParseClock(s).Some? && Label(ParseClock(s).value) == s
  {
    ParseShaped(s);
    var h, m := DecimalValue(s[..2]), DecimalValue(s[3..]);
    Pad2OfTwoDigits(s[..2]);
    Pad2OfTwoDigits(s[3..]);
    ClockFields(h, m);
    assert s == s[..2] + ":" + s[3..];
  }

  /** The label of h hours and m minutes shows exactly those two fields. */
  lemma ClockFields(h: nat, m: nat)
    requires h < 24 && m < 60
    ensures Label(h * 60 + m) == Pad2(h) + ":" + Pad2(m)
  {
    var t := h * 60 + m;
    assert 0 <= t < MinutesPerDay;
    assert t / 60 == h && t % 60 == m;
    LabelFields(t);
  }

  /** A minute of the day splits into the hour and minute fields of its label. */
  lemma LabelFields(t: int)
    requires 0 <= t < MinutesPerDay
    ensures Label(t) == Pad2(t / 60) + ":" + Pad2(t % 60)
  {
    assert t % MinutesPerDay == t;
  }

  /** Labels of one day are ordered like the minutes they stand for. */
  lemma LabelOrder(a: int, b: int)
    requires 0 <= a < b < MinutesPerDay
    ensures StrLess(Label(a), Label(b))
  {
    var ha, hb := a / 60, b / 60;
    HourMinuteOrder(a, b);
    LabelFields(a);
    LabelFields(b);
    if ha < hb {
      LaterHourOrder(ha, hb, a % 60, b % 60);
    } else {
      SameHourOrder(ha, a % 60, b % 60);
    }
  }

  /** An earlier minute of the day has an earlier hour, or the same hour and an earlier minute. */
  lemma HourMinuteOrder(a: int, b: int)
    requires 0 <= a < b < MinutesPerDay
    ensures a / 60 < b / 60 < 24 || (a / 60 == b / 60 < 24 && a % 60 < b % 60)
  {
    assert a == 60 * (a / 60) + a % 60 && b == 60 * (b / 60) + b % 60;
  }

  lemma LaterHourOrder(ha: nat, hb: nat, ma: nat, mb: nat)
    requires ha < hb < 24 && ma < 60 && mb < 60
    ensures StrLess(Pad2(ha) + ":" + Pad2(ma), Pad2(hb) + ":" + Pad2(mb))
  {
    Pad2Order(ha, hb);
    LessPrefixDecides(Pad2(ha), Pad2(hb), ":" + Pad2(ma), ":" + Pad2(mb));
    assert Pad2(ha) + ":" + Pad2(ma) == Pad2(ha) + (":" + Pad2(ma));
    assert Pad2(hb) + ":" + Pad2(mb) == Pad2(hb) + (":" + Pad2(mb));
  }

  lemma SameHourOrder(h: nat, ma: nat, mb: nat)
    requires h < 24 && ma < mb < 60
    ensures StrLess(Pad2(h) + ":" + Pad2(ma), Pad2(h) + ":" + Pad2(mb))
  {
    Pad2Order(ma, mb);
    CommonPrefixKeepsOrder(Pad2(h) + ":", Pad2(ma), Pad2(mb));
  }

  lemma Pad2Order(x: nat, y: nat)
    requires x < y < 100
    ensures StrLess(Pad2(x), Pad2(y))
  {
    var p, q := Pad2(x), Pad2(y);
    if x / 10 == y / 10 {
      assert p[1..][0] == DigitChar(x % 10) && q[1..][0] == DigitChar(y % 10);
    }
  }

  /** Between equal-length strings, the first difference decides whatever follows. */
  lemma {:induction false} LessPrefixDecides(p: string, q: string, x: string, y: string)
    requires |p| == |q| && StrLess(p, q)
    ensures StrLess(p + x, q + y)
    decreases |p|
  {
    if p[0] == q[0] && !(p[0] < q[0]) {
      LessPrefixDecides(p[1..], q[1..], x, y);
      assert (p + x)[1..] == p[1..] + x && (q + y)[1..] == q[1..] + y;
    }
  }

  lemma {:induction false} CommonPrefixKeepsOrder(p: string, x: string, y: string)
    requires StrLess(x, y)
    ensures StrLess(p + x, p + y)
    decreases |p|
  {
    if |p| == 0 {
      assert p + x == x && p + y == y;
    } else {
      CommonPrefixKeepsOrder(p[1..], x, y);
      assert (p + x)[1..] == p[1..] + x && (p + y)[1..] == p[1..] + y;
    }
  }
}
