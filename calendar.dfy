/** Calendar dates, times of day and the two text forms the booking script
    writes and reads: `strftime('%Y-%m-%d')` for dates and `'%H:%M'` for times. */
module Calendar {

  import opened Wrappers
  import opened Text

  type Hour = h: nat | h < 24
  type Minute = m: nat | m < 60

  /** A `datetime.time` with zero seconds, as `strptime(..., "%H:%M")` yields. */
  datatype Time = Time(hour: Hour, minute: Minute)

  type Year = y: nat | 1 <= y <= 9999 witness 1
  type Month = m: nat | 1 <= m <= 12 witness 1
  type Day = d: nat | 1 <= d <= 31 witness 1

  /** A `datetime.date`; `ValidDate` adds the day-of-month bound Python enforces. */
  datatype Date = Date(year: Year, month: Month, day: Day)

  /** `datetime.combine(date, time)`. */
  datatype DateTime = DateTime(date: Date, time: Time)

  predicate IsLeapYear(y: nat) {
    y % 4 == 0 && (y % 100 != 0 || y % 400 == 0)
  }

  function DaysInMonth(y: Year, m: Month): (n: nat)
    ensures 28 <= n <= 31
    ensures m == 2 ==> (n == 29 <==> IsLeapYear(y))
  {
    if m == 2 then (if IsLeapYear(y) then 29 else 28)
    else if m == 4 || m == 6 || m == 9 || m == 11 then 30
    else 31
  }

  predicate ValidDate(d: Date) {
    d.day <= DaysInMonth(d.year, d.month)
  }

  /** Minutes since midnight: the order in which times of day are compared. */
  function MinuteOfDay(t: Time): (n: nat)
    ensures n < 24 * 60
  {
    t.hour * 60 + t.minute
  }

  /** `t.strftime('%H:%M')`. */
  function FormatTime(t: Time): (s: string)
    ensures |s| == 5 && s[2] == ':'
    ensures AllDigits(s[..2]) && AllDigits(s[3..])
  {
    var s := Padded(t.hour, 2) + ":" + Padded(t.minute, 2);
    assert s[..2] == Padded(t.hour, 2) && s[3..] == Padded(t.minute, 2);
    s
  }

  /** `strptime(s, '%H:%M')` on the two-digit form: `None` where Python raises. */
  function ParseTime(s: string): (r: Option<Time>)
    ensures r.Some? ==> |s| == 5 && s[2] == ':'
  {
    if |s| == 5 && s[2] == ':' && AllDigits(s[..2]) && AllDigits(s[3..]) then
      var h := DigitsValue(s[..2]);
      var m := DigitsValue(s[3..]);
      if h < 24 && m < 60 then Some(Time(h, m)) else None
    else None
  }

  lemma TimeRoundTrip(t: Time)
    ensures ParseTime(FormatTime(t)) == Some(t)
  {
    var s := FormatTime(t);
    assert s[..2] == Padded(t.hour, 2) && s[3..] == Padded(t.minute, 2);
    PaddedValue(t.hour, 2);
    PaddedValue(t.minute, 2);
  }

  /** Text that parses as a time is that time's printed form: parsing accepts
      nothing but the two-digit form. */
  lemma TimeText(s: string)
    requires ParseTime(s).Some?
    ensures FormatTime(ParseTime(s).value) == s
  {
    var t := ParseTime(s).value;
    DigitsArePadded(s[..2]);
    DigitsArePadded(s[3..]);
    assert s == s[..2] + ":" + s[3..];
  }

  /** Distinct times print differently. */
  lemma FormatTimeInjective(t1: Time, t2: Time)
    ensures FormatTime(t1) == FormatTime(t2) <==> t1 == t2
  {
    TimeRoundTrip(t1);
    TimeRoundTrip(t2);
  }

  /** `d.strftime('%Y-%m-%d')`, the year written with four digits. */
  function FormatDate(d: Date): (s: string)
    ensures |s| == 10 && s[4] == '-' && s[7] == '-'
    ensures AllDigits(s[..4]) && AllDigits(s[5..7]) && AllDigits(s[8..])
  {
    var s := Padded(d.year, 4) + "-" + Padded(d.month, 2) + "-" + Padded(d.day, 2);
    assert s[..4] == Padded(d.year, 4) && s[5..7] == Padded(d.month, 2) && s[8..] == Padded(d.day, 2);
    s
  }

  /** Reads the `YYYY-MM-DD` form back into a date: `None` for text that is not
      of that shape or names no day of the calendar. */
  function ParseDate(s: string): (r: Option<Date>)
    ensures r.Some? ==> ValidDate(r.value)
  {
    if |s| == 10 && s[4] == '-' && s[7] == '-' && AllDigits(s[..4]) && AllDigits(s[5..7]) && AllDigits(s[8..]) then
      var y := DigitsValue(s[..4]);
      var m := DigitsValue(s[5..7]);
      var d := DigitsValue(s[8..]);
      if 1 <= y <= 9999 && 1 <= m <= 12 && 1 <= d <= DaysInMonth(y, m) then Some(Date(y, m, d)) else None
    else None
  }

  lemma DateRoundTrip(d: Date)
    requires ValidDate(d)
    ensures ParseDate(FormatDate(d)) == Some(d)
  {
    var s := FormatDate(d);
    assert s[..4] == Padded(d.year, 4) && s[5..7] == Padded(d.month, 2) && s[8..] == Padded(d.day, 2);
    PaddedValue(d.year, 4);
    PaddedValue(d.month, 2);
    PaddedValue(d.day, 2);
  }

  /** Text that parses as a date is that date's printed form. */
  lemma DateText(s: string)
    requires ParseDate(s).Some?
    ensures FormatDate(ParseDate(s).value) == s
  {
    DigitsArePadded(s[..4]);
    DigitsArePadded(s[5..7]);
    DigitsArePadded(s[8..]);
    assert s == s[..4] + "-" + s[5..7] + "-" + s[8..];
  }
}
