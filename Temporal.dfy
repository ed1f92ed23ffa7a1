/** Dates and date-times as Python's `datetime` module defines them, the
    conversion to UTC that arrow's `to('utc')` performs, and the ISO 8601 text
    that `isoformat()` writes. A UTC offset is a whole number of minutes;
    there are no time zone names and no daylight-saving rules. */
module Temporal {
  import opened Basics

  const MinYear := 1
  const MaxYear := 9999
  const MinutesPerDay := 1440

  datatype Date = Date(year: int, month: int, day: int)

  /** `offset` is the UTC offset in minutes of an aware value; `None` marks a naive one. */
  datatype DateTime = DateTime(date: Date, hour: int, minute: int, second: int,
                               microsecond: int, offset: Option<int>)

  predicate IsLeap(y: int) {
    y % 4 == 0 && (y % 100 != 0 || y % 400 == 0)
  }

  function DaysInMonth(y: int, m: int): (n: int)
    requires 1 <= m <= 12
    ensures 28 <= n <= 31
  {
    if m == 2 then (if IsLeap(y) then 29 else 28)
    else if m == 4 || m == 6 || m == 9 || m == 11 then 30
    else 31
  }

  /** A month and day that exist in the proleptic Gregorian calendar, in a year from 1 on. */
  predicate CalendarDate(d: Date) {
    MinYear <= d.year && 1 <= d.month <= 12 && 1 <= d.day <= DaysInMonth(d.year, d.month)
  }

  /** What `datetime.date(...)` accepts: a calendar date in years 1 to 9999. */
  predicate ValidDate(d: Date) {
    CalendarDate(d) && d.year <= MaxYear
  }

  /** What `datetime.datetime(...)` accepts; an offset lies strictly within one day. */
  predicate ValidDateTime(t: DateTime) {
    && ValidDate(t.date)
    && 0 <= t.hour < 24 && 0 <= t.minute < 60 && 0 <= t.second < 60
    && 0 <= t.microsecond < 1000000
    && (t.offset.Some? ==> -MinutesPerDay < t.offset.value < MinutesPerDay)
  }

  type PyDate = d: Date | ValidDate(d) witness Date(1, 1, 1)
  type PyDateTime = t: DateTime | ValidDateTime(t) witness DateTime(Date(1, 1, 1), 0, 0, 0, 0, None)

  // ---------------------------------------------------------------- ordinals

  function DaysInYear(y: int): int {
    if IsLeap(y) then 366 else 365
  }

  /** Days in the years before year `y`. */
  function DaysBeforeYear(y: int): nat
    requires y >= 1
  {
    if y == 1 then 0 else DaysBeforeYear(y - 1) + DaysInYear(y - 1)
  }

  /** Days in the months of year `y` before month `m`. */
  function DaysBeforeMonth(y: int, m: int): int
    requires 1 <= m <= 12
  {
    var leap := if IsLeap(y) then 1 else 0;
    if m == 1 then 0
    else if m == 2 then 31
    else if m == 3 then 59 + leap
    else if m == 4 then 90 + leap
    else if m == 5 then 120 + leap
    else if m == 6 then 151 + leap
    else if m == 7 then 181 + leap
    else if m == 8 then 212 + leap
    else if m == 9 then 243 + leap
    else if m == 10 then 273 + leap
    else if m == 11 then 304 + leap
    else 334 + leap
  }

  /** Python's `date.toordinal()`: 1 January of year 1 is day 1. It is the
      reference against which the day arithmetic below is proved. */
  function Ordinal(d: Date): int
    requires CalendarDate(d)
  {
    DaysBeforeYear(d.year) + DaysBeforeMonth(d.year, d.month) + d.day
  }

  /** The calendar day after `d`, carrying into the month and the year. */
  function NextDay(d: Date): Date
    requires CalendarDate(d)
  {
    if d.day < DaysInMonth(d.year, d.month) then Date(d.year, d.month, d.day + 1)
    else if d.month < 12 then Date(d.year, d.month + 1, 1)
    else Date(d.year + 1, 1, 1)
  }

  /** The calendar day before `d`, borrowing from the month and the year. */
  function PrevDay(d: Date): Date
    requires CalendarDate(d)
  {
    if d.day > 1 then Date(d.year, d.month, d.day - 1)
    else if d.month > 1 then Date(d.year, d.month - 1, DaysInMonth(d.year, d.month - 1))
    else Date(d.year - 1, 12, 31)
  }

  lemma NextDayIsNext(d: Date)
    requires CalendarDate(d)
    ensures CalendarDate(NextDay(d))
    ensures Ordinal(NextDay(d)) == Ordinal(d) + 1
  {
    var n := NextDay(d);
    if d.day == DaysInMonth(d.year, d.month) && d.month == 12 {
      assert DaysBeforeYear(n.year) == DaysBeforeYear(d.year) + DaysInYear(d.year);
    }
  }

  lemma PrevDayIsPrevious(d: Date)
    requires CalendarDate(d) && d.year > MinYear
    ensures CalendarDate(PrevDay(d))
    ensures Ordinal(PrevDay(d)) + 1 == Ordinal(d)
  {
    var p := PrevDay(d);
    if d.day == 1 && d.month == 1 {
      assert DaysBeforeYear(d.year) == DaysBeforeYear(p.year) + DaysInYear(p.year);
    }
  }

  // ----------------------------------------------------------- UTC instants

  /** The offset arrow assumes: a naive value is read as UTC. */
  function OffsetOf(t: DateTime): int {
    if t.offset.Some? then t.offset.value else 0
  }

  /** The UTC minute a value denotes, counted from the start of day 1. */
  function UtcMinutes(t: DateTime): int
    requires CalendarDate(t.date)
  {
    Ordinal(t.date) * MinutesPerDay + t.hour * 60 + t.minute - OffsetOf(t)
  }

  /** Moves `d` by `shift` days, `shift` being -1, 0 or 1. */
  function ShiftDay(d: Date, shift: int): Date
    requires CalendarDate(d) && -1 <= shift <= 1
  {
    if shift < 0 then PrevDay(d) else if shift > 0 then NextDay(d) else d
  }

  const OutOfRange := OverflowError("date value out of range")

  /** `arrow.get(t).to('utc')`: the same instant with offset +00:00. The day
      may move by one either way; a result outside years 1 to 9999 raises
      `OverflowError`, as `datetime.astimezone` does. */
  function ToUtc(t: PyDateTime): (r: Result<PyDateTime>)
    ensures r.Ok? ==> r.value.offset == Some(0)
    ensures r.Ok? ==> r.value.second == t.second && r.value.microsecond == t.microsecond
    ensures r.Err? ==> r.error == OutOfRange
    ensures r.Err? <==>
      || (t.date == Date(MinYear, 1, 1) && t.hour * 60 + t.minute < OffsetOf(t))
      || (t.date == Date(MaxYear, 12, 31) && t.hour * 60 + t.minute - OffsetOf(t) >= MinutesPerDay)
  {
    var total := t.hour * 60 + t.minute - OffsetOf(t);
    var shift := if total < 0 then -1 else if total >= MinutesPerDay then 1 else 0;
    var mins := total - shift * MinutesPerDay;
    var d := ShiftDay(t.date, shift);
    if d.year < MinYear || d.year > MaxYear then Err(OutOfRange)
    else
      assert ValidDate(d);
      Ok(DateTime(d, mins / 60, mins % 60, t.second, t.microsecond, Some(0)))
  }

  /** The conversion keeps the instant: the UTC value denotes the same minute. */
  lemma ToUtcKeepsInstant(t: PyDateTime)
    requires ToUtc(t).Ok?
    ensures UtcMinutes(ToUtc(t).value) == UtcMinutes(t)
  {
    var total := t.hour * 60 + t.minute - OffsetOf(t);
    if total < 0 {
      if t.date.year == MinYear {
        assert t.date.day > 1 || t.date.month > 1;
        assert Ordinal(PrevDay(t.date)) + 1 == Ordinal(t.date);
      } else {
        PrevDayIsPrevious(t.date);
      }
    } else if total >= MinutesPerDay {
      NextDayIsNext(t.date);
    }
  }

  /** A value already in UTC is left as it is. */
  lemma ToUtcOfUtc(t: PyDateTime)
    requires t.offset == Some(0)
    ensures ToUtc(t) == Ok(t)
  {
  }

  /** Drops the offset: arrow's `.naive`. */
  function Naive(t: PyDateTime): (n: PyDateTime)
    ensures n.offset.None? && n.date == t.date
    ensures n.hour == t.hour && n.minute == t.minute && n.second == t.second && n.microsecond == t.microsecond
  {
    t.(offset := None)
  }

  // ---------------------------------------------------------- ISO 8601 text

  predicate IsAsciiDigit(c: char) {
    '0' <= c <= '9'
  }

  function Digit(n: int): (c: char)
    requires 0 <= n < 10
    ensures IsAsciiDigit(c)
  {
    (48 + n) as char
  }

  function DigitValue(c: char): int
    requires IsAsciiDigit(c)
  {
    c as int - 48
  }

  predicate AllDigits(s: string) {
    forall i :: 0 <= i < |s| ==> IsAsciiDigit(s[i])
  }

  function Pow10(w: nat): nat {
    if w == 0 then 1 else 10 * Pow10(w - 1)
  }

  /** `'%0*d' % (width, n)` for `n` with at most `width` digits. */
  function Pad(n: nat, width: nat): (s: string)
    ensures |s| == width && AllDigits(s)
  {
    if width == 0 then "" else Pad(n / 10, width - 1) + [Digit(n % 10)]
  }

  /** The number a run of ASCII digits spells. */
  function DigitsValue(s: string): nat
    requires AllDigits(s)
  {
    if s == [] then 0 else DigitsValue(s[..|s| - 1]) * 10 + DigitValue(s[|s| - 1])
  }

  /** Reading back a zero-padded number gives the number. */
  lemma {:induction false} PadRoundTrip(n: nat, width: nat)
    requires n < Pow10(width)
    ensures DigitsValue(Pad(n, width)) == n
  {
    if width > 0 {
      var s := Pad(n, width);
      assert s[..|s| - 1] == Pad(n / 10, width - 1);
      PadRoundTrip(n / 10, width - 1);
    }
  }

  /** `date.isoformat()`: `YYYY-MM-DD`. */
  function FormatDate(d: PyDate): (s: string)
    ensures |s| == 10
  {
    Pad(d.year, 4) + "-" + Pad(d.month, 2) + "-" + Pad(d.day, 2)
  }

  /** The `+HH:MM` or `-HH:MM` suffix of an aware value. */
  function FormatOffset(minutes: int): (s: string)
    requires -MinutesPerDay < minutes < MinutesPerDay
    ensures |s| == 6
  {
    var m := if minutes < 0 then -minutes else minutes;
    (if minutes < 0 then "-" else "+") + Pad(m / 60, 2) + ":" + Pad(m % 60, 2)
  }

  /** `HH:MM:SS`. */
  function FormatClock(hour: nat, minute: nat, second: nat): (s: string)
    ensures |s| == 8
  {
    Pad(hour, 2) + ":" + Pad(minute, 2) + ":" + Pad(second, 2)
  }

  /** `.ffffff`, written only when the microseconds are not zero. */
  function FormatFraction(microsecond: nat): (s: string)
    ensures |s| == if microsecond != 0 then 7 else 0
  {
    if microsecond != 0 then "." + Pad(microsecond, 6) else ""
  }

  /** `datetime.isoformat(sep)`: the date, `sep`, the clock, the fraction and,
      when the value is aware, the offset. */
  function IsoFormat(t: PyDateTime, sep: char): (s: string)
    ensures |s| == 19 + (if t.microsecond != 0 then 7 else 0) + (if t.offset.Some? then 6 else 0)
  {
    FormatDate(t.date) + [sep] + FormatClock(t.hour, t.minute, t.second)
    + FormatFraction(t.microsecond)
    + (if t.offset.Some? then FormatOffset(t.offset.value) else "")
  }
}
