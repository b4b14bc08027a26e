/** The date utilities of src/utils/dateHelpers.ts. A `Date` is a number of milliseconds
    since 1 January 1970 00:00:00.000 of the local calendar, with every day exactly
    86 400 000 ms long (no time zone offset, no daylight saving). */
module DateHelpers {
  import opened Wrappers

  type Date = int

  /** `{ dateStart?: Date, dateEnd?: Date }`; None is an absent bound. */
  datatype DateRange = DateRange(dateStart: Option<Date>, dateEnd: Option<Date>)

  const MsPerSecond: int := 1000
  const MsPerMinute: int := 60 * MsPerSecond
  const MsPerHour: int := 60 * MsPerMinute
  const MsPerDay: int := 24 * MsPerHour

  /** Weekday numbers as `Date.prototype.getDay` gives them: 0 is Sunday, 1 Monday. */
  type WeekDayNumber = d: int | 0 <= d < 7
  const Sunday: WeekDayNumber := 0
  const Monday: WeekDayNumber := 1

  /** The day `t` falls on, counted from 1 January 1970 (day 0). */
  function DayNumber(t: Date): int {
    t / MsPerDay
  }

  /** Milliseconds since midnight of the day `t` falls on. */
  function TimeOfDay(t: Date): int {
    t % MsPerDay
  }

  /** `getDay()`: 1 January 1970 was a Thursday (4). */
  function WeekDay(t: Date): WeekDayNumber {
    (DayNumber(t) + 4) % 7
  }

  /** `new Date(y, m, d, h, min, s, ms)` with the calendar day of `t`; also
      `setHours(h, min, s, ms)` applied to `t`. */
  function AtTime(t: Date, h: int, min: int, s: int, ms: int): Date {
    DayNumber(t) * MsPerDay + h * MsPerHour + min * MsPerMinute + s * MsPerSecond + ms
  }

  /** `new Date(y, m, d)`: midnight of the day `t` falls on. */
  function StartOfDay(t: Date): Date {
    AtTime(t, 0, 0, 0, 0)
  }

  /** `setDate(getDate() + n)`: the same time of day, `n` days later. */
  function AddDays(t: Date, n: int): Date {
    t + n * MsPerDay
  }

  /** `(1 + 7 - d) % 7 || 7`: the number of days from weekday `d` to the next Monday. */
  function DaysUntilNextMonday(d: WeekDayNumber): (n: int)
    ensures 1 <= n <= 7
  {
    var r := (1 + 7 - d) % 7;
    if r == 0 then 7 else r
  }

  /** The range a filter keyword selects, seen from the instant `now`. */
  function GetDateRange(filter: string, now: Date): (r: DateRange)
    ensures r.dateEnd.Some? <==> filter in {"today", "tomorrow", "next-week", "past"}
    ensures r.dateStart.Some? <==> filter in {"today", "tomorrow", "next-week"}
  {
    var todayStart := StartOfDay(now);
    var todayEnd := AtTime(now, 23, 59, 59, 999);
    if filter == "today" then
      DateRange(Some(todayStart), Some(todayEnd))
    else if filter == "tomorrow" then
      DateRange(Some(AddDays(todayStart, 1)), Some(AddDays(todayEnd, 1)))
    else if filter == "next-week" then
      var nextMonday := AddDays(todayStart, DaysUntilNextMonday(WeekDay(todayStart)));
      var nextSunday := AtTime(AddDays(nextMonday, 6), 23, 59, 59, 999);
      DateRange(Some(nextMonday), Some(nextSunday))
    else if filter == "past" then
      DateRange(None, Some(todayStart - 1))
    else
      DateRange(None, None)
  }

  /** The last millisecond of a day, 23:59:59.999. */
  const LastMsOfDay: int := MsPerDay - 1

  /** Day number and time of day split an instant uniquely. */
  lemma Split(day: int, time: int)
    requires 0 <= time < MsPerDay
    ensures DayNumber(day * MsPerDay + time) == day
    ensures TimeOfDay(day * MsPerDay + time) == time
  {
    var t := day * MsPerDay + time;
    assert t == (t / MsPerDay) * MsPerDay + t % MsPerDay;
  }

  /** `StartOfDay` lands on midnight of the same day. */
  lemma StartOfDayFacts(t: Date)
    ensures StartOfDay(t) <= t < StartOfDay(t) + MsPerDay
    ensures DayNumber(StartOfDay(t)) == DayNumber(t) && TimeOfDay(StartOfDay(t)) == 0
    ensures StartOfDay(StartOfDay(t)) == StartOfDay(t)
    ensures WeekDay(StartOfDay(t)) == WeekDay(t)
  {
    Split(DayNumber(t), 0);
  }

  /** Midnight of day `day` moved by `n` days is midnight of day `day + n`. */
  lemma Midnight(day: int, n: int)
    ensures DayNumber(AddDays(day * MsPerDay, n)) == day + n
    ensures TimeOfDay(AddDays(day * MsPerDay, n)) == 0
    ensures AtTime(AddDays(day * MsPerDay, n), 23, 59, 59, 999) == (day + n) * MsPerDay + LastMsOfDay
  {
    assert AddDays(day * MsPerDay, n) == (day + n) * MsPerDay;
    Split(day + n, 0);
  }

  /** `today`: from 00:00:00.000 to 23:59:59.999 of the current day, `now` in between. */
  lemma TodayRange(now: Date)
    ensures var r := GetDateRange("today", now);
      && r.dateStart.Some? && r.dateEnd.Some?
      && DayNumber(r.dateStart.value) == DayNumber(now) && TimeOfDay(r.dateStart.value) == 0
      && DayNumber(r.dateEnd.value) == DayNumber(now) && TimeOfDay(r.dateEnd.value) == LastMsOfDay
      && r.dateStart.value <= now <= r.dateEnd.value
      && r.dateStart.value < r.dateEnd.value
  {
    StartOfDayFacts(now);
    Split(DayNumber(now), LastMsOfDay);
  }

  /** `tomorrow`: both bounds exactly one day after those of `today`. */
  lemma TomorrowRange(now: Date)
    ensures var today, r := GetDateRange("today", now), GetDateRange("tomorrow", now);
      && r.dateStart.Some? && r.dateEnd.Some? && today.dateStart.Some? && today.dateEnd.Some?
      && r.dateStart.value == today.dateStart.value + MsPerDay
      && r.dateEnd.value == today.dateEnd.value + MsPerDay
      && DayNumber(r.dateStart.value) == DayNumber(now) + 1 && TimeOfDay(r.dateStart.value) == 0
      && DayNumber(r.dateEnd.value) == DayNumber(now) + 1 && TimeOfDay(r.dateEnd.value) == LastMsOfDay
  {
    Midnight(DayNumber(now), 1);
    Split(DayNumber(now) + 1, LastMsOfDay);
  }

  /** The weekday `k` days after weekday `d`. */
  function WeekDayAfter(d: WeekDayNumber, k: int): WeekDayNumber {
    (d + k) % 7
  }

  /** The offset to the next Monday is 1..7; it is 7 exactly on a Monday; it lands on a Monday
      and skips no Monday on the way. */
  lemma DaysUntilNextMondayFacts(d: WeekDayNumber)
    ensures 1 <= DaysUntilNextMonday(d) <= 7
    ensures DaysUntilNextMonday(d) == 7 <==> d == Monday
    ensures WeekDayAfter(d, DaysUntilNextMonday(d)) == Monday
    ensures forall k :: 1 <= k < DaysUntilNextMonday(d) ==> WeekDayAfter(d, k) != Monday
  {
  }

  /** `next-week`: from the upcoming Monday 00:00:00.000 (7 days ahead when today is Monday) to
      the Sunday after it, 23:59:59.999. */
  lemma NextWeekRange(now: Date)
    ensures var r := GetDateRange("next-week", now);
      && r.dateStart.Some? && r.dateEnd.Some?
      && var offset := DayNumber(r.dateStart.value) - DayNumber(now);
      && 1 <= offset <= 7
      && (offset == 7 <==> WeekDay(now) == Monday)
      && WeekDay(r.dateStart.value) == Monday && TimeOfDay(r.dateStart.value) == 0
      && (forall k :: 1 <= k < offset ==> WeekDay(AddDays(StartOfDay(now), k)) != Monday)
      && r.dateEnd.value == r.dateStart.value + 6 * MsPerDay + LastMsOfDay
      && WeekDay(r.dateEnd.value) == Sunday && TimeOfDay(r.dateEnd.value) == LastMsOfDay
      && r.dateStart.value < r.dateEnd.value
  {
    var day, w := DayNumber(now), WeekDay(now);
    var offset := DaysUntilNextMonday(w);
    DaysUntilNextMondayFacts(w);
    StartOfDayFacts(now);
    assert StartOfDay(now) == day * MsPerDay;
    var monday := (day + offset) * MsPerDay;
    assert AddDays(StartOfDay(now), offset) == monday;
    Split(day + offset, 0);
    WeekDayShift(day, offset);
    assert AddDays(monday, 6) == (day + offset + 6) * MsPerDay;
    Split(day + offset + 6, 0);
    Split(day + offset + 6, LastMsOfDay);
    WeekDayShift(day, offset + 6);
    forall k | 1 <= k < offset
      ensures WeekDay(AddDays(StartOfDay(now), k)) != Monday
    {
      assert AddDays(StartOfDay(now), k) == (day + k) * MsPerDay;
      Split(day + k, 0);
      WeekDayShift(day, k);
    }
  }

  /** Moving `n` days from day `day` moves its weekday by `n`. */
  lemma WeekDayShift(day: int, n: int)
    ensures (day + n + 4) % 7 == WeekDayAfter((day + 4) % 7, n)
  {
    var q := (day + 4) / 7;
    assert day + 4 == 7 * q + (day + 4) % 7;
    assert day + n + 4 == 7 * q + ((day + 4) % 7 + n);
  }

  /** `past`: no start, and the end is the millisecond before today's midnight. */
  lemma PastRange(now: Date)
    ensures var today, r := GetDateRange("today", now), GetDateRange("past", now);
      && r.dateStart.None? && r.dateEnd.Some? && today.dateStart.Some?
      && r.dateEnd.value == today.dateStart.value - 1
      && r.dateEnd.value < now
      && DayNumber(r.dateEnd.value) == DayNumber(now) - 1 && TimeOfDay(r.dateEnd.value) == LastMsOfDay
  {
    StartOfDayFacts(now);
    Split(DayNumber(now) - 1, LastMsOfDay);
  }

  /** Any other filter leaves both bounds open. */
  lemma OtherFilterRange(filter: string, now: Date)
    requires filter !in {"today", "tomorrow", "next-week", "past"}
    ensures GetDateRange(filter, now) == DateRange(None, None)
  {
  }

  /** `formatDatePL`: the empty string for a missing date; otherwise the date as the
      `pl-PL` locale writes it, which `toLocaleDateString` stands for. */
  function FormatDatePL(date: Option<Date>, toLocaleDateString: Date -> string): (r: string)
    ensures date.None? ==> r == ""
    ensures date.Some? ==> r == toLocaleDateString(date.value)
  {
    match date
    case None => ""
    case Some(d) => toLocaleDateString(d)
  }

  /** `formatTimePL`: the empty string for a missing date; otherwise the hour and minute as the
      `pl-PL` locale writes them, which `toLocaleTimeString` stands for. */
  function FormatTimePL(date: Option<Date>, toLocaleTimeString: Date -> string): (r: string)
    ensures date.None? ==> r == ""
    ensures date.Some? ==> r == toLocaleTimeString(date.value)
  {
    match date
    case None => ""
    case Some(d) => toLocaleTimeString(d)
  }
}
