/**
 * When a scheduled report runs first (frontend/app/api/scheduled-reports/create/route.ts):
 * `calculateNextRunTime` takes the current moment, puts the requested time of day on it and
 * moves it forward by days or months, mutating one `Date` step by step.
 *
 * A time value is a whole number of milliseconds on the local wall clock, counted from
 * 1970-01-01 00:00; the calendar is the proleptic Gregorian one, with no time zones and no
 * daylight saving. The current moment is a parameter.
 */
module ScheduledReports {
  import opened Options
  import opened Text
  import opened JsValues

  const MinuteMs := 60000
  const HourMs := 3600000
  const DayMs := 86400000

  // ---------------------------------------------------------------- the calendar

  /** Months are numbered `year * 12 + month`, with `month` counted from 0 as `getMonth`
      does; day 0 is the first day of January 1970. */
  const EpochMonth := 1970 * 12

  predicate IsLeapYear(year: int) {
    year % 4 == 0 && (year % 100 != 0 || year % 400 == 0)
  }

  function DaysInMonth(monthIndex: int): (n: int)
    ensures 28 <= n <= 31
  {
    var month := monthIndex % 12;
    if month == 1 then (if IsLeapYear(monthIndex / 12) then 29 else 28)
    else if month == 3 || month == 5 || month == 8 || month == 10 then 30
    else 31
  }

  /** The day number of the first day of a month. */
  function MonthStart(monthIndex: int): int
    decreases if monthIndex >= EpochMonth then monthIndex - EpochMonth else EpochMonth - monthIndex
  {
    if monthIndex == EpochMonth then 0
    else if monthIndex > EpochMonth then MonthStart(monthIndex - 1) + DaysInMonth(monthIndex - 1)
    else MonthStart(monthIndex + 1) - DaysInMonth(monthIndex)
  }

  /** A month ends where the next one starts. */
  lemma MonthStartStep(monthIndex: int)
    ensures MonthStart(monthIndex + 1) == MonthStart(monthIndex) + DaysInMonth(monthIndex)
  {
    if monthIndex + 1 == EpochMonth {
      assert MonthStart(monthIndex) == MonthStart(monthIndex + 1) - DaysInMonth(monthIndex);
    }
  }

  /** Later months start later, by at least 28 days a month. */
  lemma {:induction false} MonthStartGrows(a: int, b: int)
    requires a <= b
    ensures MonthStart(a) + 28 * (b - a) <= MonthStart(b)
    decreases b - a
  {
    if a < b {
      MonthStartGrows(a, b - 1);
      MonthStartStep(b - 1);
    }
  }

  /** The month holding day `d`, searched forward from a month that starts on or before it. */
  function MonthForward(d: int, monthIndex: int): (r: int)
    requires MonthStart(monthIndex) <= d
    ensures MonthStart(r) <= d < MonthStart(r + 1)
    decreases d - MonthStart(monthIndex)
  {
    MonthStartStep(monthIndex);
    if d < MonthStart(monthIndex + 1) then monthIndex else MonthForward(d, monthIndex + 1)
  }

  /** The month holding day `d`, searched backward from a month that starts after it. */
  function MonthBackward(d: int, monthIndex: int): (r: int)
    requires d < MonthStart(monthIndex)
    ensures MonthStart(r) <= d < MonthStart(r + 1)
    decreases MonthStart(monthIndex) - d
  {
    MonthStartStep(monthIndex - 1);
    if MonthStart(monthIndex - 1) <= d then monthIndex - 1 else MonthBackward(d, monthIndex - 1)
  }

  /** The month a day number falls in. */
  function MonthOfDay(d: int): (r: int)
    ensures MonthStart(r) <= d < MonthStart(r + 1)
  {
    if 0 <= d then MonthForward(d, EpochMonth) else MonthBackward(d, EpochMonth)
  }

  /** A day belongs to one month only. */
  lemma MonthOfDayIs(d: int, monthIndex: int)
    requires MonthStart(monthIndex) <= d < MonthStart(monthIndex + 1)
    ensures MonthOfDay(d) == monthIndex
  {
    var r := MonthOfDay(d);
    if r < monthIndex {
      MonthStartGrows(r + 1, monthIndex);
    } else if monthIndex < r {
      MonthStartGrows(monthIndex + 1, r);
    }
  }

  /** A day on or after the start of a month falls in that month or a later one. */
  lemma MonthOfDayFrom(d: int, monthIndex: int)
    requires MonthStart(monthIndex) <= d
    ensures monthIndex <= MonthOfDay(d)
  {
    if MonthOfDay(d) < monthIndex {
      MonthStartGrows(MonthOfDay(d) + 1, monthIndex);
    }
  }

  /** Later days fall in the same or a later month. */
  lemma MonthOfDayGrows(d: int, e: int)
    requires d <= e
    ensures MonthOfDay(d) <= MonthOfDay(e)
  {
    if MonthOfDay(e) < MonthOfDay(d) {
      MonthStartGrows(MonthOfDay(e) + 1, MonthOfDay(d));
    }
  }

  // ---------------------------------------------------------------- fields of a time value

  /** The day number of a time value (`Day(t)` of ECMAScript, a floor division). */
  function Day(t: int): int {
    t / DayMs
  }

  /** Milliseconds since midnight. */
  function TimeWithinDay(t: int): (r: int)
    ensures 0 <= r < DayMs
  {
    t % DayMs
  }

  function MonthIndexOf(t: int): int {
    MonthOfDay(Day(t))
  }

  /** `getFullYear()`. */
  function YearOf(t: int): int {
    MonthIndexOf(t) / 12
  }

  /** `getMonth()`: 0 for January. */
  function MonthOf(t: int): (r: int)
    ensures 0 <= r < 12
  {
    MonthIndexOf(t) % 12
  }

  /** `getDate()`: 1 for the first day of the month. */
  function DateOf(t: int): (r: int)
    ensures 1 <= r <= DaysInMonth(MonthIndexOf(t))
  {
    MonthStartStep(MonthIndexOf(t));
    Day(t) - MonthStart(MonthIndexOf(t)) + 1
  }

  /** `getDay()`: 0 for Sunday; 1970-01-01 was a Thursday. */
  function WeekDay(t: int): (r: int)
    ensures 0 <= r < 7
  {
    (Day(t) + 4) % 7
  }

  /** `MakeDay(year, month, date)`: a month past December or before January moves the year,
      and a date past the month's end runs on into the following months. */
  function MakeDay(year: int, month: int, date: int): int {
    MonthStart(year * 12 + month) + date - 1
  }

  function MakeDate(day: int, time: int): int {
    day * DayMs + time
  }

  /** A day and a time within it make a time value that gives them back. */
  lemma MakeDateFields(day: int, time: int)
    requires 0 <= time < DayMs
    ensures Day(MakeDate(day, time)) == day && TimeWithinDay(MakeDate(day, time)) == time
  {
  }

  /** `setDate(date)` as a function of the old time value. */
  function OnDate(t: int, date: int): int {
    MakeDate(MakeDay(YearOf(t), MonthOf(t), date), TimeWithinDay(t))
  }

  /** `setMonth(month)` as a function of the old time value: the date of the month is kept. */
  function OnMonth(t: int, month: int): int {
    MakeDate(MakeDay(YearOf(t), month, DateOf(t)), TimeWithinDay(t))
  }

  /** `setHours(hours, minutes, seconds, ms)` as a function of the old time value. */
  function AtTime(t: int, hours: int, minutes: int, seconds: int, ms: int): int {
    MakeDate(Day(t), hours * HourMs + minutes * MinuteMs + seconds * 1000 + ms)
  }

  /** The year and the month of the year put back together give the month number. */
  lemma MonthFields(t: int)
    ensures YearOf(t) * 12 + MonthOf(t) == MonthIndexOf(t)
  {
  }

  /** A day inside a month, at a time within the day, reads back as that month and date. */
  lemma DayInMonth(day: int, time: int, monthIndex: int)
    requires MonthStart(monthIndex) <= day < MonthStart(monthIndex + 1) && 0 <= time < DayMs
    ensures MonthIndexOf(MakeDate(day, time)) == monthIndex
    ensures DateOf(MakeDate(day, time)) == day - MonthStart(monthIndex) + 1
  {
    MakeDateFields(day, time);
    MonthOfDayIs(day, monthIndex);
  }

  /** Setting the date to today's plus `k` moves the time value by exactly `k` days, whatever
      months it crosses. */
  lemma OnDateAddsDays(t: int, k: int)
    ensures OnDate(t, DateOf(t) + k) == t + k * DayMs
  {
    MonthFields(t);
  }

  /** A date past the end of the month falls into the next month, counted on from its end. */
  lemma DateRollsOver(t: int, date: int)
    requires DaysInMonth(MonthIndexOf(t)) < date <= DaysInMonth(MonthIndexOf(t)) + DaysInMonth(MonthIndexOf(t) + 1)
    ensures MonthIndexOf(OnDate(t, date)) == MonthIndexOf(t) + 1
    ensures DateOf(OnDate(t, date)) == date - DaysInMonth(MonthIndexOf(t))
  {
    var mi := MonthIndexOf(t);
    MonthFields(t);
    var day := MonthStart(mi) + date - 1;
    assert OnDate(t, date) == MakeDate(day, TimeWithinDay(t));
    MonthStartStep(mi);
    MonthStartStep(mi + 1);
    DayInMonth(day, TimeWithinDay(t), mi + 1);
  }

  /** `setMonth(getMonth() + 1)` on a date that every month has gives the same date of the
      next month. */
  lemma OnNextMonth(t: int)
    requires DateOf(t) <= 28
    ensures MonthIndexOf(OnMonth(t, MonthOf(t) + 1)) == MonthIndexOf(t) + 1
    ensures DateOf(OnMonth(t, MonthOf(t) + 1)) == DateOf(t)
  {
    var mi := MonthIndexOf(t);
    MonthFields(t);
    var day := MonthStart(mi + 1) + DateOf(t) - 1;
    assert OnMonth(t, MonthOf(t) + 1) == MakeDate(day, TimeWithinDay(t));
    MonthStartStep(mi + 1);
    DayInMonth(day, TimeWithinDay(t), mi + 1);
  }

  /** A date within the month stays in it. */
  lemma DateWithinMonth(t: int, date: int)
    requires 1 <= date <= DaysInMonth(MonthIndexOf(t))
    ensures MonthIndexOf(OnDate(t, date)) == MonthIndexOf(t) && DateOf(OnDate(t, date)) == date
  {
    var mi := MonthIndexOf(t);
    MonthFields(t);
    var day := MonthStart(mi) + date - 1;
    assert OnDate(t, date) == MakeDate(day, TimeWithinDay(t));
    MonthStartStep(mi);
    DayInMonth(day, TimeWithinDay(t), mi);
  }

  // ---------------------------------------------------------------- the Date object

  /** A JavaScript `Date` holding a valid time value, with the getters and setters used. */
  class Date {
    var time: int

    /** `new Date(t)`. */
    constructor (t: int)
      ensures time == t
    {
      time := t;
    }

    function GetDate(): int
      reads this
    {
      DateOf(time)
    }

    function GetMonth(): int
      reads this
    {
      MonthOf(time)
    }

    function GetDay(): int
      reads this
    {
      WeekDay(time)
    }

    method SetHours(hours: int, minutes: int, seconds: int, ms: int)
      modifies this
      ensures time == AtTime(old(time), hours, minutes, seconds, ms)
    {
      time := MakeDate(Day(time), hours * HourMs + minutes * MinuteMs + seconds * 1000 + ms);
    }

    method SetDate(date: int)
      modifies this
      ensures time == OnDate(old(time), date)
    {
      time := MakeDate(MakeDay(YearOf(time), MonthOf(time), date), TimeWithinDay(time));
    }

    method SetMonth(month: int)
      modifies this
      ensures time == OnMonth(old(time), month)
    {
      time := MakeDate(MakeDay(YearOf(time), month, DateOf(time)), TimeWithinDay(time));
    }
  }

  // ---------------------------------------------------------------- the schedule

  /** The whole number `setHours` makes of a numeric argument: the fraction is cut off
      toward zero. */
  function Truncate(x: real): int {
    if x >= 0.0 then x.Floor else -((-x).Floor)
  }

  const DefaultTimeOfDay := "09:00"

  /** `Number(part)` as `setHours` uses it: NaN is `None`. */
  function NumberPart(part: string): Option<int> {
    match StringToNumber(part)
    case Some(x) => Some(Truncate(x))
    case None => None
  }

  /** `text.split(":").map(Number)`: the hours and minutes, or `None` when either is NaN (a
      missing minutes part is `Number(undefined)`). */
  function ClockParts(text: string): Option<(int, int)> {
    var parts := Split(text, ':');
    var hours := NumberPart(parts[0]);
    var minutes := if |parts| > 1 then NumberPart(parts[1]) else None;
    if hours.Some? && minutes.Some? then Some((hours.value, minutes.value)) else None
  }

  /** `(timeOfDay || "09:00")` read as hours and minutes. */
  function TimeOfDayParts(timeOfDay: Option<string>): Option<(int, int)> {
    ClockParts(if timeOfDay.None? || timeOfDay.value == "" then DefaultTimeOfDay else timeOfDay.value)
  }

  /** `dayOfWeek || 1`: absent and 0 (Sunday) both become 1 (Monday). */
  function WeekTarget(dayOfWeek: Option<int>): int {
    if dayOfWeek.None? || dayOfWeek.value == 0 then 1 else dayOfWeek.value
  }

  /** `dayOfMonth || 1`. */
  function MonthTarget(dayOfMonth: Option<int>): int {
    if dayOfMonth.None? || dayOfMonth.value == 0 then 1 else dayOfMonth.value
  }

  /** The days from weekday `current` forward to weekday `target`. */
  function DaysToAdd(target: int, current: int): int {
    if target - current <= 0 then target - current + 7 else target - current
  }

  /** Today at the requested time. */
  function Slot(now: int, hours: int, minutes: int): int {
    AtTime(now, hours, minutes, 0, 0)
  }

  /** A daily report: the slot when it is still ahead, otherwise a day later. */
  function DailyRun(slot: int, now: int): int {
    if slot <= now then slot + DayMs else slot
  }

  /** A weekly report: the target weekday after the slot's day, a week on if that is still
      not later than now. */
  function WeeklyRun(target: int, slot: int, now: int): int {
    var first := slot + DaysToAdd(target, WeekDay(slot)) * DayMs;
    if first <= now then first + 7 * DayMs else first
  }

  /** A monthly report: the target date of the slot's month, or the same date of the next
      month when that is not later than now. */
  function MonthlyRun(target: int, slot: int, now: int): int {
    var first := OnDate(slot, target);
    if first <= now then OnMonth(first, MonthOf(first) + 1) else first
  }

  /** The moves after `setHours`, by frequency; any other frequency keeps the slot. */
  function Advance(frequency: string, dayOfWeek: Option<int>, dayOfMonth: Option<int>, slot: int, now: int): int {
    if frequency == "daily" then DailyRun(slot, now)
    else if frequency == "weekly" then WeeklyRun(WeekTarget(dayOfWeek), slot, now)
    else if frequency == "monthly" then MonthlyRun(MonthTarget(dayOfMonth), slot, now)
    else slot
  }

  /** The first run for a time of day already read: the slot moved as the frequency says. */
  function NextRunAt(frequency: string, dayOfWeek: Option<int>, dayOfMonth: Option<int>,
                     hours: int, minutes: int, now: int): int
  {
    Advance(frequency, dayOfWeek, dayOfMonth, Slot(now, hours, minutes), now)
  }

  /** The first run, or `None` for an Invalid Date when the time of day does not read as
      numbers. */
  function NextRunTime(frequency: string, dayOfWeek: Option<int>, dayOfMonth: Option<int>,
                       timeOfDay: Option<string>, now: int): Option<int>
  {
    match TimeOfDayParts(timeOfDay)
    case None => None
    case Some((hours, minutes)) => Some(NextRunAt(frequency, dayOfWeek, dayOfMonth, hours, minutes, now))
  }

  /** The daily branch of `calculateNextRunTime`. */
  method AdvanceDaily(nextRun: Date, now: int)
    modifies nextRun
    ensures nextRun.time == DailyRun(old(nextRun.time), now)
  {
    if nextRun.time <= now {
      OnDateAddsDays(nextRun.time, 1);
      nextRun.SetDate(nextRun.GetDate() + 1);
    }
  }

  /** The weekly branch of `calculateNextRunTime`, with `dayOfWeek || 1` already taken. */
  method AdvanceWeekly(nextRun: Date, targetDay: int, now: int)
    modifies nextRun
    ensures nextRun.time == WeeklyRun(targetDay, old(nextRun.time), now)
  {
    var currentDay := nextRun.GetDay();
    var daysToAdd := targetDay - currentDay;
    if daysToAdd <= 0 {
      daysToAdd := daysToAdd + 7;
    }
    assert daysToAdd == DaysToAdd(targetDay, currentDay);
    OnDateAddsDays(nextRun.time, daysToAdd);
    nextRun.SetDate(nextRun.GetDate() + daysToAdd);
    if nextRun.time <= now {
      OnDateAddsDays(nextRun.time, 7);
      nextRun.SetDate(nextRun.GetDate() + 7);
    }
  }

  /** The monthly branch of `calculateNextRunTime`, with `dayOfMonth || 1` already taken. */
  method AdvanceMonthly(nextRun: Date, targetDate: int, now: int)
    modifies nextRun
    ensures nextRun.time == MonthlyRun(targetDate, old(nextRun.time), now)
  {
    nextRun.SetDate(targetDate);
    if nextRun.time <= now {
      nextRun.SetMonth(nextRun.GetMonth() + 1);
    }
  }

  /** The branches of `calculateNextRunTime` after `setHours`, on the same `Date`. */
  method AdvanceDate(nextRun: Date, frequency: string, dayOfWeek: Option<int>, dayOfMonth: Option<int>, now: int)
    modifies nextRun
    ensures nextRun.time == Advance(frequency, dayOfWeek, dayOfMonth, old(nextRun.time), now)
  {
    if frequency == "daily" {
      AdvanceDaily(nextRun, now);
    } else if frequency == "weekly" {
      var targetDay := if dayOfWeek.None? || dayOfWeek.value == 0 then 1 else dayOfWeek.value;
      AdvanceWeekly(nextRun, targetDay, now);
    } else if frequency == "monthly" {
      var targetDate := if dayOfMonth.None? || dayOfMonth.value == 0 then 1 else dayOfMonth.value;
      AdvanceMonthly(nextRun, targetDate, now);
    }
  }

  /** `calculateNextRunTime`, with the current moment as a parameter. When the hours or minutes
      are NaN, `setHours` makes the date invalid, every later setter keeps it so and every
      comparison with it is false, so the result is an Invalid Date at once. */
  method CalculateNextRunTime(frequency: string, dayOfWeek: Option<int>, dayOfMonth: Option<int>,
                              timeOfDay: Option<string>, now: int)
    returns (nextRunAt: Option<int>)
    ensures nextRunAt == NextRunTime(frequency, dayOfWeek, dayOfMonth, timeOfDay, now)
  {
    var parts := TimeOfDayParts(timeOfDay);
    if parts.None? {
      return None;
    }
    var (hours, minutes) := parts.value;
    var nextRun := new Date(now);
    nextRun.SetHours(hours, minutes, 0, 0);
    AdvanceDate(nextRun, frequency, dayOfWeek, dayOfMonth, now);
    return Some(nextRun.time);
  }

  // ---------------------------------------------------------------- properties

  /** A run of decimal digits is read as the number it denotes. */
  lemma DigitsPart(part: string)
    requires |part| > 0 && AllDigits(part)
    ensures NumberPart(part) == Some(DigitsValue(part))
  {
    DigitsNumber(part);
    assert (DigitsValue(part) as real).Floor == DigitsValue(part);
  }

  /** Two parts around one colon. */
  lemma ClockSplit(h: string, m: string)
    requires ':' !in h && ':' !in m
    ensures Split(h + ":" + m, ':') == [h, m]
  {
    SplitAfterFirst(h, ':', m);
    SplitNone(m, ':');
    assert h + ":" + m == h + [':'] + m;
  }

  /** The digits of the default time denote 9 and 0. */
  lemma DefaultDigits()
    ensures AllDigits("09") && AllDigits("00") && DigitsValue("09") == 9 && DigitsValue("00") == 0
  {
    assert "09"[..1] == "0" && "00"[..1] == "0" && "0"[..0] == "";
  }

  /** "09" reads as 9 and "00" as 0. */
  lemma DefaultNumbers()
    ensures NumberPart("09") == Some(9) && NumberPart("00") == Some(0)
  {
    DefaultDigits();
    DigitsPart("09");
    DigitsPart("00");
  }

  /** "09:00" reads as nine hours and no minutes. */
  lemma DefaultParts()
    ensures ClockParts(DefaultTimeOfDay) == Some((9, 0))
  {
    ClockSplit("09", "00");
    assert DefaultTimeOfDay == "09" + ":" + "00";
    DefaultNumbers();
  }

  /** Without a time of day (absent or empty) the report runs at 09:00. */
  lemma DefaultIsNine()
    ensures TimeOfDayParts(None) == Some((9, 0)) && TimeOfDayParts(Some("")) == Some((9, 0))
  {
    DefaultParts();
  }

  /** A time of day written "h:m" in decimal digits is read as those hours and minutes. */
  lemma ClockTimeRead(hours: nat, minutes: nat)
    ensures TimeOfDayParts(Some(NatToString(hours) + ":" + NatToString(minutes))) == Some((hours, minutes))
  {
    var h := NatToString(hours);
    var m := NatToString(minutes);
    assert ':' !in h && ':' !in m by {
      assert forall k :: 0 <= k < |h| ==> IsDigit(h[k]);
      assert forall k :: 0 <= k < |m| ==> IsDigit(m[k]);
    }
    ClockSplit(h, m);
    DigitsPart(h);
    DigitsPart(m);
    NatToStringRoundTrip(hours);
    NatToStringRoundTrip(minutes);
  }

  /** The slot is today at the requested hour and minute, with seconds and milliseconds 0. */
  lemma SlotFields(now: int, hours: int, minutes: int)
    requires 0 <= hours < 24 && 0 <= minutes < 60
    ensures Day(Slot(now, hours, minutes)) == Day(now)
    ensures TimeWithinDay(Slot(now, hours, minutes)) == hours * HourMs + minutes * MinuteMs
  {
    MakeDateFields(Day(now), hours * HourMs + minutes * MinuteMs);
  }

  /** A daily report runs at the next occurrence of its time of day: today when that is still
      ahead, otherwise tomorrow; either way after now and at most a day away. */
  lemma DailyNextRun(dayOfWeek: Option<int>, dayOfMonth: Option<int>, hours: int, minutes: int, now: int)
    requires 0 <= hours < 24 && 0 <= minutes < 60
    ensures var r := NextRunAt("daily", dayOfWeek, dayOfMonth, hours, minutes, now);
            now < r <= now + DayMs &&
            TimeWithinDay(r) == hours * HourMs + minutes * MinuteMs &&
            (Day(r) == Day(now) <==> now < Slot(now, hours, minutes)) &&
            (Day(r) == Day(now) || Day(r) == Day(now) + 1)
  {
    SlotFields(now, hours, minutes);
    var time := hours * HourMs + minutes * MinuteMs;
    assert Slot(now, hours, minutes) + DayMs == MakeDate(Day(now) + 1, time);
    MakeDateFields(Day(now) + 1, time);
  }

  /** A daily report created without a time of day runs at the next 09:00. */
  lemma DefaultDailyRun(dayOfWeek: Option<int>, dayOfMonth: Option<int>, now: int)
    ensures var r := NextRunTime("daily", dayOfWeek, dayOfMonth, None, now);
            r.Some? && now < r.value <= now + DayMs && TimeWithinDay(r.value) == 9 * HourMs
  {
    DefaultIsNine();
    DailyNextRun(dayOfWeek, dayOfMonth, 9, 0, now);
  }

  /** The days to add reach the target weekday, and for a target in 1..7 they are 1 to 7:
      never 0, so the run is never today. */
  lemma DaysToAddReachesTarget(target: int, current: int)
    requires 0 <= current < 7
    ensures (current + DaysToAdd(target, current)) % 7 == target % 7
    ensures 1 <= target <= 7 ==> 1 <= DaysToAdd(target, current) <= 7
    ensures 0 <= target ==> 1 <= DaysToAdd(target, current)
  {
  }

  /** A weekly report with a target weekday that is not negative runs on that weekday (taken
      modulo 7), after today and after now, so the week-on correction never applies to it. For
      a target from 1 to 7 it runs within the coming seven days. */
  lemma WeeklyNextRun(target: int, hours: int, minutes: int, now: int)
    requires 0 <= hours < 24 && 0 <= minutes < 60 && 0 <= target
    ensures var slot := Slot(now, hours, minutes);
            var r := WeeklyRun(target, slot, now);
            now < r && Day(now) < Day(r) &&
            r == slot + DaysToAdd(target, WeekDay(slot)) * DayMs &&
            WeekDay(r) == target % 7 &&
            TimeWithinDay(r) == hours * HourMs + minutes * MinuteMs &&
            (target <= 7 ==> Day(r) <= Day(now) + 7)
  {
    SlotFields(now, hours, minutes);
    var slot := Slot(now, hours, minutes);
    var n := DaysToAdd(target, WeekDay(slot));
    DaysToAddReachesTarget(target, WeekDay(slot));
    var time := hours * HourMs + minutes * MinuteMs;
    assert slot + n * DayMs == MakeDate(Day(now) + n, time);
    MakeDateFields(Day(now) + n, time);
    WeekDayShift(Day(now) + 4, n);
    assert now < (Day(now) + 1) * DayMs;
  }

  /** Moving `n` days on moves the weekday `n` places on. */
  lemma WeekDayShift(a: int, n: int)
    ensures (a + n) % 7 == (a % 7 + n) % 7
  {
    var q := a / 7;
    assert a + n == 7 * q + (a % 7 + n);
  }

  /** Sunday (0) and a missing weekday are both scheduled on a Monday. */
  lemma SundayRunsOnMonday(dayOfMonth: Option<int>, hours: int, minutes: int, now: int)
    requires 0 <= hours < 24 && 0 <= minutes < 60
    ensures WeekDay(NextRunAt("weekly", Some(0), dayOfMonth, hours, minutes, now)) == 1
    ensures WeekDay(NextRunAt("weekly", None, dayOfMonth, hours, minutes, now)) == 1
  {
    WeeklyNextRun(1, hours, minutes, now);
  }

  /** The first candidate of a monthly report: the target date in the slot's month, at the
      slot's time. */
  lemma MonthlyFirst(target: int, hours: int, minutes: int, now: int)
    requires 0 <= hours < 24 && 0 <= minutes < 60
    ensures var first := OnDate(Slot(now, hours, minutes), target);
            Day(first) == MonthStart(MonthIndexOf(now)) + target - 1 &&
            TimeWithinDay(first) == hours * HourMs + minutes * MinuteMs
  {
    var slot := Slot(now, hours, minutes);
    SlotFields(now, hours, minutes);
    assert YearOf(slot) * 12 + MonthOf(slot) == MonthIndexOf(now);
    MakeDateFields(MonthStart(MonthIndexOf(now)) + target - 1, hours * HourMs + minutes * MinuteMs);
  }

  /** The same date one month on lies in a later month than `now`'s, when the candidate lies in
      `now`'s month or later. */
  lemma NextMonthAfter(first: int, now: int)
    requires MonthIndexOf(now) <= MonthIndexOf(first)
    ensures var next := OnMonth(first, MonthOf(first) + 1);
            Day(next) == MonthStart(MonthIndexOf(first) + 1) + DateOf(first) - 1 &&
            TimeWithinDay(next) == TimeWithinDay(first) && now < next
  {
    var fmi := MonthIndexOf(first);
    var nextDay := MonthStart(fmi + 1) + DateOf(first) - 1;
    assert YearOf(first) * 12 + MonthOf(first) + 1 == fmi + 1;
    MakeDateFields(nextDay, TimeWithinDay(first));
    MonthStartGrows(MonthIndexOf(now) + 1, fmi + 1);
    MonthStartStep(MonthIndexOf(now));
    assert now < (Day(now) + 1) * DayMs;
  }

  /** A monthly report with a target date of at least 1 runs after now, at the requested time. */
  lemma MonthlyAfterNow(target: int, hours: int, minutes: int, now: int)
    requires 0 <= hours < 24 && 0 <= minutes < 60 && 1 <= target
    ensures var r := MonthlyRun(target, Slot(now, hours, minutes), now);
            now < r && TimeWithinDay(r) == hours * HourMs + minutes * MinuteMs
  {
    var first := OnDate(Slot(now, hours, minutes), target);
    MonthlyFirst(target, hours, minutes, now);
    MonthOfDayFrom(Day(first), MonthIndexOf(now));
    if first <= now {
      NextMonthAfter(first, now);
    }
  }

  /** A target date that every month has (1 to 28) is the date the report runs on: in this
      month when that is still ahead, in the next one otherwise. */
  lemma MonthlyOnTargetDate(target: int, hours: int, minutes: int, now: int)
    requires 0 <= hours < 24 && 0 <= minutes < 60 && 1 <= target <= 28
    ensures var first := OnDate(Slot(now, hours, minutes), target);
            var r := MonthlyRun(target, Slot(now, hours, minutes), now);
            DateOf(r) == target &&
            MonthIndexOf(r) == (if now < first then MonthIndexOf(now) else MonthIndexOf(now) + 1)
  {
    var slot := Slot(now, hours, minutes);
    SlotFields(now, hours, minutes);
    DateWithinMonth(slot, target);
    var first := OnDate(slot, target);
    if first <= now {
      OnNextMonth(first);
    }
  }

  /** Any other frequency gets today's slot as it is, even one that has already passed. */
  lemma OtherFrequencyIsToday(frequency: string, dayOfWeek: Option<int>, dayOfMonth: Option<int>,
                              hours: int, minutes: int, now: int)
    requires frequency != "daily" && frequency != "weekly" && frequency != "monthly"
    requires 0 <= hours < 24 && 0 <= minutes < 60
    ensures NextRunAt(frequency, dayOfWeek, dayOfMonth, hours, minutes, now) == Slot(now, hours, minutes)
    ensures Day(NextRunAt(frequency, dayOfWeek, dayOfMonth, hours, minutes, now)) == Day(now)
  {
    SlotFields(now, hours, minutes);
  }

  /** At noon on 1970-01-01 an "hourly" report at the default time is due at 09:00 that day,
      three hours before now. */
  lemma PastSlotKept()
    ensures NextRunTime("hourly", None, None, None, 12 * HourMs) == Some(9 * HourMs)
  {
    DefaultIsNine();
    OtherFrequencyIsToday("hourly", None, None, 9, 0, 12 * HourMs);
  }
}
