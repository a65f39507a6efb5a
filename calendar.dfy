/** The part of Python's `datetime.date` the engine uses: construction with
    range checks, the proleptic Gregorian day number (`toordinal`) and the
    ISO week date (`isocalendar`), computed the way CPython computes them. */
module Calendar {
  import opened PyBuiltins

  const MinYear := 1
  const MaxYear := 9999

  predicate IsLeap(y: int) { y % 4 == 0 && (y % 100 != 0 || y % 400 == 0) }

  function DaysInYear(y: int): int { if IsLeap(y) then 366 else 365 }

  function DaysInMonth(y: int, m: int): int
    requires 1 <= m <= 12
  {
    if m == 2 then (if IsLeap(y) then 29 else 28)
    else if m == 4 || m == 6 || m == 9 || m == 11 then 30
    else 31
  }

  /** Days in the year before the first of month `m`. */
  function DaysBeforeMonth(y: int, m: int): int
    requires 1 <= m <= 12
  {
    [0, 31, 59, 90, 120, 151, 181, 212, 243, 273, 304, 334][m - 1]
      + (if m > 2 && IsLeap(y) then 1 else 0)
  }

  /** Days before January 1st of year `y`, counting from 1 January of year 1. */
  function DaysBeforeYear(y: int): int
  {
    var y1 := y - 1;
    y1 * 365 + y1 / 4 - y1 / 100 + y1 / 400
  }

  datatype Date = Date(year: int, month: int, day: int)

  predicate IsValid(d: Date)
  {
    MinYear <= d.year <= MaxYear && 1 <= d.month <= 12 && 1 <= d.day <= DaysInMonth(d.year, d.month)
  }

  type CalendarDate = d: Date | IsValid(d) witness Date(1, 1, 1)

  /** The range of a C `int`, which `date()` converts its arguments to first. */
  const CIntMin := -0x8000_0000
  const CIntMax := 0x7fff_ffff

  predicate FitsCInt(n: int) { CIntMin <= n <= CIntMax }

  /** `date(year, month, day)`: an argument beyond a C int raises
      OverflowError, a date outside the calendar raises ValueError. */
  function MakeDate(year: int, month: int, day: int): Result<CalendarDate>
  {
    if !(FitsCInt(year) && FitsCInt(month) && FitsCInt(day)) then Err(OverflowError)
    else if IsValid(Date(year, month, day)) then Ok(Date(year, month, day))
    else Err(ValueError)
  }

  /** `date.toordinal()`: 1 January of year 1 is day 1. */
  function Ordinal(d: CalendarDate): int
  {
    DaysBeforeYear(d.year) + DaysBeforeMonth(d.year, d.month) + d.day
  }

  /** The day number of the Monday that starts ISO week 1 of year `y`. */
  function IsoWeek1Monday(y: int): int
  {
    var firstDay := DaysBeforeYear(y) + 1;
    var firstWeekday := (firstDay + 6) % 7;   // Monday is 0
    var monday := firstDay - firstWeekday;
    if firstWeekday > 3 then monday + 7 else monday
  }

  /** The named tuple `isocalendar()` returns. */
  datatype IsoDate = IsoDate(year: int, week: int, weekday: int)

  /** `date.isocalendar()`. Dafny's `/` and `%` by 7 agree with Python's
      `divmod` here because the divisor is positive. */
  function IsoCalendar(d: CalendarDate): IsoDate
  {
    IsoWeekOf(Ordinal(d), d.year)
  }

  /** The ISO week date of day number `today` in calendar year `y`. */
  function IsoWeekOf(today: int, y: int): IsoDate
  {
    WeekDate(today, y, IsoWeek1Monday(y - 1), IsoWeek1Monday(y), IsoWeek1Monday(y + 1))
  }

  /** The week date of day `today` of calendar year `y`, given the Mondays
      that start week 1 of years y - 1, y and y + 1. */
  function WeekDate(today: int, y: int, prev: int, cur: int, next: int): IsoDate
  {
    var week, day := (today - cur) / 7, (today - cur) % 7;
    if week < 0 then
      IsoDate(y - 1, (today - prev) / 7 + 1, (today - prev) % 7 + 1)
    else if week >= 52 && today >= next then
      IsoDate(y + 1, 1, day + 1)
    else
      IsoDate(y, week + 1, day + 1)
  }

  // ---------------------------------------------------------------- lemmas

  /** Consecutive years start 365 or 366 days apart. */
  lemma DaysBeforeYearStep(y: int)
    ensures DaysBeforeYear(y + 1) == DaysBeforeYear(y) + DaysInYear(y)
  {
    DivStep(y, 4);
    DivStep(y, 100);
    DivStep(y, 400);
  }

  lemma DivStep(y: int, k: int)
    requires k == 4 || k == 100 || k == 400
    ensures y / k - (y - 1) / k == if y % k == 0 then 1 else 0
  {
  }

  /** Every valid date lies inside its own year. */
  lemma DayOfYear(d: CalendarDate)
    ensures 1 <= DaysBeforeMonth(d.year, d.month) + d.day <= DaysInYear(d.year)
  {
  }

  /** ISO week 1 starts on a Monday no more than three days from 1 January,
      and it is the week that contains 4 January. */
  lemma Week1Monday(y: int)
    ensures (IsoWeek1Monday(y) + 6) % 7 == 0
    ensures DaysBeforeYear(y) + 1 - 3 <= IsoWeek1Monday(y) <= DaysBeforeYear(y) + 1 + 3
    ensures IsoWeek1Monday(y) <= DaysBeforeYear(y) + 4 < IsoWeek1Monday(y) + 7
  {
    MondayOfWeek(DaysBeforeYear(y) + 1);
  }

  /** The Monday `IsoWeek1Monday` picks for the week of day `first`, on a
      plain day number. */
  lemma MondayOfWeek(first: int)
    ensures var w := (first + 6) % 7;
      var m := if w > 3 then first - w + 7 else first - w;
      && (m + 6) % 7 == 0 && first - 3 <= m <= first + 3 && m <= first + 3 < m + 7
  {
    var w := (first + 6) % 7;
    assert first + 6 == 7 * ((first + 6) / 7) + w;
  }

  /** ISO years have 52 or 53 weeks. */
  lemma IsoYearLength(y: int)
    ensures (IsoWeek1Monday(y) + 6) % 7 == 0 && (IsoWeek1Monday(y + 1) + 6) % 7 == 0
    ensures IsoWeek1Monday(y + 1) - IsoWeek1Monday(y) == 7 * 52
         || IsoWeek1Monday(y + 1) - IsoWeek1Monday(y) == 7 * 53
  {
    DaysBeforeYearStep(y);
    Week1Monday(y);
    Week1Monday(y + 1);
    var a, b := IsoWeek1Monday(y), IsoWeek1Monday(y + 1);
    assert a == 7 * ((a + 6) / 7) - 6;
    assert b == 7 * ((b + 6) / 7) - 6;
    var q := (b + 6) / 7 - (a + 6) / 7;
    assert b - a == 7 * q;
  }

  /** `isocalendar()` returns an ISO 8601 week date (section 4.1.4 of
      ISO 8601:2004): a week between 1 and 53, a weekday between 1 (Monday)
      and 7 (Sunday) that is the date's own weekday, and an ISO year at most
      one away from the calendar year, such that counting the weeks and days
      from the Monday of that year's week 1 lands on the date itself; the
      date falls before the Monday of the following ISO year's week 1, so the
      week belongs to the ISO year named. */
  lemma IsoCalendarSound(d: CalendarDate)
    ensures var iso := IsoCalendar(d);
      && 1 <= iso.week <= 53 && 1 <= iso.weekday <= 7
      && d.year - 1 <= iso.year <= d.year + 1
      && IsoWeek1Monday(iso.year) + 7 * (iso.week - 1) + (iso.weekday - 1) == Ordinal(d)
      && (iso.year == d.year - 1 ==> Ordinal(d) < IsoWeek1Monday(d.year))
      && (iso.year == d.year ==> Ordinal(d) < IsoWeek1Monday(d.year + 1))
      && (iso.year == d.year + 1 ==> Ordinal(d) < IsoWeek1Monday(d.year + 2))
      && iso.weekday == (Ordinal(d) + 6) % 7 + 1
  {
    YearBounds(d);
    IsoWeekOfDay(Ordinal(d), d.year);
  }

  /** The same facts for any day number `today` near calendar year `y`. */
  lemma IsoWeekOfDay(today: int, y: int)
    requires IsoWeek1Monday(y) - 3 <= today <= IsoWeek1Monday(y + 1) + 2
    ensures var iso := IsoWeekOf(today, y);
      && 1 <= iso.week <= 53 && 1 <= iso.weekday <= 7
      && y - 1 <= iso.year <= y + 1
      && IsoWeek1Monday(iso.year) + 7 * (iso.week - 1) + (iso.weekday - 1) == today
      && (iso.year == y - 1 ==> today < IsoWeek1Monday(y))
      && (iso.year == y ==> today < IsoWeek1Monday(y + 1))
      && (iso.year == y + 1 ==> today < IsoWeek1Monday(y + 2))
      && iso.weekday == (today + 6) % 7 + 1
  {
    IsoWeekCount(today, y);
    IsoWeekYear(today, y);
  }

  /** Week, weekday and the Monday they count from. */
  lemma IsoWeekCount(today: int, y: int)
    requires IsoWeek1Monday(y) - 3 <= today <= IsoWeek1Monday(y + 1) + 2
    ensures var iso := IsoWeekOf(today, y);
      && 1 <= iso.week <= 53 && 1 <= iso.weekday <= 7
      && y - 1 <= iso.year <= y + 1
      && IsoWeek1Monday(iso.year) + 7 * (iso.week - 1) + (iso.weekday - 1) == today
      && iso.weekday == (today + 6) % 7 + 1
  {
    var prev, cur, next := IsoWeek1Monday(y - 1), IsoWeek1Monday(y), IsoWeek1Monday(y + 1);
    IsoYearLength(y - 1);
    IsoYearLength(y);
    WeekDateSound(today, y, prev, cur, next);
    SelectedMonday(y, IsoWeekOf(today, y).year);
  }

  /** The day falls before the Monday that starts the ISO year after the one named. */
  lemma IsoWeekYear(today: int, y: int)
    requires today <= IsoWeek1Monday(y + 1) + 2
    ensures var iso := IsoWeekOf(today, y);
      && (iso.year == y - 1 ==> today < IsoWeek1Monday(y))
      && (iso.year == y ==> today < IsoWeek1Monday(y + 1))
      && (iso.year == y + 1 ==> today < IsoWeek1Monday(y + 2))
  {
    IsoYearSpan(y);
    IsoYearSpan(y + 1);
    WeekDateBefore(IsoWeekOf(today, y), today, y, IsoWeek1Monday(y - 1), IsoWeek1Monday(y), IsoWeek1Monday(y + 1), IsoWeek1Monday(y + 2));
  }

  /** The week-1 Monday of an ISO year next to `y` is one of the three the
      week arithmetic is given. */
  lemma SelectedMonday(y: int, k: int)
    requires y - 1 <= k <= y + 1
    ensures IsoWeek1Monday(k)
      == if k == y - 1 then IsoWeek1Monday(y - 1) else if k == y then IsoWeek1Monday(y) else IsoWeek1Monday(y + 1)
  {
  }

  /** An ISO year is at least 52 weeks long. */
  lemma IsoYearSpan(y: int)
    ensures IsoWeek1Monday(y + 1) - IsoWeek1Monday(y) >= 7 * 52
  {
    IsoYearLength(y);
  }

  /** The year `WeekDate` picks: before `cur` it is the previous year, from
      `next` on the following one, and otherwise `y` itself. */
  lemma WeekDateBefore(iso: IsoDate, today: int, y: int, prev: int, cur: int, next: int, after: int)
    requires iso == WeekDate(today, y, prev, cur, next)
    requires next - cur >= 7 * 52 && after - next >= 7 * 52
    requires today <= next + 2
    ensures && (iso.year == y - 1 ==> today < cur)
      && (iso.year == y ==> today < next)
      && (iso.year == y + 1 ==> today < after)
  {
  }

  /** The week arithmetic of `isocalendar()`, on plain day numbers. */
  lemma WeekDateSound(today: int, y: int, prev: int, cur: int, next: int)
    requires (prev + 6) % 7 == 0 && (cur + 6) % 7 == 0 && (next + 6) % 7 == 0
    requires cur - prev == 7 * 52 || cur - prev == 7 * 53
    requires next - cur == 7 * 52 || next - cur == 7 * 53
    requires cur - 3 <= today <= next + 2
    ensures var iso := WeekDate(today, y, prev, cur, next);
      var monday := if iso.year == y - 1 then prev else if iso.year == y then cur else next;
      && 1 <= iso.week <= 53 && 1 <= iso.weekday <= 7
      && y - 1 <= iso.year <= y + 1
      && monday + 7 * (iso.week - 1) + (iso.weekday - 1) == today
      && iso.weekday == (today + 6) % 7 + 1
  {
    if (today - cur) / 7 < 0 {
      WeekCount(today, prev);
    } else if (today - cur) / 7 >= 52 && today >= next {
      WeekCount(today, cur);
      WeekCount(today, next);
    } else {
      WeekCount(today, cur);
    }
  }

  /** A date's day number lies between three days before its year's week 1
      and two days after the next year's week 1 starts. */
  lemma YearBounds(d: CalendarDate)
    ensures IsoWeek1Monday(d.year) - 3 <= Ordinal(d) <= IsoWeek1Monday(d.year + 1) + 2
  {
    DaysBeforeYearStep(d.year);
    Week1Monday(d.year);
    Week1Monday(d.year + 1);
    DayOfYear(d);
  }

  /** Counting whole weeks and days from a Monday. */
  lemma WeekCount(today: int, monday: int)
    requires (monday + 6) % 7 == 0 && 0 <= today - monday
    ensures var e := today - monday;
      && 0 <= e / 7 && (e < 7 * 53 ==> e / 7 < 53)
      && monday + 7 * (e / 7) + e % 7 == today
      && e % 7 == (today + 6) % 7
  {
    var m := (monday + 6) / 7;
    assert monday + 6 == 7 * m;
    assert today + 6 == (today - monday) + 7 * m;
  }
}
