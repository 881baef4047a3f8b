/**
 * Calendar dates without time zones, and the month window the handlers build
 * with `new Date(year, month - 1, 1)` and `new Date(year, month, 0, 23, 59, 59)`.
 * JavaScript normalises an out-of-range month index (month 13 of 2024 is
 * January 2025) and reads day 0 as the last day of the previous month; both
 * are modelled here.
 */
module Calendar {
  import opened Wrappers

  const MsPerDay: int := 86_400_000

  /** 23:59:59 as milliseconds into the day: the end the handlers give the window. */
  const EndOfDayAsWritten: int := 86_399_000

  /** A calendar instant: year, month 1 to 12, day of month, milliseconds into the day. */
  datatype Date = Date(year: int, month: int, day: int, ms: int)

  /** The Gregorian leap-year rule. */
  predicate IsLeapYear(y: int)
  {
    (y % 4 == 0 && y % 100 != 0) || y % 400 == 0
  }

  function DaysInMonth(y: int, m: int): (n: int)
    requires 1 <= m <= 12
    ensures 28 <= n <= 31
    ensures n == 29 <==> m == 2 && IsLeapYear(y)
    ensures n == 28 <==> m == 2 && !IsLeapYear(y)
    ensures n == 30 <==> m == 4 || m == 6 || m == 9 || m == 11
  {
    if m == 2 then (if IsLeapYear(y) then 29 else 28)
    else if m == 4 || m == 6 || m == 9 || m == 11 then 30
    else 31
  }

  predicate ValidDate(d: Date)
  {
    && 1 <= d.month <= 12
    && 1 <= d.day <= DaysInMonth(d.year, d.month)
    && 0 <= d.ms < MsPerDay
  }

  /** Chronological order: lexicographic on (year, month, day, ms). */
  predicate DateLe(a: Date, b: Date)
  {
    || a.year < b.year
    || (a.year == b.year && a.month < b.month)
    || (a.year == b.year && a.month == b.month && a.day < b.day)
    || (a.year == b.year && a.month == b.month && a.day == b.day && a.ms <= b.ms)
  }

  lemma DateLeTotal(a: Date, b: Date, c: Date)
    ensures DateLe(a, b) || DateLe(b, a)
    ensures DateLe(a, b) && DateLe(b, c) ==> DateLe(a, c)
    ensures DateLe(a, b) && DateLe(b, a) ==> a == b
  {
  }

  /** The months since year 0 of the month that holds `d`. */
  function MonthNumber(d: Date): int
  {
    d.year * 12 + (d.month - 1)
  }

  /** A month number determines the year and the month. */
  lemma MonthNumberInjective(a: Date, b: Date)
    requires 1 <= a.month <= 12 && 1 <= b.month <= 12
    requires MonthNumber(a) == MonthNumber(b)
    ensures a.year == b.year && a.month == b.month
  {
  }

  /**
   * `new Date(y, mi, 1)` for a year `y` already remapped by `ConstructorYear`:
   * the first instant of month index `mi` (0-based), carried into neighbouring
   * years when `mi` is outside 0 to 11.
   */
  function FirstOfMonth(y: int, mi: int): (d: Date)
    ensures ValidDate(d) && d.day == 1 && d.ms == 0
    ensures MonthNumber(d) == y * 12 + mi
  {
    Date(y + mi / 12, mi % 12 + 1, 1, 0)
  }

  /** The day before `d`, at the same time of day. */
  function PreviousDay(d: Date): (r: Date)
    requires ValidDate(d)
    ensures ValidDate(r) && r.ms == d.ms
    ensures DateLe(r, d) && r != d
    ensures d.day > 1 ==> r.year == d.year && r.month == d.month && r.day == d.day - 1
    ensures d.day == 1 ==> MonthNumber(r) == MonthNumber(d) - 1 && r.day == DaysInMonth(r.year, r.month)
  {
    if d.day > 1 then d.(day := d.day - 1)
    else if d.month == 1 then Date(d.year - 1, 12, 31, d.ms)
    else Date(d.year, d.month - 1, DaysInMonth(d.year, d.month - 1), d.ms)
  }

  /** `new Date(y, mi, 0, ...)`: day zero of month index `mi` is the day before its first day. */
  function DayZero(y: int, mi: int, ms: int): (d: Date)
    requires 0 <= ms < MsPerDay
    ensures ValidDate(d) && d.ms == ms
  {
    PreviousDay(FirstOfMonth(y, mi)).(ms := ms)
  }

  /**
   * The "day 0 of next month" idiom: `new Date(y, m, 0)` is the last day of the
   * month that `new Date(y, m - 1, 1)` starts, for every month value `m`.
   */
  lemma DayZeroIsLastDay(y: int, m: int, ms: int)
    requires 0 <= ms < MsPerDay
    ensures var first, last := FirstOfMonth(y, m - 1), DayZero(y, m, ms);
      && last.year == first.year && last.month == first.month
      && last.day == DaysInMonth(first.year, first.month)
  {
    var first, last := FirstOfMonth(y, m - 1), DayZero(y, m, ms);
    assert MonthNumber(last) == MonthNumber(FirstOfMonth(y, m)) - 1;
    MonthNumberInjective(first, last);
  }

  /** An inclusive interval of instants, as a `{$gte: start, $lte: end}` filter. */
  datatype Window = Window(start: Date, end: Date)

  predicate InWindow(d: Date, w: Window)
  {
    DateLe(w.start, d) && DateLe(d, w.end)
  }

  /** The Date constructor reads a year from 0 to 99 as 1900 to 1999. */
  function ConstructorYear(y: int): (r: int)
    ensures 0 <= y <= 99 ==> r == 1900 + y
    ensures !(0 <= y <= 99) ==> r == y
  {
    if 0 <= y <= 99 then 1900 + y else y
  }

  /** The window as the handlers build it: the first day 00:00 to the last day 23:59:59.000. */
  function MonthWindowAsWritten(y: int, m: int): Window
  {
    Window(FirstOfMonth(ConstructorYear(y), m - 1), DayZero(ConstructorYear(y), m, EndOfDayAsWritten))
  }

  /** The whole month: the same start, and the last day up to 23:59:59.999. */
  function MonthWindow(y: int, m: int): Window
  {
    Window(FirstOfMonth(ConstructorYear(y), m - 1), DayZero(ConstructorYear(y), m, MsPerDay - 1))
  }

  /** An instant lies in the month window exactly when it lies in the requested (normalised) month. */
  lemma InMonthWindow(d: Date, y: int, m: int)
    requires ValidDate(d)
    ensures InWindow(d, MonthWindow(y, m)) <==> MonthNumber(d) == ConstructorYear(y) * 12 + m - 1
  {
    var w := MonthWindow(y, m);
    DayZeroIsLastDay(ConstructorYear(y), m, MsPerDay - 1);
    if MonthNumber(d) == ConstructorYear(y) * 12 + m - 1 {
      MonthNumberInjective(d, w.start);
    }
  }

  /** For a month value from 1 to 12 the window is that month of that (constructor) year. */
  lemma InCalendarMonth(d: Date, y: int, m: int)
    requires ValidDate(d) && 1 <= m <= 12
    ensures InWindow(d, MonthWindow(y, m)) <==> d.year == ConstructorYear(y) && d.month == m
  {
    InMonthWindow(d, y, m);
    if MonthNumber(d) == ConstructorYear(y) * 12 + m - 1 {
      MonthNumberInjective(d, Date(ConstructorYear(y), m, 1, 0));
    }
  }

  /**
   * The window as written leaves out the last 999 milliseconds of the month:
   * an instant is in it iff it is in the month and not after 23:59:59.000 of the last day.
   */
  lemma InMonthWindowAsWritten(d: Date, y: int, m: int)
    requires ValidDate(d)
    ensures InWindow(d, MonthWindowAsWritten(y, m)) <==>
      && InWindow(d, MonthWindow(y, m))
      && !(d.day == DaysInMonth(d.year, d.month) && d.ms > EndOfDayAsWritten)
  {
    InMonthWindow(d, y, m);
    DayZeroIsLastDay(ConstructorYear(y), m, MsPerDay - 1);
    DayZeroIsLastDay(ConstructorYear(y), m, EndOfDayAsWritten);
  }

  /** An expense at 23:59:59.500 on 31 March 2024 belongs to March but not to the window as written. */
  lemma AsWrittenMissesLastSecond()
    ensures var d := Date(2024, 3, 31, 86_399_500);
      && ValidDate(d)
      && InWindow(d, MonthWindow(2024, 3))
      && !InWindow(d, MonthWindowAsWritten(2024, 3))
  {
    var d := Date(2024, 3, 31, 86_399_500);
    InMonthWindowAsWritten(d, 2024, 3);
    InCalendarMonth(d, 2024, 3);
  }

  /** `parseInt(q) || fallback`: an unparsable value (None) or 0 gives the fallback. */
  function ParsedOr(q: Option<int>, fallback: int): (r: int)
    ensures q.Some? && q.value != 0 ==> r == q.value
    ensures q.None? || q.value == 0 ==> r == fallback
  {
    if q.Some? && q.value != 0 then q.value else fallback
  }
}
