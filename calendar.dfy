/**
 * Calendar dates as the JavaScript `Date` object and date-fns see them,
 * reduced to (year, month, day) on the proleptic Gregorian calendar, with
 * the leap-year rule of Appendix C of RFC 3339. Time of day only matters
 * for comparisons against "now", so an `Instant` adds the milliseconds
 * since local midnight; time zones are not modelled.
 */
module Calendar {

  /** A calendar date; `month` is 1..12 (not the 0-based JS month). */
  datatype Date = Date(year: int, month: int, day: int)

  /** A local date plus the milliseconds elapsed since its midnight. */
  datatype Instant = Instant(date: Date, msOfDay: int)

  const MsPerDay: int := 86_400_000

  predicate IsLeapYear(y: int)
  {
    y % 4 == 0 && (y % 100 != 0 || y % 400 == 0)
  }

  function DaysInMonth(y: int, m: int): (n: int)
    requires 1 <= m <= 12
    ensures 28 <= n <= 31
    ensures n == 31 <==> m in {1, 3, 5, 7, 8, 10, 12}
    ensures n == 30 <==> m in {4, 6, 9, 11}
    ensures m == 2 ==> (n == 29 <==> IsLeapYear(y))
  {
    if m == 2 then (if IsLeapYear(y) then 29 else 28)
    else if m == 4 || m == 6 || m == 9 || m == 11 then 30
    else 31
  }

  /** The date exists on the calendar. */
  predicate IsValidDate(d: Date)
  {
    1 <= d.month <= 12 && 1 <= d.day <= DaysInMonth(d.year, d.month)
  }

  predicate IsValidInstant(t: Instant)
  {
    IsValidDate(t.date) && 0 <= t.msOfDay < MsPerDay
  }

  /** Chronological order on dates: by year, then month, then day. */
  predicate Before(a: Date, b: Date)
  {
    a.year < b.year
    || (a.year == b.year && (a.month < b.month || (a.month == b.month && a.day < b.day)))
  }

  predicate AtOrBefore(a: Date, b: Date)
  {
    a == b || Before(a, b)
  }

  /** Chronological order on instants, the `<` of two JS `Date` objects. */
  predicate InstantBefore(a: Instant, b: Instant)
  {
    Before(a.date, b.date) || (a.date == b.date && a.msOfDay < b.msOfDay)
  }

  /** Local midnight of a date, as date-fns `parse` returns it. */
  function Midnight(d: Date): (t: Instant)
    ensures t.date == d && t.msOfDay == 0
  {
    Instant(d, 0)
  }

  /**
   * What the JS `Date` does with a day that runs past the end of its month
   * (as after `setFullYear` or `setMonth`): it carries into the next month.
   * Only an overflow of at most three days arises here.
   */
  function Normalize(y: int, m: int, d: int): (r: Date)
    requires 1 <= m <= 12 && 1 <= d <= 31
    ensures IsValidDate(r)
    ensures d <= DaysInMonth(y, m) ==> r == Date(y, m, d)
    ensures d > DaysInMonth(y, m) ==>
      r.day == d - DaysInMonth(y, m)
      && (if m == 12 then r.year == y + 1 && r.month == 1 else r.year == y && r.month == m + 1)
  {
    if d <= DaysInMonth(y, m) then Date(y, m, d)
    else if m == 12 then Date(y + 1, 1, d - 31)
    else Date(y, m + 1, d - DaysInMonth(y, m))
  }

  /** `date.setFullYear(y)`: same month and day in year `y`, with overflow carried. */
  function SetFullYear(date: Date, y: int): Date
    requires IsValidDate(date)
  {
    Normalize(y, date.month, date.day)
  }

  /** `date.setMonth(date.getMonth() + k)`: `k` calendar months later (or earlier), with overflow carried. */
  function AddMonths(date: Date, k: int): Date
    requires IsValidDate(date)
  {
    var t := date.month - 1 + k;
    Normalize(date.year + t / 12, t % 12 + 1, date.day)
  }

  /** Months since year 0, month 1: a date's position at month granularity. */
  function MonthIndex(d: Date): int
  {
    d.year * 12 + d.month - 1
  }

  lemma MonthIndexOrder(a: Date, b: Date)
    requires 1 <= a.month <= 12 && 1 <= b.month <= 12
    requires MonthIndex(a) < MonthIndex(b)
    ensures Before(a, b)
  {
    if a.year == b.year {
      assert a.month < b.month;
    }
  }

  /** The month `AddMonths` lands on is exactly `k` months on, and the day is kept when it fits. */
  lemma AddMonthsTarget(date: Date, k: int)
    requires IsValidDate(date)
    ensures IsValidDate(AddMonths(date, k))
    ensures var t := date.month - 1 + k;
      var y, m := date.year + t / 12, t % 12 + 1;
      y * 12 + m - 1 == MonthIndex(date) + k
      && (date.day <= DaysInMonth(y, m) ==> AddMonths(date, k) == Date(y, m, date.day))
      && (date.day > DaysInMonth(y, m) ==> MonthIndex(AddMonths(date, k)) == MonthIndex(date) + k + 1)
  {
    var t := date.month - 1 + k;
    assert t == (t / 12) * 12 + t % 12;
  }

  /** Extending by at least one month always moves the date strictly forward. */
  lemma AddMonthsAdvances(date: Date, k: int)
    requires IsValidDate(date) && k >= 1
    ensures Before(date, AddMonths(date, k))
  {
    AddMonthsTarget(date, k);
    MonthIndexOrder(date, AddMonths(date, k));
  }

  /** Moving a date back a whole number of years keeps it valid; only 29 February can change. */
  lemma SetFullYearSpec(date: Date, y: int)
    requires IsValidDate(date)
    ensures IsValidDate(SetFullYear(date, y))
    ensures !(date.month == 2 && date.day == 29) ==> SetFullYear(date, y) == Date(y, date.month, date.day)
    ensures date.month == 2 && date.day == 29 ==>
      SetFullYear(date, y) == (if IsLeapYear(y) then date.(year := y) else Date(y, 3, 1))
  {
  }

  /** 29 February 2020 moved back 120 years lands on 1 March 1900, since 1900 is not a leap year. */
  lemma LeapDayMovedBack()
    ensures SetFullYear(Date(2020, 2, 29), 1900) == Date(1900, 3, 1)
  {
  }

  /** 31 January plus one month overflows February into March. */
  lemma MonthEndOverflow()
    ensures AddMonths(Date(2023, 1, 31), 1) == Date(2023, 3, 3)
    ensures AddMonths(Date(2024, 1, 31), 1) == Date(2024, 3, 2)
    ensures AddMonths(Date(2024, 11, 30), 3) == Date(2025, 3, 2)
  {
  }
}
