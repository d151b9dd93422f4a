/**
 Calendar dates as the `dteday` column holds them once parsed: a year, a
 month and a day of the proleptic Gregorian calendar, ordered
 chronologically.
 */
module Calendar {

  datatype Date = Date(year: int, month: int, day: int)

  /** A month number, 1 (January) to 12 (December). */
  type Month = m: int | 1 <= m <= 12 witness 1

  predicate IsLeapYear(y: int)
  {
    (y % 4 == 0 && y % 100 != 0) || y % 400 == 0
  }

  function DaysInMonth(y: int, m: Month): (n: int)
    ensures 28 <= n <= 31
    ensures n == 29 <==> m == 2 && IsLeapYear(y)
    ensures m == 2 && !IsLeapYear(y) ==> n == 28
    ensures n == 30 <==> m in {4, 6, 9, 11}
    ensures n == 31 <==> m in {1, 3, 5, 7, 8, 10, 12}
  {
    if m == 2 then (if IsLeapYear(y) then 29 else 28)
    else if m == 4 || m == 6 || m == 9 || m == 11 then 30
    else 31
  }

  predicate IsValidDate(d: Date)
  {
    1 <= d.month <= 12 && 1 <= d.day <= DaysInMonth(d.year, d.month)
  }

  /** A date that exists in the calendar: what parsing a date string yields. */
  type CalendarDate = d: Date | IsValidDate(d) witness Date(2011, 1, 1)

  /** The month number of a date (`.dt.month`). */
  function MonthOf(d: CalendarDate): Month
  {
    d.month
  }

  /** `a` is strictly earlier than `b`. */
  predicate Before(a: CalendarDate, b: CalendarDate)
  {
    || a.year < b.year
    || (a.year == b.year && a.month < b.month)
    || (a.year == b.year && a.month == b.month && a.day < b.day)
  }

  /** `a` is the same day as `b` or earlier. */
  predicate AtOrBefore(a: CalendarDate, b: CalendarDate)
  {
    a == b || Before(a, b)
  }

  /** Chronological order is a strict total order on calendar dates. */
  lemma BeforeIsStrictTotalOrder(a: CalendarDate, b: CalendarDate, c: CalendarDate)
    ensures !Before(a, a)
    ensures Before(a, b) && Before(b, c) ==> Before(a, c)
    ensures a != b ==> Before(a, b) || Before(b, a)
    ensures AtOrBefore(a, b) <==> !Before(b, a)
  {
  }
}
