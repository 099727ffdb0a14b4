/**
  Calendar dates as the season windows use them: Gregorian year, month, day.
  `NextDay` is `advance(1, 'day')`, and a date filter keeps the dates in the
  half-open range [start, end).
 */
module Calendar {

  datatype Date = Date(year: int, month: int, day: int)

  /** Gregorian leap years. */
  predicate Leap(y: int)
  {
    (y % 4 == 0 && y % 100 != 0) || y % 400 == 0
  }

  function DaysInMonth(y: int, m: int): (n: int)
    requires 1 <= m <= 12
    ensures 28 <= n <= 31
    ensures n == 29 <==> m == 2 && Leap(y)
  {
    if m == 2 then (if Leap(y) then 29 else 28)
    else if m == 4 || m == 6 || m == 9 || m == 11 then 30
    else 31
  }

  predicate Valid(d: Date)
  {
    1 <= d.month <= 12 && 1 <= d.day <= DaysInMonth(d.year, d.month)
  }

  /** a is strictly earlier than b. */
  predicate Before(a: Date, b: Date)
  {
    a.year < b.year || (a.year == b.year && (a.month < b.month || (a.month == b.month && a.day < b.day)))
  }

  /** `advance(1, 'day')`: the next valid date, rolling over month and year ends. */
  function NextDay(d: Date): (r: Date)
    requires Valid(d)
    ensures Valid(r) && Before(d, r)
  {
    if d.day < DaysInMonth(d.year, d.month) then d.(day := d.day + 1)
    else if d.month < 12 then Date(d.year, d.month + 1, 1)
    else Date(d.year + 1, 1, 1)
  }

  /** No valid date lies strictly between d and its next day. */
  lemma NextDayIsSuccessor(d: Date, x: Date)
    requires Valid(d) && Valid(x)
    ensures Before(x, NextDay(d)) <==> !Before(d, x)
  {
  }

  /** `filterDate(start, end)`: start is included, end is not. */
  predicate InRange(x: Date, start: Date, end: Date)
  {
    !Before(x, start) && Before(x, end)
  }

  /**
    Filtering on [first, NextDay(last)) keeps exactly the dates from first to
    last, both included: advancing the end by one day makes the inclusive
    window's last day count.
   */
  lemma InclusiveWindow(first: Date, last: Date, x: Date)
    requires Valid(last) && Valid(x)
    ensures InRange(x, first, NextDay(last)) <==> !Before(x, first) && !Before(last, x)
    ensures !Before(last, first) ==> InRange(first, first, NextDay(last)) && InRange(last, first, NextDay(last))
  {
    NextDayIsSuccessor(last, x);
  }
}
