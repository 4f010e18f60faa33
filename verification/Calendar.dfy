/**
 The Gregorian calendar in UTC: which day a date is, counted from 1 January 1970, and how long a month is. It ties the
 instants the rest of the model counts in to the dates people mean.
 */
module Calendar {
  import Zone

  /** A UTC calendar date. */
  datatype Day = Day(year: int, month: int, day: int)

  predicate Leap(year: int) {
    year % 4 == 0 && (year % 100 != 0 || year % 400 == 0)
  }

  /** Leap years from year 1 up to the one before `year`. */
  function LeapsBefore(year: int): int {
    (year - 1) / 4 - (year - 1) / 100 + (year - 1) / 400
  }

  /** Days of the year before the first of a month; month 13 is the next January. */
  function DaysBefore(year: int, month: int): int {
    (367 * month - 362) / 12 - if month <= 2 then 0 else if Leap(year) then 1 else 2
  }

  function DayNumber(d: Day): int {
    365 * (d.year - 1970) + LeapsBefore(d.year) - LeapsBefore(1970) + DaysBefore(d.year, d.month) + d.day - 1
  }

  /** The day before the first of the next month, as time.Date reads day 0. */
  function DaysInMonth(d: Day): int {
    DaysBefore(d.year, d.month + 1) - DaysBefore(d.year, d.month)
  }

  const COMMON_YEAR: seq<int> := [31, 28, 31, 30, 31, 30, 31, 31, 30, 31, 30, 31]

  /** Thirty days hath September. */
  lemma MonthLengths(d: Day)
    requires 1 <= d.month <= 12
    ensures DaysInMonth(d) == COMMON_YEAR[d.month - 1] + if d.month == 2 && Leap(d.year) then 1 else 0
  {
  }

  /** From the first of a month to the first of the next, over the end of a year too. */
  lemma MonthsFollow(d: Day)
    requires 1 <= d.month <= 12
    ensures var next := if d.month == 12 then Day(d.year + 1, 1, 1) else Day(d.year, d.month + 1, 1);
            DayNumber(next) == DayNumber(d.(day := 1)) + DaysInMonth(d)
  {
    if d.month == 12 {
      YearsFollow(d.year);
    }
  }

  lemma YearsFollow(year: int)
    ensures LeapsBefore(year + 1) == LeapsBefore(year) + if Leap(year) then 1 else 0
  {
    Crosses(year, 4);
    Crosses(year, 100);
    Crosses(year, 400);
    Centuries(year);
  }

  lemma Crosses(year: int, n: int)
    requires n == 4 || n == 100 || n == 400
    ensures year / n == (year - 1) / n + if year % n == 0 then 1 else 0
  {
  }

  lemma Centuries(year: int)
    ensures year % 400 == 0 ==> year % 100 == 0
    ensures year % 100 == 0 ==> year % 4 == 0
  {
    Multiple(4 * (year / 400), 100);
    Multiple(25 * (year / 100), 4);
  }

  lemma Multiple(m: int, n: int)
    requires n == 4 || n == 100
    ensures n * m % n == 0
  {
  }

  /** The epoch, time.Time's zero value, and a Monday, as instants. */
  lemma Landmarks()
    ensures DayNumber(Day(1970, 1, 1)) == 0
    ensures DayNumber(Day(1, 1, 1)) * Zone.DAY == -62_135_596_800_000_000_000
    ensures DayNumber(Day(2026, 1, 5)) * Zone.DAY == 1_767_571_200_000_000_000
  {
  }
}
