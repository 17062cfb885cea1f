/** The per-entry duration: calendar subtraction of two dates field by field,
    borrowing the length of the month before the end date's month when the
    days come out negative, and twelve months when the months do. */
module Durations {
  import opened Calendar

  datatype Duration = Duration(years: int, months: int, days: int)

  const Zero := Duration(0, 0, 0)

  /** The year `new Date(year, monthIndex, day)` uses: the legacy constructor
      reads the years 0 to 99 as 1900 to 1999. */
  function ConstructorYear(y: int): int {
    if 0 <= y <= 99 then 1900 + y else y
  }

  /** `new Date(y, m - 1, 0).getDate()` for a 1-based month m: day 0 of month m
      is the last day of the month before it, December of the prior year for January. */
  function PreviousMonthLength(y: int, m: int): (n: int)
    requires 1 <= m <= 12
    ensures 28 <= n <= 31
    ensures m == 1 ==> n == 31
    ensures y != 0 && m > 1 ==> n == DaysInMonth(y, m - 1)
  {
    if m == 1 then DaysInMonth(ConstructorYear(y) - 1, 12)
    else DaysInMonth(ConstructorYear(y), m - 1)
  }

  /** Whole months from the start month to the end month. */
  function MonthSpan(start: Date, end: Date): int {
    (end.year - start.year) * 12 + (end.month - start.month)
  }

  /** 1 when the end day falls before the start day within the month. */
  function DayBorrow(start: Date, end: Date): int {
    if end.day < start.day then 1 else 0
  }

  /** The per-entry duration (years, months, days) from start to end. */
  function CalendarDifference(start: Date, end: Date): (d: Duration)
    requires ValidDate(start) && ValidDate(end)
    ensures 0 <= d.months <= 11
    ensures d.years * 12 + d.months == MonthSpan(start, end) - DayBorrow(start, end)
    ensures end.day >= start.day ==> d.days == end.day - start.day
    ensures end.day < start.day ==>
              d.days == end.day - start.day + PreviousMonthLength(end.year, end.month)
              && d.days < PreviousMonthLength(end.year, end.month)
    ensures -2 <= d.days <= 30
    ensures OnOrBefore(start, end) ==> d.years >= 0
    ensures start == end ==> d == Zero
  {
    var years := end.year - start.year;
    var months := end.month - start.month;
    var days := end.day - start.day;
    var borrowed :=
      if days < 0 then (months - 1, days + PreviousMonthLength(end.year, end.month))
      else (months, days);
    if borrowed.0 < 0 then Duration(years - 1, borrowed.0 + 12, borrowed.1)
    else Duration(years, borrowed.0, borrowed.1)
  }

  /** The days a borrow adds: the previous month's length, or nothing. */
  function BorrowedDays(start: Date, end: Date): int
    requires 1 <= end.month <= 12
  {
    if end.day < start.day then PreviousMonthLength(end.year, end.month) else 0
  }

  /** A month count and a months field in 0..11 fix the years. */
  lemma MonthCountUnique(y1: int, m1: int, y2: int, m2: int)
    requires 0 <= m1 <= 11 && 0 <= m2 <= 11
    requires y1 * 12 + m1 == y2 * 12 + m2
    ensures y1 == y2 && m1 == m2
  {
  }

  /** The duration is the one triple with months in 0..11 whose month count
      is the month span less the day borrow and whose days are the end day
      minus the start day, plus the previous month's length on a borrow. */
  lemma DifferenceCharacterised(start: Date, end: Date, d: Duration)
    requires ValidDate(start) && ValidDate(end)
    ensures d == CalendarDifference(start, end) <==>
              0 <= d.months <= 11
              && d.years * 12 + d.months == MonthSpan(start, end) - DayBorrow(start, end)
              && d.days == end.day - start.day + BorrowedDays(start, end)
  {
    var c := CalendarDifference(start, end);
    if 0 <= d.months <= 11 && d.years * 12 + d.months == MonthSpan(start, end) - DayBorrow(start, end) {
      MonthCountUnique(d.years, d.months, c.years, c.months);
    }
  }

  /** Apart from the year-0 quirk of the legacy date constructor, the duration
      is zero exactly when the two dates are the same. */
  lemma ZeroOnlyForSameDate(start: Date, end: Date)
    requires ValidDate(start) && ValidDate(end)
    requires end.year != 0
    ensures CalendarDifference(start, end) == Zero <==> start == end
  {
  }

  /** Under the legacy year mapping, February of year 0 borrows 28 days
      although the Gregorian year 0 is a leap year. */
  lemma YearZeroBorrowsTwentyEight()
    ensures PreviousMonthLength(0, 3) == 28 && DaysInMonth(0, 2) == 29
    ensures CalendarDifference(Date(0, 2, 29), Date(0, 3, 1)) == Zero
  {
  }

  /** 2020-01-15 to 2022-03-20: two years, two months and five days. */
  lemma AcmeExample()
    ensures CalendarDifference(Date(2020, 1, 15), Date(2022, 3, 20)) == Duration(2, 2, 5)
  {
  }

  /** January 31 to March 1 borrows February's length: the days come out
      negative, -1 in a leap year and -2 otherwise. */
  lemma EndOfMonthBorrowGoesNegative()
    ensures CalendarDifference(Date(2024, 1, 31), Date(2024, 3, 1)) == Duration(0, 1, -1)
    ensures CalendarDifference(Date(2023, 1, 31), Date(2023, 3, 1)) == Duration(0, 1, -2)
  {
  }

  /** A borrow from a 31-day month and from a 28-day month give different days
      for the same day-of-month pair. */
  lemma BorrowFollowsCalendar()
    ensures CalendarDifference(Date(2023, 1, 20), Date(2023, 2, 10)).days == 21
    ensures CalendarDifference(Date(2023, 2, 20), Date(2023, 3, 10)).days == 18
  {
  }
}
