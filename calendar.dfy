/** Calendar dates as the date input widget delivers them ("YYYY-MM-DD",
    already decoded into a year, a 1-based month and a day), the Gregorian
    month lengths, and the day-number timeline on which the calculator
    compares two dates. */
module Calendar {

  datatype Date = Date(year: int, month: int, day: int)

  /** Gregorian leap-year rule: divisible by 4, except centuries not divisible by 400. */
  predicate IsLeapYear(y: int) {
    y % 4 == 0 && (y % 100 != 0 || y % 400 == 0)
  }

  function DaysInMonth(y: int, m: int): (n: int)
    requires 1 <= m <= 12
    ensures 28 <= n <= 31
    ensures m == 2 ==> (n == 29 <==> IsLeapYear(y)) && (n == 28 <==> !IsLeapYear(y))
    ensures m != 2 ==> (n == 30 <==> m in {4, 6, 9, 11}) && (n == 31 <==> m in {1, 3, 5, 7, 8, 10, 12})
  {
    if m == 2 then (if IsLeapYear(y) then 29 else 28)
    else if m == 4 || m == 6 || m == 9 || m == 11 then 30
    else 31
  }

  function YearLength(y: int): int {
    if IsLeapYear(y) then 366 else 365
  }

  /** A date the four-digit "YYYY-MM-DD" format can denote and the calendar has. */
  predicate ValidDate(d: Date) {
    0 <= d.year <= 9999 && 1 <= d.month <= 12 && 1 <= d.day <= DaysInMonth(d.year, d.month)
  }

  /** Days from 0000-01-01 to the first of January of year y. */
  function DaysBeforeYear(y: nat): nat {
    if y == 0 then 0 else DaysBeforeYear(y - 1) + YearLength(y - 1)
  }

  /** Days from the first of January of year y to the first of month m. */
  function DaysBeforeMonth(y: int, m: int): (n: nat)
    requires 1 <= m <= 12
    ensures n + DaysInMonth(y, m) <= YearLength(y)
  {
    [0, 31, 59, 90, 120, 151, 181, 212, 243, 273, 304, 334][m - 1]
      + (if m > 2 && IsLeapYear(y) then 1 else 0)
  }

  /** Each month starts where the one before it ends, and December ends the
      year: the first of month m lies DaysBeforeMonth(y, m) whole days into
      the year. */
  lemma DaysBeforeMonthStep(y: int, m: int)
    requires 1 <= m <= 12
    ensures m < 12 ==> DaysBeforeMonth(y, m + 1) == DaysBeforeMonth(y, m) + DaysInMonth(y, m)
    ensures m == 12 ==> DaysBeforeMonth(y, m) + DaysInMonth(y, m) == YearLength(y)
    ensures m == 1 ==> DaysBeforeMonth(y, m) == 0
  {
  }

  /** The instant `new Date("YYYY-MM-DD")` denotes (UTC midnight), counted in
      whole days from 0000-01-01; comparing two dates with `>` compares these. */
  function DayNumber(d: Date): int
    requires ValidDate(d)
  {
    DaysBeforeYear(d.year) + DaysBeforeMonth(d.year, d.month) + d.day - 1
  }

  /** Calendar order: year first, then month, then day. */
  predicate OnOrBefore(a: Date, b: Date) {
    a.year < b.year
    || (a.year == b.year && (a.month < b.month || (a.month == b.month && a.day <= b.day)))
  }

  lemma {:induction false} DaysBeforeYearGrows(y1: nat, y2: nat)
    requires y1 < y2
    ensures DaysBeforeYear(y1) + YearLength(y1) <= DaysBeforeYear(y2)
  {
    if y1 + 1 < y2 {
      DaysBeforeYearGrows(y1, y2 - 1);
    }
  }

  lemma {:induction false} DaysBeforeMonthGrows(y: int, m1: int, m2: int)
    requires 1 <= m1 < m2 <= 12
    ensures DaysBeforeMonth(y, m1) + DaysInMonth(y, m1) <= DaysBeforeMonth(y, m2)
  {
    if m1 + 1 < m2 {
      DaysBeforeMonthGrows(y, m1, m2 - 1);
      assert DaysBeforeMonth(y, m2 - 1) + DaysInMonth(y, m2 - 1) <= DaysBeforeMonth(y, m2);
    }
  }

  /** A later date in calendar order is a later instant. */
  lemma EarlierDateSmallerDayNumber(a: Date, b: Date)
    requires ValidDate(a) && ValidDate(b)
    requires OnOrBefore(a, b) && a != b
    ensures DayNumber(a) < DayNumber(b)
  {
    if a.year < b.year {
      DaysBeforeYearGrows(a.year, b.year);
    } else if a.month < b.month {
      DaysBeforeMonthGrows(a.year, a.month, b.month);
    }
  }

  /** Comparing the instants of two dates is comparing them in calendar
      order, and two dates denote the same instant only when they are equal. */
  lemma DayNumberOrder(a: Date, b: Date)
    requires ValidDate(a) && ValidDate(b)
    ensures DayNumber(a) <= DayNumber(b) <==> OnOrBefore(a, b)
    ensures DayNumber(a) == DayNumber(b) <==> a == b
  {
    if a != b {
      if OnOrBefore(a, b) {
        EarlierDateSmallerDayNumber(a, b);
      } else {
        EarlierDateSmallerDayNumber(b, a);
      }
    }
  }
}
