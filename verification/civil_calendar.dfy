/** Proleptic Gregorian calendar dates: the arithmetic JavaScript's `Date` performs on local
    calendar fields (`getFullYear`, `getMonth`, `getDate`, `getDay`, `setDate`), for years from
    100 on and inside the `Date` range. The model's years are unbounded, and the constructor's
    reading of years 0 to 99 as 1900 + year is not part of it. */
module CivilCalendar {

  /** A calendar date. `month` runs 1..12; JavaScript's `getMonth()` is `month - 1`. */
  datatype Date = Date(year: int, month: int, day: int)

  predicate IsLeapYear(y: int) {
    (y % 4 == 0 && y % 100 != 0) || y % 400 == 0
  }

  function DaysInMonth(y: int, m: int): (n: int)
    requires 1 <= m <= 12
    ensures 28 <= n <= 31
    ensures m == 2 <==> n < 30
  {
    if m == 2 then (if IsLeapYear(y) then 29 else 28)
    else if m == 4 || m == 6 || m == 9 || m == 11 then 30
    else 31
  }

  predicate Valid(d: Date) {
    1 <= d.month <= 12 && 1 <= d.day <= DaysInMonth(d.year, d.month)
  }

  /** A date that exists. Every in-range JavaScript `Date` denotes one; not every such date,
      at the far ends of the time line, is a JavaScript `Date`. */
  type Day = d: Date | Valid(d) witness Date(1970, 1, 1)

  function YearLength(y: int): int {
    if IsLeapYear(y) then 366 else 365
  }

  /** Leap years among 1..x for x >= 0; floor division extends the count to x < 0. */
  function LeapsUpTo(x: int): int {
    x / 4 - x / 100 + x / 400
  }

  /** Days from 1970-01-01 to January 1st of year `y` (negative before 1970). */
  function DaysBeforeYear(y: int): int {
    365 * (y - 1970) + LeapsUpTo(y - 1) - LeapsUpTo(1969)
  }

  /** Days from January 1st to the first of month `m` of year `y`. */
  function DaysBeforeMonth(y: int, m: int): int
    requires 1 <= m <= 12
  {
    [0, 31, 59, 90, 120, 151, 181, 212, 243, 273, 304, 334][m - 1]
      + (if m > 2 && IsLeapYear(y) then 1 else 0)
  }

  /** Days since 1970-01-01: the date's position on the time line. */
  function DayNumber(d: Date): int
    requires 1 <= d.month <= 12
  {
    DaysBeforeYear(d.year) + DaysBeforeMonth(d.year, d.month) + d.day - 1
  }

  /** `Date.prototype.getDay()`: 0 = Sunday, 1 = Monday, ..., 6 = Saturday
      (1970-01-01 was a Thursday). */
  function Weekday(d: Date): (w: int)
    requires 1 <= d.month <= 12
    ensures 0 <= w < 7
  {
    (DayNumber(d) + 4) % 7
  }

  // ---------------------------------------------------------------- year and month steps

  lemma DivStep4(y: int)
    ensures y / 4 - (y - 1) / 4 == (if y % 4 == 0 then 1 else 0)
  {
  }

  lemma DivStep100(y: int)
    ensures y / 100 - (y - 1) / 100 == (if y % 100 == 0 then 1 else 0)
  {
  }

  lemma DivStep400(y: int)
    ensures y / 400 - (y - 1) / 400 == (if y % 400 == 0 then 1 else 0)
  {
  }

  /** Consecutive years are `YearLength` apart on the time line. */
  lemma DaysBeforeNextYear(y: int)
    ensures DaysBeforeYear(y + 1) == DaysBeforeYear(y) + YearLength(y)
  {
    DivStep4(y);
    DivStep100(y);
    DivStep400(y);
    assert y % 400 == 0 ==> y % 100 == 0 && y % 4 == 0;
    assert y % 100 == 0 ==> y % 4 == 0;
  }

  /** Years further apart are further apart on the time line. */
  lemma {:induction false} DaysBeforeYearGrows(y: int, y': int)
    requires y < y'
    ensures DaysBeforeYear(y) + YearLength(y) <= DaysBeforeYear(y')
    decreases y' - y
  {
    DaysBeforeNextYear(y);
    if y + 1 < y' {
      DaysBeforeYearGrows(y + 1, y');
    }
  }

  lemma DaysBeforeMonthGrows(y: int, m: int, m': int)
    requires 1 <= m < m' <= 12
    ensures DaysBeforeMonth(y, m) + DaysInMonth(y, m) <= DaysBeforeMonth(y, m')
  {
  }

  lemma DaysBeforeNextMonth(y: int, m: int)
    requires 1 <= m < 12
    ensures DaysBeforeMonth(y, m + 1) == DaysBeforeMonth(y, m) + DaysInMonth(y, m)
  {
  }

  lemma DaysWithinYear(y: int, m: int)
    requires 1 <= m <= 12
    ensures DaysBeforeMonth(y, m) + DaysInMonth(y, m) <= YearLength(y)
    ensures m == 12 ==> DaysBeforeMonth(y, m) + DaysInMonth(y, m) == YearLength(y)
  {
  }

  // ---------------------------------------------------------------- order and injectivity

  /** Lexicographic order on (year, month, day): the order of the dates in time. */
  predicate Before(a: Date, b: Date) {
    a.year < b.year
    || (a.year == b.year && a.month < b.month)
    || (a.year == b.year && a.month == b.month && a.day < b.day)
  }

  /** Day numbers follow the calendar order. */
  lemma DayNumberMonotone(a: Date, b: Date)
    requires Valid(a) && Valid(b) && Before(a, b)
    ensures DayNumber(a) < DayNumber(b)
  {
    DaysWithinYear(a.year, a.month);
    if a.year < b.year {
      DaysBeforeYearGrows(a.year, b.year);
    } else if a.month < b.month {
      DaysBeforeMonthGrows(a.year, a.month, b.month);
    }
  }

  /** Two valid dates with the same day number are the same date. */
  lemma DayNumberInjective(a: Date, b: Date)
    requires Valid(a) && Valid(b) && DayNumber(a) == DayNumber(b)
    ensures a == b
  {
    if Before(a, b) {
      DayNumberMonotone(a, b);
    } else if Before(b, a) {
      DayNumberMonotone(b, a);
    }
  }

  // ---------------------------------------------------------------- day steps

  /** The following calendar day (`d.setDate(d.getDate() + 1)`). */
  function NextDay(d: Date): (r: Date)
    requires Valid(d)
    ensures Valid(r)
    ensures DayNumber(r) == DayNumber(d) + 1
  {
    if d.day < DaysInMonth(d.year, d.month) then
      Date(d.year, d.month, d.day + 1)
    else if d.month < 12 then
      DaysBeforeNextMonth(d.year, d.month);
      Date(d.year, d.month + 1, 1)
    else
      DaysWithinYear(d.year, 12);
      DaysBeforeNextYear(d.year);
      Date(d.year + 1, 1, 1)
  }

  /** The preceding calendar day (`d.setDate(d.getDate() - 1)`). */
  function PrevDay(d: Date): (r: Date)
    requires Valid(d)
    ensures Valid(r)
    ensures DayNumber(r) == DayNumber(d) - 1
    ensures NextDay(r) == d
  {
    if d.day > 1 then
      Date(d.year, d.month, d.day - 1)
    else if d.month > 1 then
      DaysBeforeNextMonth(d.year, d.month - 1);
      Date(d.year, d.month - 1, DaysInMonth(d.year, d.month - 1))
    else
      DaysWithinYear(d.year - 1, 12);
      DaysBeforeNextYear(d.year - 1);
      Date(d.year - 1, 12, 31)
  }

  /** `n` steps forward. */
  function AddDays(d: Date, n: nat): (r: Date)
    requires Valid(d)
    ensures Valid(r)
    ensures DayNumber(r) == DayNumber(d) + n
    decreases n
  {
    if n == 0 then d else NextDay(AddDays(d, n - 1))
  }

  /** `n` steps backward. */
  function SubDays(d: Date, n: nat): (r: Date)
    requires Valid(d)
    ensures Valid(r)
    ensures DayNumber(r) == DayNumber(d) - n
    decreases n
  {
    if n == 0 then d else PrevDay(SubDays(d, n - 1))
  }

  /** Going back `n` days and forward `n` days returns to the start. */
  lemma AddSubDays(d: Date, n: nat)
    requires Valid(d)
    ensures AddDays(SubDays(d, n), n) == d
  {
    DayNumberInjective(AddDays(SubDays(d, n), n), d);
  }

  /** Within a month, stepping forward `k` days only moves the day of the month. */
  lemma AddDaysInMonth(y: int, m: int, k: nat)
    requires 1 <= m <= 12 && k < DaysInMonth(y, m)
    ensures AddDays(Date(y, m, 1), k) == Date(y, m, k + 1)
  {
    DayNumberInjective(AddDays(Date(y, m, 1), k), Date(y, m, k + 1));
  }

  lemma ModSevenStep(n: int)
    ensures (n + 5) % 7 == ((n + 4) % 7 + 1) % 7
  {
  }

  /** The next day falls on the next weekday, Saturday (6) wrapping to Sunday (0). */
  lemma WeekdayOfNextDay(d: Date)
    requires Valid(d)
    ensures Weekday(NextDay(d)) == (Weekday(d) + 1) % 7
  {
    var n := DayNumber(d);
    var m := DayNumber(NextDay(d));
    assert m == n + 1;
    ModSevenStep(n);
    assert Weekday(NextDay(d)) == (m + 4) % 7;
    assert Weekday(d) == (n + 4) % 7;
  }
}
