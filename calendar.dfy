/** Whole-day Gregorian calendar arithmetic.
    A date is a (year, month, day) triple with month in 1..12; day numbers
    count days from 1 January of year 1 (proleptic Gregorian), so that
    the day number of 0001-01-01 is 1 and the day of the week is the day
    number modulo 7 with 0 = Sunday, the convention of `Date.getDay`. */
module Calendar {

  /** The first year of the Gregorian calendar. */
  const GregorianStart: int := 1583

  datatype Date = Date(year: int, month: int, day: int)

  predicate IsLeapYear(y: int) {
    (y % 4 == 0 && y % 100 != 0) || y % 400 == 0
  }

  function DaysInMonth(y: int, m: int): (n: int)
    requires 1 <= m <= 12
    ensures 28 <= n <= 31
    ensures n == 29 <==> (m == 2 && IsLeapYear(y))
  {
    if m == 2 then (if IsLeapYear(y) then 29 else 28)
    else if m == 4 || m == 6 || m == 9 || m == 11 then 30
    else 31
  }

  predicate ValidDate(dt: Date) {
    && dt.year >= GregorianStart
    && 1 <= dt.month <= 12
    && 1 <= dt.day <= DaysInMonth(dt.year, dt.month)
  }

  /** Days in the years 1 .. y-1. */
  function DaysBeforeYear(y: int): int
    requires y >= 1
  {
    var p := y - 1;
    365 * p + p / 4 - p / 100 + p / 400
  }

  /** Days in the months 1 .. m-1 of year y. */
  function DaysBeforeMonth(y: int, m: int): (n: int)
    requires 1 <= m <= 12
    ensures 0 <= n <= 335
  {
    var common := [0, 31, 59, 90, 120, 151, 181, 212, 243, 273, 304, 334][m - 1];
    common + (if m > 2 && IsLeapYear(y) then 1 else 0)
  }

  function DayNumber(dt: Date): int
    requires ValidDate(dt)
  {
    DaysBeforeYear(dt.year) + DaysBeforeMonth(dt.year, dt.month) + dt.day
  }

  /** 0 = Sunday, 1 = Monday, ..., 6 = Saturday. */
  function DayOfWeek(dt: Date): (w: int)
    requires ValidDate(dt)
    ensures 0 <= w < 7
  {
    DayNumber(dt) % 7
  }

  /** Day numbers order dates: within the same year, a later month or a
      later day of the same month gives a larger day number; a later year
      always does. */
  lemma DayNumberMonotone(a: Date, b: Date)
    requires ValidDate(a) && ValidDate(b)
    requires a.year < b.year || (a.year == b.year && (a.month < b.month || (a.month == b.month && a.day < b.day)))
    ensures DayNumber(a) < DayNumber(b)
  {
    if a.year < b.year {
      YearLength(a.year);
      DaysBeforeYearMonotone(a.year + 1, b.year);
    }
  }

  /** Two valid dates with the same day number are the same date. */
  lemma DayNumberInjective(a: Date, b: Date)
    requires ValidDate(a) && ValidDate(b) && DayNumber(a) == DayNumber(b)
    ensures a == b
  {
    if a.year < b.year || (a.year == b.year && (a.month < b.month || (a.month == b.month && a.day < b.day))) {
      DayNumberMonotone(a, b);
    } else if b.year < a.year || (a.year == b.year && (b.month < a.month || (a.month == b.month && b.day < a.day))) {
      DayNumberMonotone(b, a);
    }
  }

  /** The calendar day after `dt`. */
  function NextDay(dt: Date): Date
    requires ValidDate(dt)
  {
    if dt.day < DaysInMonth(dt.year, dt.month) then Date(dt.year, dt.month, dt.day + 1)
    else if dt.month < 12 then Date(dt.year, dt.month + 1, 1)
    else Date(dt.year + 1, 1, 1)
  }

  /** Day numbers count days: the next day has the next day number and
      the next weekday. */
  lemma NextDayStep(dt: Date)
    requires ValidDate(dt)
    ensures ValidDate(NextDay(dt))
    ensures DayNumber(NextDay(dt)) == DayNumber(dt) + 1
    ensures DayOfWeek(NextDay(dt)) == (DayOfWeek(dt) + 1) % 7
  {
    NextDayNumber(dt);
    WeekdayStep(DayNumber(dt));
  }

  lemma NextDayNumber(dt: Date)
    requires ValidDate(dt)
    ensures ValidDate(NextDay(dt))
    ensures DayNumber(NextDay(dt)) == DayNumber(dt) + 1
  {
    if dt.day < DaysInMonth(dt.year, dt.month) {
      SameMonth(dt, NextDay(dt));
    } else if dt.month < 12 {
      MonthLength(dt.year, dt.month);
    } else {
      YearLength(dt.year);
    }
  }

  lemma WeekdayStep(n: int)
    ensures (n + 1) % 7 == (n % 7 + 1) % 7
  {
  }

  /** Within a month day numbers differ as the days do. */
  lemma SameMonth(a: Date, b: Date)
    requires ValidDate(a) && ValidDate(b) && a.year == b.year && a.month == b.month
    ensures DayNumber(b) - DayNumber(a) == b.day - a.day
  {
  }

  /** The months before `m + 1` are those before `m` and `m` itself. */
  lemma MonthLength(y: int, m: int)
    requires 1 <= m < 12
    ensures DaysBeforeMonth(y, m + 1) == DaysBeforeMonth(y, m) + DaysInMonth(y, m)
  {
    if m == 1 {} else if m == 2 {} else if m == 3 {} else if m == 4 {} else if m == 5 {}
    else if m == 6 {} else if m == 7 {} else if m == 8 {} else if m == 9 {} else if m == 10 {}
  }

  lemma YearLength(y: int)
    requires y >= 1
    ensures DaysBeforeYear(y + 1) == DaysBeforeYear(y) + (if IsLeapYear(y) then 366 else 365)
  {
    DivStep(y, 4);
    DivStep(y, 100);
    DivStep(y, 400);
  }

  /** Going from `y - 1` to `y` adds one to the quotient by `k` exactly
      when `y` is a multiple of `k`. */
  lemma DivStep(y: int, k: int)
    requires y >= 1 && (k == 4 || k == 100 || k == 400)
    ensures y / k == (y - 1) / k + (if y % k == 0 then 1 else 0)
  {
    var q, r := (y - 1) / k, (y - 1) % k;
    assert y == k * q + r + 1;
    if r == k - 1 {
      assert y == k * (q + 1) + 0;
    } else {
      assert y == k * q + (r + 1) && 0 <= r + 1 < k;
    }
  }

  lemma {:induction false} DaysBeforeYearMonotone(y: int, z: int)
    requires 1 <= y <= z
    ensures DaysBeforeYear(y) + 365 * (z - y) <= DaysBeforeYear(z)
    decreases z - y
  {
    if y < z {
      YearLength(y);
      DaysBeforeYearMonotone(y + 1, z);
    }
  }
}
