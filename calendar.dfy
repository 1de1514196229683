/**
 * The calendar arithmetic that the weekend generator gets from JavaScript's
 * `Date`: a local date is a day number counted from January 1, 2026, and
 * `setDate(getDate() + k)` moves it k days forward whatever month or year
 * that crosses. `getDay`, `getFullYear`, `getMonth` and `getDate` read the
 * Gregorian calendar date of a day number.
 */
module Calendar {

  /** Day number 0 is January 1 of this year. */
  const Epoch: int := 2026
  /** `getDay()` of day number 0: January 1, 2026 is a Thursday (0 is Sunday). */
  const EpochWeekday: int := 4
  const Sunday: int := 0
  const Friday: int := 5

  predicate IsLeapYear(y: int) {
    (y % 4 == 0 && y % 100 != 0) || y % 400 == 0
  }

  function DaysInYear(y: int): nat {
    if IsLeapYear(y) then 366 else 365
  }

  function DaysInMonth(y: int, m: int): nat
    requires 1 <= m <= 12
  {
    if m == 2 then (if IsLeapYear(y) then 29 else 28)
    else if m == 4 || m == 6 || m == 9 || m == 11 then 30
    else 31
  }

  /** Days of year `y` before the first of month `m`. */
  function DaysBeforeMonth(y: int, m: int): nat
    requires 1 <= m <= 12
  {
    [0, 31, 59, 90, 120, 151, 181, 212, 243, 273, 304, 334][m - 1]
      + (if m > 2 && IsLeapYear(y) then 1 else 0)
  }

  /** The months of a year follow each other without gap or overlap. */
  lemma MonthsTile(y: int, m: int)
    requires 1 <= m <= 12
    ensures m < 12 ==> DaysBeforeMonth(y, m + 1) == DaysBeforeMonth(y, m) + DaysInMonth(y, m)
    ensures m == 12 ==> DaysBeforeMonth(y, m) + DaysInMonth(y, m) == DaysInYear(y)
  {
  }

  /** A later month starts no earlier than an earlier month ends. */
  lemma {:induction false} MonthsOrdered(y: int, m1: int, m2: int)
    requires 1 <= m1 < m2 <= 12
    ensures DaysBeforeMonth(y, m1) + DaysInMonth(y, m1) <= DaysBeforeMonth(y, m2)
    decreases m2 - m1
  {
    MonthsTile(y, m1);
    if m1 + 1 < m2 {
      MonthsOrdered(y, m1 + 1, m2);
    }
  }

  /** Day number of January 1 of year `y`. */
  function YearStart(y: int): nat
    requires y >= Epoch
    decreases y - Epoch
  {
    if y == Epoch then 0 else YearStart(y - 1) + DaysInYear(y - 1)
  }

  /** A later year starts no earlier than an earlier year ends. */
  lemma {:induction false} YearsOrdered(y1: int, y2: int)
    requires Epoch <= y1 < y2
    ensures YearStart(y1) + DaysInYear(y1) <= YearStart(y2)
    decreases y2 - y1
  {
    if y1 + 1 < y2 {
      YearsOrdered(y1, y2 - 1);
    }
  }

  /** A calendar date as `getFullYear()`, `getMonth() + 1` and `getDate()` report it. */
  datatype Date = Date(year: int, month: int, day: int)

  predicate ValidDate(d: Date) {
    d.year >= Epoch && 1 <= d.month <= 12 && 1 <= d.day <= DaysInMonth(d.year, d.month)
  }

  /** The day number of a date (`new Date(year, month - 1, day)`). */
  function DayNumber(d: Date): nat
    requires ValidDate(d)
  {
    YearStart(d.year) + DaysBeforeMonth(d.year, d.month) + d.day - 1
  }

  /** `getDay()`: 0 is Sunday, 5 is Friday. */
  function Weekday(n: nat): (w: int)
    ensures 0 <= w < 7
  {
    (EpochWeekday + n) % 7
  }

  /** Days a whole number of weeks apart fall on the same weekday. */
  lemma WeekdayPeriodic(n: nat, k: nat)
    ensures Weekday(n + 7 * k) == Weekday(n)
  {
    assert EpochWeekday + n + 7 * k == (EpochWeekday + n) + 7 * k;
  }

  /** The date `n` days after the first of month `m` of year `y`, when that is still in `y`. */
  function DateInYear(y: int, m: int, n: nat): (d: Date)
    requires y >= Epoch && 1 <= m <= 12
    requires DaysBeforeMonth(y, m) + n < DaysInYear(y)
    ensures ValidDate(d) && d.year == y
    ensures DaysBeforeMonth(y, d.month) + d.day - 1 == DaysBeforeMonth(y, m) + n
    decreases 12 - m
  {
    MonthsTile(y, m);
    if n < DaysInMonth(y, m) then Date(y, m, n + 1)
    else DateInYear(y, m + 1, n - DaysInMonth(y, m))
  }

  /** The date `n` days after January 1 of year `y`. */
  function DateFrom(y: int, n: nat): (d: Date)
    requires y >= Epoch
    ensures ValidDate(d) && d.year >= y
    ensures DayNumber(d) == YearStart(y) + n
    decreases n
  {
    if n < DaysInYear(y) then DateInYear(y, 1, n)
    else DateFrom(y + 1, n - DaysInYear(y))
  }

  /** The calendar date of day number `n`; it is the date whose day number is `n`. */
  function ToDate(n: nat): (d: Date)
    ensures ValidDate(d) && DayNumber(d) == n
  {
    DateFrom(Epoch, n)
  }

  /** A date's day number lies inside the span of its own year. */
  lemma DayNumberInYear(d: Date)
    requires ValidDate(d)
    ensures YearStart(d.year) <= DayNumber(d) < YearStart(d.year) + DaysInYear(d.year)
  {
    if d.month < 12 {
      MonthsOrdered(d.year, d.month, 12);
    }
    MonthsTile(d.year, 12);
  }

  /** Distinct dates have distinct day numbers. */
  lemma DayNumberInjective(d1: Date, d2: Date)
    requires ValidDate(d1) && ValidDate(d2)
    requires DayNumber(d1) == DayNumber(d2)
    ensures d1 == d2
  {
    DayNumberInYear(d1);
    DayNumberInYear(d2);
    if d1.year < d2.year {
      YearsOrdered(d1.year, d2.year);
    } else if d2.year < d1.year {
      YearsOrdered(d2.year, d1.year);
    }
    assert d1.year == d2.year;
    if d1.month < d2.month {
      MonthsOrdered(d1.year, d1.month, d2.month);
    } else if d2.month < d1.month {
      MonthsOrdered(d1.year, d2.month, d1.month);
    }
  }

  /** Reading back the date of a day number gives the date: the other half of the round trip. */
  lemma ToDateOfDayNumber(d: Date)
    requires ValidDate(d)
    ensures ToDate(DayNumber(d)) == d
  {
    DayNumberInjective(ToDate(DayNumber(d)), d);
  }

  /** `getFullYear()` of day `n` is `y` exactly when `n` lies in the span of year `y`. */
  lemma YearOfDay(n: nat, y: int)
    requires y >= Epoch
    ensures ToDate(n).year == y <==> YearStart(y) <= n < YearStart(y) + DaysInYear(y)
  {
    var d := ToDate(n);
    DayNumberInYear(d);
    if d.year < y {
      YearsOrdered(d.year, y);
    } else if y < d.year {
      YearsOrdered(y, d.year);
    }
  }
}
