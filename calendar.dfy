/**
 * Proleptic Gregorian calendar dates, the way JavaScript's `Date` sees a local
 * midnight: a year, a month 1..12 (`getMonth() + 1`) and a day of the month.
 * Day numbers count days from Monday 0001-01-01 and stand for the time value
 * that `Date` objects compare by.
 */
module Calendar {

  datatype Date = Date(year: int, month: int, day: int)

  predicate IsLeapYear(y: int) {
    y % 4 == 0 && (y % 100 != 0 || y % 400 == 0)
  }

  function DaysInMonth(y: int, m: int): (n: int)
    requires 1 <= m <= 12
    ensures 28 <= n <= 31
    ensures m == 2 ==> (n == 29 <==> IsLeapYear(y))
  {
    if m == 2 then (if IsLeapYear(y) then 29 else 28)
    else if m == 4 || m == 6 || m == 9 || m == 11 then 30
    else 31
  }

  /** A date that exists on the calendar. */
  predicate ValidDate(d: Date) {
    1 <= d.month <= 12 && 1 <= d.day <= DaysInMonth(d.year, d.month)
  }

  function DaysInYear(y: int): int {
    if IsLeapYear(y) then 366 else 365
  }

  /** Days of year `y` before the first of month `m`. */
  function DaysBeforeMonth(y: int, m: int): nat
    requires 1 <= m <= 12
  {
    if m == 1 then 0 else DaysBeforeMonth(y, m - 1) + DaysInMonth(y, m - 1)
  }

  lemma DaysBeforeDecember(y: int)
    ensures DaysBeforeMonth(y, 12) + 31 == DaysInYear(y)
  {
    var f := DaysInMonth(y, 2);
    assert DaysBeforeMonth(y, 2) == 31;
    assert DaysBeforeMonth(y, 3) == 31 + f;
    assert DaysBeforeMonth(y, 4) == 62 + f;
    assert DaysBeforeMonth(y, 5) == 92 + f;
    assert DaysBeforeMonth(y, 6) == 123 + f;
    assert DaysBeforeMonth(y, 7) == 153 + f;
    assert DaysBeforeMonth(y, 8) == 184 + f;
    assert DaysBeforeMonth(y, 9) == 215 + f;
    assert DaysBeforeMonth(y, 10) == 245 + f;
    assert DaysBeforeMonth(y, 11) == 276 + f;
    assert DaysBeforeMonth(y, 12) == 306 + f;
  }

  /** Days from 0001-01-01 to the first of January of year `y` (negative before it). */
  function DaysBeforeYear(y: int): int {
    365 * (y - 1) + (y - 1) / 4 - (y - 1) / 100 + (y - 1) / 400
  }

  /** Floor division steps up by one exactly at multiples of the divisor. */
  lemma DivSteps(y: int)
    ensures y / 4 - (y - 1) / 4 == if y % 4 == 0 then 1 else 0
    ensures y / 100 - (y - 1) / 100 == if y % 100 == 0 then 1 else 0
    ensures y / 400 - (y - 1) / 400 == if y % 400 == 0 then 1 else 0
  {
  }

  lemma LeapDivisibility(y: int)
    ensures y % 400 == 0 ==> y % 100 == 0
    ensures y % 100 == 0 ==> y % 4 == 0
  {
    if y % 400 == 0 {
      assert y == 100 * (4 * (y / 400));
      MultipleOf100(4 * (y / 400));
    }
    if y % 100 == 0 {
      assert y == 4 * (25 * (y / 100));
      MultipleOf4(25 * (y / 100));
    }
  }

  lemma MultipleOf100(q: int)
    ensures (100 * q) % 100 == 0
  {
  }

  lemma MultipleOf4(q: int)
    ensures (4 * q) % 4 == 0
  {
  }

  /** Each year adds its own length to the running day count. */
  lemma YearLength(y: int)
    ensures DaysBeforeYear(y + 1) == DaysBeforeYear(y) + DaysInYear(y)
  {
    DivSteps(y);
    LeapDivisibility(y);
  }

  /** `a` comes before `b` on the calendar: an earlier year, month or day, in that order of precedence. */
  predicate Before(a: Date, b: Date) {
    a.year < b.year || (a.year == b.year && (a.month < b.month || (a.month == b.month && a.day < b.day)))
  }

  /** A whole month fits before the first of any later month of the year. */
  lemma {:induction false} MonthsMonotone(y: int, m1: int, m2: int)
    requires 1 <= m1 < m2 <= 12
    ensures DaysBeforeMonth(y, m1) + DaysInMonth(y, m1) <= DaysBeforeMonth(y, m2)
    decreases m2
  {
    if m2 > m1 + 1 {
      MonthsMonotone(y, m1, m2 - 1);
    }
  }

  /** Every day of a year falls within its length. */
  lemma DayOfYearBound(d: Date)
    requires ValidDate(d)
    ensures DaysBeforeMonth(d.year, d.month) + d.day - 1 < DaysInYear(d.year)
  {
    DaysBeforeDecember(d.year);
    if d.month < 12 {
      MonthsMonotone(d.year, d.month, 12);
    }
  }

  /** A whole year fits before the first of January of any later year. */
  lemma {:induction false} YearsMonotone(y1: int, y2: int)
    requires y1 < y2
    ensures DaysBeforeYear(y1) + DaysInYear(y1) <= DaysBeforeYear(y2)
    decreases y2 - y1
  {
    YearLength(y1);
    if y2 > y1 + 1 {
      YearsMonotone(y1 + 1, y2);
    }
  }

  /** The number of days from 0001-01-01 to `d`. */
  function DayNumber(d: Date): int
    requires ValidDate(d)
  {
    DaysBeforeYear(d.year) + DaysBeforeMonth(d.year, d.month) + d.day - 1
  }

  /** Day numbers order dates as the calendar does: comparing time values is comparing year, month and day. */
  lemma DayNumberOrder(a: Date, b: Date)
    requires ValidDate(a) && ValidDate(b)
    ensures DayNumber(a) < DayNumber(b) <==> Before(a, b)
  {
    if a.year < b.year {
      DayOfYearBound(a);
      YearsMonotone(a.year, b.year);
    } else if b.year < a.year {
      DayOfYearBound(b);
      YearsMonotone(b.year, a.year);
    } else if a.month < b.month {
      MonthsMonotone(a.year, a.month, b.month);
    } else if b.month < a.month {
      MonthsMonotone(a.year, b.month, a.month);
    }
  }

  /** The following calendar day. */
  function NextDay(d: Date): (r: Date)
    requires ValidDate(d)
    ensures ValidDate(r)
  {
    if d.day < DaysInMonth(d.year, d.month) then Date(d.year, d.month, d.day + 1)
    else if d.month < 12 then Date(d.year, d.month + 1, 1)
    else Date(d.year + 1, 1, 1)
  }

  /** The next day is one day on in the day count. */
  lemma NextDayNumber(d: Date)
    requires ValidDate(d)
    ensures DayNumber(NextDay(d)) == DayNumber(d) + 1
  {
    if d.day == DaysInMonth(d.year, d.month) && d.month == 12 {
      DaysBeforeDecember(d.year);
      YearLength(d.year);
    }
  }

  /** The preceding calendar day. */
  function PrevDay(d: Date): (r: Date)
    requires ValidDate(d)
    ensures ValidDate(r)
  {
    if d.day > 1 then Date(d.year, d.month, d.day - 1)
    else if d.month > 1 then Date(d.year, d.month - 1, DaysInMonth(d.year, d.month - 1))
    else Date(d.year - 1, 12, 31)
  }

  /** The previous day is one day back in the day count. */
  lemma PrevDayNumber(d: Date)
    requires ValidDate(d)
    ensures DayNumber(PrevDay(d)) == DayNumber(d) - 1
  {
    if d.day == 1 && d.month == 1 {
      DaysBeforeDecember(d.year - 1);
      YearLength(d.year - 1);
    }
  }

  lemma NextDayOfPrevDay(d: Date)
    requires ValidDate(d)
    ensures NextDay(PrevDay(d)) == d
  {
  }

  /** `n` days after `d` (before it when `n` is negative). */
  function AddDays(d: Date, n: int): (r: Date)
    requires ValidDate(d)
    ensures ValidDate(r)
    decreases if n < 0 then -n else n
  {
    if n == 0 then d
    else if n > 0 then AddDays(NextDay(d), n - 1)
    else AddDays(PrevDay(d), n + 1)
  }

  /** Adding `n` days moves the day count by exactly `n`. */
  lemma {:induction false} AddDaysNumber(d: Date, n: int)
    requires ValidDate(d)
    ensures DayNumber(AddDays(d, n)) == DayNumber(d) + n
    decreases if n < 0 then -n else n
  {
    if n > 0 {
      NextDayNumber(d);
      AddDaysNumber(NextDay(d), n - 1);
    } else if n < 0 {
      PrevDayNumber(d);
      AddDaysNumber(PrevDay(d), n + 1);
    }
  }

  /** Stepping forward one day from `d + n` gives `d + (n + 1)`, whatever the sign of `n`. */
  lemma {:induction false} NextDayOfAddDays(d: Date, n: int)
    requires ValidDate(d)
    ensures NextDay(AddDays(d, n)) == AddDays(d, n + 1)
    decreases if n < 0 then -n else n
  {
    if n > 0 {
      NextDayOfAddDays(NextDay(d), n - 1);
    } else if n == -1 {
      NextDayOfPrevDay(d);
    } else if n < -1 {
      NextDayOfAddDays(PrevDay(d), n + 1);
    }
  }

  /** Counting forward from the first of a month reaches each of its days. */
  lemma {:induction false} AddDaysWithinMonth(y: int, m: int, k: int)
    requires 1 <= m <= 12 && 0 <= k < DaysInMonth(y, m)
    ensures AddDays(Date(y, m, 1), k) == Date(y, m, k + 1)
  {
    if k > 0 {
      AddDaysWithinMonth(y, m, k - 1);
      NextDayOfAddDays(Date(y, m, 1), k - 1);
    }
  }

  /** `d.getDay()`: 0 for Sunday up to 6 for Saturday (0001-01-01 was a Monday). */
  function Weekday(d: Date): (w: int)
    requires ValidDate(d)
    ensures 0 <= w < 7
  {
    (DayNumber(d) + 1) % 7
  }

  /** The weekday advances by one each day, wrapping after Saturday. */
  lemma WeekdayOfNextDay(d: Date)
    requires ValidDate(d)
    ensures Weekday(NextDay(d)) == (Weekday(d) + 1) % 7
  {
    var x := DayNumber(d) + 1;
    NextDayNumber(d);
    assert DayNumber(NextDay(d)) + 1 == x + 1;
    ModSucc(x);
  }

  lemma ModSucc(x: int)
    ensures (x + 1) % 7 == (x % 7 + 1) % 7
  {
  }

  /** The anchoring of the weekday count against one known date: 1 January 2024 was a Monday. */
  lemma KnownMonday()
    ensures Weekday(Date(2024, 1, 1)) == 1
  {
    assert DaysBeforeYear(2024) == 738885;
  }

  /**
   * ECMAScript's MakeDay/MakeDate for integer arguments: month `monthIndex`
   * (0-based, any integer) of `year`, then day `date` counted from its first
   * (0 is the day before it, larger values run into later months).
   */
  function MakeDay(year: int, monthIndex: int, date: int): (r: Date)
    ensures ValidDate(r)
  {
    AddDays(Date(year + monthIndex / 12, monthIndex % 12 + 1, 1), date - 1)
  }

  /** MakeDay on a day of an existing month is that day. */
  lemma MakeDayInMonth(y: int, m: int, day: int)
    requires 1 <= m <= 12 && 1 <= day <= DaysInMonth(y, m)
    ensures MakeDay(y, m - 1, day) == Date(y, m, day)
  {
    AddDaysWithinMonth(y, m, day - 1);
  }

  /** The `Date` constructor reads a year 0..99 as 1900..1999. */
  function FullYear(y: int): int {
    if 0 <= y <= 99 then 1900 + y else y
  }

  /** `new Date(year, monthIndex, date)`. */
  function NewDate(year: int, monthIndex: int, date: int): (r: Date)
    ensures ValidDate(r)
  {
    MakeDay(FullYear(year), monthIndex, date)
  }

  /** `d.setDate(date)` on a copy of `d`: no two-digit-year rule here. */
  function SetDate(d: Date, date: int): (r: Date)
    ensures ValidDate(r)
  {
    MakeDay(d.year, d.month - 1, date)
  }
}
