/** Civil (wall-clock) date-times in the proleptic Gregorian calendar. The
    source works with instants in one fixed zone; without daylight-saving
    changes an instant and its civil reading determine each other, and this
    module reasons about the civil reading directly. */
module Civil {

  datatype DateTime = DateTime(year: int, month: int, day: int, hour: int, minute: int, second: int)

  predicate IsLeapYear(y: int)
  {
    y % 4 == 0 && (y % 100 != 0 || y % 400 == 0)
  }

  function DaysInYear(y: int): int
  {
    if IsLeapYear(y) then 366 else 365
  }

  function DaysInMonth(y: int, m: int): (r: int)
    requires 1 <= m <= 12
    ensures 28 <= r <= 31
    ensures m == 2 ==> (r == 29 <==> IsLeapYear(y))
  {
    if m == 2 then (if IsLeapYear(y) then 29 else 28)
    else if m == 4 || m == 6 || m == 9 || m == 11 then 30
    else 31
  }

  /** A real calendar reading: month 1..12, a day that exists in that month,
      and a time of day from 00:00:00 to 23:59:59. */
  predicate Valid(t: DateTime)
  {
    && 1 <= t.month <= 12
    && 1 <= t.day <= DaysInMonth(t.year, t.month)
    && 0 <= t.hour < 24
    && 0 <= t.minute < 60
    && 0 <= t.second < 60
  }

  /** A reading that names a real second of the calendar, as every stored
      timestamp does. */
  type Instant = t: DateTime | Valid(t) witness DateTime(1970, 1, 1, 0, 0, 0)

  /** Strict chronological order of two readings, field by field. */
  predicate Before(a: DateTime, b: DateTime)
  {
    || a.year < b.year
    || (a.year == b.year && a.month < b.month)
    || (a.year == b.year && a.month == b.month && a.day < b.day)
    || (a.year == b.year && a.month == b.month && a.day == b.day && a.hour < b.hour)
    || (a.year == b.year && a.month == b.month && a.day == b.day && a.hour == b.hour && a.minute < b.minute)
    || (a.year == b.year && a.month == b.month && a.day == b.day && a.hour == b.hour && a.minute == b.minute
        && a.second < b.second)
  }

  /** `a <= b` in time (SQL `ts >= a` reads `AtOrBefore(a, ts)`). */
  predicate AtOrBefore(a: DateTime, b: DateTime)
  {
    !Before(b, a)
  }

  // ---------------------------------------------------------------------------
  // A linear count of days and seconds, counted from 0000-01-01 00:00:00.

  function DaysBeforeYear(y: int): int
    decreases if y >= 0 then y else -y
  {
    if y == 0 then 0
    else if y > 0 then DaysBeforeYear(y - 1) + DaysInYear(y - 1)
    else DaysBeforeYear(y + 1) - DaysInYear(y)
  }

  lemma DaysBeforeNextYear(y: int)
    ensures DaysBeforeYear(y + 1) == DaysBeforeYear(y) + DaysInYear(y)
  {
  }

  function DaysBeforeMonth(y: int, m: int): int
    requires 1 <= m <= 12
  {
    var cumulative := [0, 31, 59, 90, 120, 151, 181, 212, 243, 273, 304, 334];
    cumulative[m - 1] + (if m > 2 && IsLeapYear(y) then 1 else 0)
  }

  /** Days from 0000-01-01 to the given date. */
  function DayNumber(y: int, m: int, d: int): int
    requires 1 <= m <= 12
  {
    DaysBeforeYear(y) + DaysBeforeMonth(y, m) + d - 1
  }

  /** Seconds from 0000-01-01 00:00:00 to `t`. */
  function Seconds(t: DateTime): int
    requires 1 <= t.month <= 12
  {
    DayNumber(t.year, t.month, t.day) * 86400 + t.hour * 3600 + t.minute * 60 + t.second
  }

  /** Day of the week of a date, Sunday = 0 … Saturday = 6, as PostgreSQL's
      `EXTRACT(DOW ...)` numbers them. `NewYear1970` and
      `DayOfWeekAdvances` pin the numbering down. */
  function DayOfWeek(t: DateTime): (r: int)
    requires 1 <= t.month <= 12
    ensures 0 <= r < 7
  {
    (DayNumber(t.year, t.month, t.day) + 6) % 7
  }

  /** The leap years before year `y` of the common era: every fourth year,
      except century years, except every fourth century year. */
  function LeapYearsBefore(y: nat): int
  {
    (y + 3) / 4 - (y + 99) / 100 + (y + 399) / 400
  }

  /** The days before a year of the common era, counted in closed form: 365
      a year plus one for each leap year before it. */
  lemma {:induction false} DaysBeforeYearClosedForm(y: nat)
    ensures DaysBeforeYear(y) == 365 * y + LeapYearsBefore(y)
  {
    if y > 0 {
      DaysBeforeYearClosedForm(y - 1);
      LeapYearsStep(y - 1);
    }
  }

  /** Passing year `x` adds one leap year exactly when `x` is one. */
  lemma LeapYearsStep(x: nat)
    ensures LeapYearsBefore(x + 1) == LeapYearsBefore(x) + (if IsLeapYear(x) then 1 else 0)
  {
    MultiplesStep4(x);
    MultiplesStep100(x);
    MultiplesStep400(x);
    DivisorsChain(x);
  }

  /** A multiple of 400 is one of 100, and a multiple of 100 one of 4. */
  lemma DivisorsChain(x: nat)
    ensures x % 400 == 0 ==> x % 100 == 0
    ensures x % 100 == 0 ==> x % 4 == 0
  {
    if x % 400 == 0 {
      assert x == 100 * (4 * (x / 400));
    }
    if x % 100 == 0 {
      assert x == 4 * (25 * (x / 100));
    }
  }

  lemma MultiplesStep4(x: nat)
    ensures (x + 4) / 4 == (x + 3) / 4 + (if x % 4 == 0 then 1 else 0)
  {
    var q, r := x / 4, x % 4;
    assert x == 4 * q + r;
    assert (x + 4) / 4 == q + 1;
    assert (x + 3) / 4 == if r == 0 then q else q + 1;
  }

  lemma MultiplesStep100(x: nat)
    ensures (x + 100) / 100 == (x + 99) / 100 + (if x % 100 == 0 then 1 else 0)
  {
    var q, r := x / 100, x % 100;
    assert x == 100 * q + r;
    assert (x + 100) / 100 == q + 1;
    assert (x + 99) / 100 == if r == 0 then q else q + 1;
  }

  lemma MultiplesStep400(x: nat)
    ensures (x + 400) / 400 == (x + 399) / 400 + (if x % 400 == 0 then 1 else 0)
  {
    var q, r := x / 400, x % 400;
    assert x == 400 * q + r;
    assert (x + 400) / 400 == q + 1;
    assert (x + 399) / 400 == if r == 0 then q else q + 1;
  }

  /** Known weekdays: 1 January 1970 was a Thursday (4), 29 February 2000
      a Tuesday (2) and 1 January 2024 a Monday (1). The year is a parameter
      so that the calendar arithmetic is done from the closed form. */
  lemma NewYear1970(y: int)
    requires y == 1970
    ensures DayOfWeek(DateTime(y, 1, 1, 0, 0, 0)) == 4
  {
    DaysBeforeYearClosedForm(y);
    assert LeapYearsBefore(y) == 478;
  }

  lemma LeapDay2000(y: int)
    requires y == 2000
    ensures DayOfWeek(DateTime(y, 2, 29, 0, 0, 0)) == 2
  {
    DaysBeforeYearClosedForm(y);
    assert LeapYearsBefore(y) == 485;
  }

  lemma NewYear2024(y: int)
    requires y == 2024
    ensures DayOfWeek(DateTime(y, 1, 1, 0, 0, 0)) == 1
  {
    DaysBeforeYearClosedForm(y);
    assert LeapYearsBefore(y) == 491;
  }

  /** The same time of day on the next calendar date. */
  function NextDate(t: DateTime): (r: DateTime)
    requires Valid(t)
    ensures Valid(r) && Before(t, r)
    ensures r.hour == t.hour && r.minute == t.minute && r.second == t.second
    ensures DayNumber(r.year, r.month, r.day) == DayNumber(t.year, t.month, t.day) + 1
  {
    MonthsFillYear(t.year, t.month);
    DaysBeforeNextYear(t.year);
    if t.day < DaysInMonth(t.year, t.month) then t.(day := t.day + 1)
    else if t.month < 12 then t.(month := t.month + 1, day := 1)
    else t.(year := t.year + 1, month := 1, day := 1)
  }

  /** Consecutive dates have consecutive weekdays, Saturday (6) wrapping to
      Sunday (0). */
  lemma DayOfWeekAdvances(t: DateTime)
    requires Valid(t)
    ensures DayOfWeek(NextDate(t)) == (DayOfWeek(t) + 1) % 7
  {
    var r := NextDate(t);
    Mod7Step(DayNumber(t.year, t.month, t.day) + 6);
  }

  lemma Mod7Step(n: int)
    ensures (n + 1) % 7 == (n % 7 + 1) % 7
  {
    var q := n / 7;
    assert n == 7 * q + n % 7;
  }

  lemma MonthsFillYear(y: int, m: int)
    requires 1 <= m <= 12
    ensures DaysBeforeMonth(y, m) + DaysInMonth(y, m) == (if m == 12 then DaysInYear(y) else DaysBeforeMonth(y, m + 1))
  {
  }

  lemma MonthsOrdered(y: int, m1: int, m2: int)
    requires 1 <= m1 < m2 <= 12
    ensures DaysBeforeMonth(y, m1) + DaysInMonth(y, m1) <= DaysBeforeMonth(y, m2)
  {
  }

  lemma {:induction false} YearsOrdered(y1: int, y2: int)
    requires y1 < y2
    ensures DaysBeforeYear(y1) + DaysInYear(y1) <= DaysBeforeYear(y2)
    decreases y2 - y1
  {
    DaysBeforeNextYear(y1);
    if y1 + 1 < y2 {
      YearsOrdered(y1 + 1, y2);
      DaysBeforeNextYear(y1 + 1);
    }
  }

  /** A valid date's day number lies inside its own year. */
  lemma DayNumberInYear(t: DateTime)
    requires Valid(t)
    ensures DaysBeforeYear(t.year) <= DayNumber(t.year, t.month, t.day) < DaysBeforeYear(t.year) + DaysInYear(t.year)
  {
    MonthsFillYear(t.year, t.month);
    if t.month < 12 {
      MonthsOrdered(t.year, t.month, 12);
      MonthsFillYear(t.year, 12);
    }
  }

  /** The field-by-field order of valid readings is the order of the instants they name. */
  lemma BeforeIsChronological(a: DateTime, b: DateTime)
    requires Valid(a) && Valid(b)
    ensures Before(a, b) <==> Seconds(a) < Seconds(b)
  {
    DayNumberInYear(a);
    DayNumberInYear(b);
    if a.year < b.year {
      YearsOrdered(a.year, b.year);
    } else if b.year < a.year {
      YearsOrdered(b.year, a.year);
    } else if a.month < b.month {
      MonthsOrdered(a.year, a.month, b.month);
    } else if b.month < a.month {
      MonthsOrdered(a.year, b.month, a.month);
    }
  }

  // ---------------------------------------------------------------------------
  // The two calendar operations the source applies to its window bounds.

  /** The reading one second earlier (Go's `t.Add(-time.Second)`), borrowing
      across minute, hour, day, month and year boundaries. */
  function PrevSecond(t: DateTime): (r: DateTime)
    requires Valid(t)
    ensures Valid(r)
    ensures Seconds(r) == Seconds(t) - 1
  {
    if t.second > 0 then t.(second := t.second - 1)
    else if t.minute > 0 then t.(minute := t.minute - 1, second := 59)
    else if t.hour > 0 then t.(hour := t.hour - 1, minute := 59, second := 59)
    else if t.day > 1 then DateTime(t.year, t.month, t.day - 1, 23, 59, 59)
    else if t.month > 1 then
      MonthsFillYear(t.year, t.month - 1);
      DateTime(t.year, t.month - 1, DaysInMonth(t.year, t.month - 1), 23, 59, 59)
    else
      MonthsFillYear(t.year - 1, 12);
      DaysBeforeNextYear(t.year - 1);
      DateTime(t.year - 1, 12, 31, 23, 59, 59)
  }

  /** Go's normalisation of an out-of-range month: month 13 of year y is
      January of y+1, month 0 is December of y-1. */
  function NormalizeMonth(y: int, m: int): (r: (int, int))
    ensures 1 <= r.1 <= 12
    ensures r.0 * 12 + r.1 == y * 12 + m
  {
    (y + (m - 1) / 12, (m - 1) % 12 + 1)
  }

  /** Go's `t.AddDate(years, months, 0)`: the month is normalised first, then a
      day past the end of the resulting month overflows into the next one
      (January 31 plus one month is March 2 or 3). */
  function AddDate(t: DateTime, years: int, months: int): (r: DateTime)
    requires Valid(t)
    ensures Valid(r)
    ensures r.hour == t.hour && r.minute == t.minute && r.second == t.second
  {
    var (y, m) := NormalizeMonth(t.year + years, t.month + months);
    if t.day <= DaysInMonth(y, m) then DateTime(y, m, t.day, t.hour, t.minute, t.second)
    else
      var (y2, m2) := NormalizeMonth(y, m + 1);
      DateTime(y2, m2, t.day - DaysInMonth(y, m), t.hour, t.minute, t.second)
  }

  /** Adding whole months to the first of a month lands on the first of the target month. */
  lemma AddMonthsToFirstOfMonth(t: DateTime, years: int, months: int)
    requires Valid(t) && t.day == 1
    ensures AddDate(t, years, months).day == 1
    ensures AddDate(t, years, months).year * 12 + AddDate(t, years, months).month
         == (t.year + years) * 12 + t.month + months
  {
  }
}
