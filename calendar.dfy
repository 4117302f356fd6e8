/**
  The proleptic Gregorian calendar as Python's `datetime` uses it: dates from
  0001-01-01 to 9999-12-31, day numbers ("ordinals") counted from 0001-01-01 = 1,
  and weekdays numbered 0 = Monday .. 6 = Sunday.
 */
module Calendar {

  const MinYear: int := 1
  const MaxYear: int := 9999

  datatype Date = Date(year: int, month: int, day: int)

  /** The Gregorian leap-year rule. */
  predicate IsLeapYear(y: int) {
    y % 4 == 0 && (y % 100 != 0 || y % 400 == 0)
  }

  /** Month lengths of a common year, January first. */
  const MonthLengths: seq<int> := [31, 28, 31, 30, 31, 30, 31, 31, 30, 31, 30, 31]

  /** Days before the first of each month in a common year (index 13 is the whole year). */
  const DaysBeforeMonthTable: seq<int> := [0, 0, 31, 59, 90, 120, 151, 181, 212, 243, 273, 304, 334, 365]

  function DaysInMonth(y: int, m: int): (n: int)
    requires 1 <= m <= 12
    ensures 28 <= n <= 31
    ensures n == 29 <==> m == 2 && IsLeapYear(y)
    ensures n == 28 <==> m == 2 && !IsLeapYear(y)
    ensures n == 30 <==> m == 4 || m == 6 || m == 9 || m == 11
  {
    if m == 2 && IsLeapYear(y) then 29 else MonthLengths[m - 1]
  }

  function DaysInYear(y: int): int {
    if IsLeapYear(y) then 366 else 365
  }

  /** A date that `datetime(year, month, day)` accepts. */
  predicate ValidDate(d: Date) {
    MinYear <= d.year <= MaxYear && 1 <= d.month <= 12 && 1 <= d.day <= DaysInMonth(d.year, d.month)
  }

  /** Number of days in the years 1 .. y-1. */
  function DaysBeforeYear(y: int): int
    requires y >= 1
  {
    var n := y - 1;
    n * 365 + n / 4 - n / 100 + n / 400
  }

  /** Number of days in year y before the first of month m (m == 13: the whole year). */
  function DaysBeforeMonth(y: int, m: int): int
    requires 1 <= m <= 13
  {
    DaysBeforeMonthTable[m] + (if m > 2 && IsLeapYear(y) then 1 else 0)
  }

  /** The day number of a date, 0001-01-01 being day 1. */
  function Ordinal(d: Date): int
    requires ValidDate(d)
  {
    DaysBeforeYear(d.year) + DaysBeforeMonth(d.year, d.month) + d.day
  }

  /** `date.weekday()`: 0 is Monday, 6 is Sunday. */
  function Weekday(d: Date): (w: int)
    requires ValidDate(d)
    ensures 0 <= w <= 6
  {
    WeekdayOf(Ordinal(d))
  }

  /** The weekday of day number `o`. */
  function WeekdayOf(o: int): (w: int)
    ensures 0 <= w <= 6
  {
    (o + 6) % 7
  }

  /** Monday to Friday. */
  predicate IsBusinessDay(d: Date)
    requires ValidDate(d)
  {
    Weekday(d) <= 4
  }

  /** `d + timedelta(days=1)`. */
  function NextDay(d: Date): (r: Date)
    requires ValidDate(d) && d != Date(MaxYear, 12, 31)
    ensures ValidDate(r) && Ordinal(r) == Ordinal(d) + 1
  {
    if d.day < DaysInMonth(d.year, d.month) then
      Date(d.year, d.month, d.day + 1)
    else if d.month < 12 then
      DaysBeforeMonthStep(d.year, d.month);
      Date(d.year, d.month + 1, 1)
    else
      DaysBeforeYearStep(d.year);
      Date(d.year + 1, 1, 1)
  }

  /** `d - timedelta(days=1)`. */
  function PrevDay(d: Date): (r: Date)
    requires ValidDate(d) && d != Date(MinYear, 1, 1)
    ensures ValidDate(r) && Ordinal(r) + 1 == Ordinal(d)
  {
    if d.day > 1 then
      Date(d.year, d.month, d.day - 1)
    else if d.month > 1 then
      DaysBeforeMonthStep(d.year, d.month - 1);
      Date(d.year, d.month - 1, DaysInMonth(d.year, d.month - 1))
    else
      DaysBeforeYearStep(d.year - 1);
      Date(d.year - 1, 12, 31)
  }

  /** Moving from `n` to `n + 1` raises `n / k` by one exactly when `k` divides `n + 1`. */
  lemma DivStep(n: int, k: int)
    requires k == 4 || k == 100 || k == 400
    ensures (n + 1) / k - n / k == if (n + 1) % k == 0 then 1 else 0
  {
  }

  /** Every multiple of 400 is a multiple of 100, and every multiple of 100 one of 4. */
  lemma MultipleSteps(y: int)
    ensures y % 400 == 0 ==> y % 100 == 0
    ensures y % 100 == 0 ==> y % 4 == 0
  {
    if y % 400 == 0 {
      MultipleOf(y, 400, 100);
    }
    if y % 100 == 0 {
      MultipleOf(y, 100, 4);
    }
  }

  lemma MultipleOf(y: int, k: int, d: int)
    requires (k == 400 && d == 100) || (k == 100 && d == 4)
    requires y % k == 0
    ensures y % d == 0
  {
    var q := y / k;
    assert y == k * q;
    assert y == d * ((k / d) * q);
  }

  /** Each year contributes its own length to the day count. */
  lemma DaysBeforeYearStep(y: int)
    requires y >= 1
    ensures DaysBeforeYear(y + 1) == DaysBeforeYear(y) + DaysInYear(y)
  {
    DivStep(y - 1, 4);
    DivStep(y - 1, 100);
    DivStep(y - 1, 400);
    MultipleSteps(y);
  }

  /** Each month contributes its own length to the day count of its year. */
  lemma DaysBeforeMonthStep(y: int, m: int)
    requires 1 <= m <= 12
    ensures DaysBeforeMonth(y, m + 1) == DaysBeforeMonth(y, m) + DaysInMonth(y, m)
  {
  }

  lemma {:induction false} DaysBeforeYearMonotone(a: int, b: int)
    requires 1 <= a <= b
    ensures DaysBeforeYear(a) <= DaysBeforeYear(b)
    decreases b - a
  {
    if a < b {
      DaysBeforeYearStep(a);
      DaysBeforeYearMonotone(a + 1, b);
    }
  }

  lemma {:induction false} DaysBeforeMonthMonotone(y: int, a: int, b: int)
    requires 1 <= a <= b <= 13
    ensures DaysBeforeMonth(y, a) <= DaysBeforeMonth(y, b)
    decreases b - a
  {
    if a < b {
      DaysBeforeMonthStep(y, a);
      DaysBeforeMonthMonotone(y, a + 1, b);
    }
  }

  /** A valid date's day number falls inside its own year and its own month. */
  lemma OrdinalBounds(d: Date)
    requires ValidDate(d)
    ensures DaysBeforeYear(d.year) + DaysBeforeMonth(d.year, d.month) < Ordinal(d)
    ensures Ordinal(d) <= DaysBeforeYear(d.year) + DaysBeforeMonth(d.year, d.month + 1)
    ensures Ordinal(d) <= DaysBeforeYear(d.year + 1)
  {
    DaysBeforeMonthStep(d.year, d.month);
    DaysBeforeMonthMonotone(d.year, d.month + 1, 13);
    DaysBeforeYearStep(d.year);
  }

  /** Distinct valid dates have distinct day numbers, so "the day before" and
      "the day after" name exactly one date each. */
  lemma OrdinalInjective(a: Date, b: Date)
    requires ValidDate(a) && ValidDate(b) && Ordinal(a) == Ordinal(b)
    ensures a == b
  {
    if a.year < b.year {
      OrdinalLaterYear(a, b);
    } else if b.year < a.year {
      OrdinalLaterYear(b, a);
    } else if a.month < b.month {
      OrdinalLaterMonth(a, b);
    } else if b.month < a.month {
      OrdinalLaterMonth(b, a);
    }
  }

  /** A date of a later year has a larger day number. */
  lemma OrdinalLaterYear(a: Date, b: Date)
    requires ValidDate(a) && ValidDate(b) && a.year < b.year
    ensures Ordinal(a) < Ordinal(b)
  {
    OrdinalBounds(a);
    DaysBeforeYearMonotone(a.year + 1, b.year);
  }

  /** Within a year, a date of a later month has a larger day number. */
  lemma OrdinalLaterMonth(a: Date, b: Date)
    requires ValidDate(a) && ValidDate(b) && a.year == b.year && a.month < b.month
    ensures Ordinal(a) < Ordinal(b)
  {
    OrdinalBounds(a);
    DaysBeforeMonthMonotone(a.year, a.month + 1, b.month);
  }

  /** Day numbers one apart have consecutive weekdays. */
  lemma WeekdayOfStep(o: int)
    ensures WeekdayOf(o + 1) == (WeekdayOf(o) + 1) % 7
  {
    var x := o + 6;
    var q := x / 7;
    assert x == 7 * q + x % 7;
    if x % 7 == 6 {
      assert x + 1 == 7 * (q + 1);
    } else {
      assert x + 1 == 7 * q + (x % 7 + 1);
    }
  }

  /** 0001-01-01 was a Monday. */
  lemma WeekdayAnchor()
    ensures Ordinal(Date(MinYear, 1, 1)) == 1
    ensures Weekday(Date(MinYear, 1, 1)) == 0
  {
    assert DaysBeforeYear(MinYear) == 0;
    assert DaysBeforeMonth(MinYear, 1) == 0;
    assert WeekdayOf(1) == 0;
  }

  /** The weekday advances by one each day; with the anchor this determines
      Weekday completely. */
  lemma WeekdayNextDay(d: Date)
    requires ValidDate(d) && d != Date(MaxYear, 12, 31)
    ensures Weekday(NextDay(d)) == (Weekday(d) + 1) % 7
  {
    WeekdayOfStep(Ordinal(d));
  }

  /** The day before the first of the following month (January of the next
      year after December) is the last day of the month, and its day is the
      month's length. */
  lemma DayBeforeNextMonth(y: int, m: int)
    requires MinYear <= y <= MaxYear && 1 <= m <= 12 && !(y == MaxYear && m == 12)
    ensures var next := if m == 12 then Date(y + 1, 1, 1) else Date(y, m + 1, 1);
            ValidDate(next) && PrevDay(next) == Date(y, m, DaysInMonth(y, m))
  {
  }
}
