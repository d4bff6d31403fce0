/**
 * Calendar arithmetic. A day is a Python proleptic-Gregorian ordinal
 * (date(1, 1, 1) is day 1, a Monday); a Date is a year/month/day triple.
 */
module Calendar {

  /** date.weekday(): Monday is 0, Sunday is 6. */
  function Weekday(d: int): (w: int)
    ensures 0 <= w < 7
  {
    (d + 6) % 7
  }

  /** date - timedelta(days=date.weekday()): the Monday that starts d's week. */
  function MondayOf(d: int): (m: int)
    ensures Weekday(m) == 0
    ensures m <= d < m + 7
  {
    d - Weekday(d)
  }

  /** The Monday of a week is the start of the week of each of its seven days. */
  lemma MondayOfWeekDays(m: int, d: int)
    requires Weekday(m) == 0
    requires m <= d < m + 7
    ensures MondayOf(d) == m
  {
    assert (d + 6) % 7 == d - m by {
      assert (m + 6) % 7 == 0;
      assert d + 6 == (m + 6) + (d - m);
    }
  }

  datatype Date = Date(year: int, month: int, day: int)

  predicate IsLeap(y: int)
  {
    y % 4 == 0 && (y % 100 != 0 || y % 400 == 0)
  }

  function DaysInMonth(y: int, m: int): (n: int)
    requires 1 <= m <= 12
    ensures 28 <= n <= 31
  {
    if m == 2 then (if IsLeap(y) then 29 else 28)
    else if m == 4 || m == 6 || m == 9 || m == 11 then 30
    else 31
  }

  predicate ValidDate(d: Date)
  {
    1 <= d.month <= 12 && 1 <= d.day <= DaysInMonth(d.year, d.month)
  }

  /** Python's `<` on dates: chronological, i.e. lexicographic on (year, month, day). */
  predicate Before(a: Date, b: Date)
  {
    a.year < b.year ||
    (a.year == b.year && (a.month < b.month || (a.month == b.month && a.day < b.day)))
  }

  predicate AtOrBefore(a: Date, b: Date)
  {
    a == b || Before(a, b)
  }

  /** datetime(year, month, 1): the first day of a month. */
  function FirstOfMonth(y: int, m: int): Date
  {
    Date(y, m, 1)
  }

  /** The first day of the following month, December rolling into January of the next year. */
  function FirstOfNextMonth(y: int, m: int): (r: Date)
    requires 1 <= m <= 12
    ensures ValidDate(r)
    ensures Before(FirstOfMonth(y, m), r)
  {
    if m == 12 then Date(y + 1, 1, 1) else Date(y, m + 1, 1)
  }

  /** date - timedelta(days=1) on a valid date. */
  function PrevDay(d: Date): (r: Date)
    requires ValidDate(d)
    ensures ValidDate(r)
    ensures Before(r, d)
  {
    if d.day > 1 then Date(d.year, d.month, d.day - 1)
    else if d.month > 1 then Date(d.year, d.month - 1, DaysInMonth(d.year, d.month - 1))
    else Date(d.year - 1, 12, 31)
  }

  /** No valid date lies strictly between the day before d and d. */
  lemma PrevDayAdjacent(d: Date, x: Date)
    requires ValidDate(d) && ValidDate(x)
    ensures Before(x, d) <==> AtOrBefore(x, PrevDay(d))
  {
  }

  /**
   * A valid date lies in the half-open window [first of month, first of next
   * month) exactly when it is in that month.
   */
  lemma MonthWindowExact(y: int, m: int, d: Date)
    requires 1 <= m <= 12
    requires ValidDate(d)
    ensures (AtOrBefore(FirstOfMonth(y, m), d) && Before(d, FirstOfNextMonth(y, m)))
            <==> (d.year == y && d.month == m)
  {
  }

  function DaysInYear(y: int): int
  {
    if IsLeap(y) then 366 else 365
  }

  /** The days of year y before the first of month m (m == 13 counts the whole year). */
  function DaysBeforeMonth(y: int, m: int): (n: int)
    requires 1 <= m <= 13
    ensures n >= 0
  {
    if m == 1 then 0 else DaysBeforeMonth(y, m - 1) + DaysInMonth(y, m - 1)
  }

  /** The days of the years 1 .. y - 1. */
  function DaysBeforeYear(y: int): (n: int)
    ensures n >= 0
    decreases y
  {
    if y <= 1 then 0 else DaysBeforeYear(y - 1) + DaysInYear(y - 1)
  }

  /** date.toordinal(): date(1, 1, 1) is day 1. */
  function Ordinal(d: Date): int
    requires ValidDate(d)
  {
    DaysBeforeYear(d.year) + DaysBeforeMonth(d.year, d.month) + d.day
  }

  const MinutesPerDay: int := 1440

  /** datetime(year, month, day) at midnight, in minutes on the ordinal day scale. */
  function Midnight(d: Date): int
    requires ValidDate(d)
  {
    Ordinal(d) * MinutesPerDay
  }

  lemma MonthsFillYear(y: int)
    ensures DaysBeforeMonth(y, 13) == DaysInYear(y)
  {
    var f := DaysInMonth(y, 2);
    assert DaysBeforeMonth(y, 2) == 31;
    assert DaysBeforeMonth(y, 3) == 31 + f;
    assert DaysBeforeMonth(y, 4) == 62 + f;
    assert DaysBeforeMonth(y, 5) == 92 + f;
    assert DaysBeforeMonth(y, 6) == 123 + f;
    assert DaysBeforeMonth(y, 7) == 153 + f;
    assert DaysBeforeMonth(y, 8) == 184 + f;
    assert DaysBeforeMonth(y, 9) == 215 + f;
    assert DaysBeforeMonth(y, 10) == 245 + f;
    assert DaysBeforeMonth(y, 11) == 276 + f;
    assert DaysBeforeMonth(y, 12) == 306 + f;
    assert DaysBeforeMonth(y, 13) == 337 + f;
  }

  lemma {:induction false} DaysBeforeMonthMonotone(y: int, m: int, n: int)
    requires 1 <= m <= n <= 13
    ensures DaysBeforeMonth(y, m) <= DaysBeforeMonth(y, n)
    ensures m < n ==> DaysBeforeMonth(y, m) + DaysInMonth(y, m) <= DaysBeforeMonth(y, n)
    decreases n - m
  {
    if m < n {
      DaysBeforeMonthMonotone(y, m, n - 1);
    }
  }

  lemma {:induction false} DaysBeforeYearMonotone(y: int, z: int)
    requires 1 <= y < z
    ensures DaysBeforeYear(y) + DaysInYear(y) <= DaysBeforeYear(z)
    decreases z - y
  {
    if y + 1 < z {
      DaysBeforeYearMonotone(y, z - 1);
    }
  }

  /** Ordinals follow the calendar: an earlier date has a smaller ordinal, so distinct dates have distinct ordinals. */
  lemma OrdinalMonotone(a: Date, b: Date)
    requires ValidDate(a) && ValidDate(b) && 1 <= a.year
    requires Before(a, b)
    ensures Ordinal(a) < Ordinal(b)
  {
    if a.year < b.year {
      DaysBeforeMonthMonotone(a.year, a.month, 13);
      MonthsFillYear(a.year);
      DaysBeforeYearMonotone(a.year, b.year);
    } else if a.month < b.month {
      DaysBeforeMonthMonotone(a.year, a.month, b.month);
    }
  }
}
