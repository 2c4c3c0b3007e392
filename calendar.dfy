// Proleptic-Gregorian calendar arithmetic, as Python's datetime and pandas'
// Timestamp perform it: validity, day of year, quarter, the day ordinal
// (0001-01-01 is day 1), adding whole days, and pandas' calendar-month offset.
module Calendar {
  import opened Wrappers

  datatype Date = Date(year: int, month: int, day: int)

  const MinYear: int := 1
  const MaxYear: int := 9999

  predicate IsLeap(y: int) {
    y % 4 == 0 && (y % 100 != 0 || y % 400 == 0)
  }

  function DaysInMonth(y: int, m: int): (n: int)
    requires 1 <= m <= 12
    ensures 28 <= n <= 31
    ensures n == 29 <==> m == 2 && IsLeap(y)
    ensures n == 28 <==> m == 2 && !IsLeap(y)
  {
    if m == 2 then (if IsLeap(y) then 29 else 28)
    else if m == 4 || m == 6 || m == 9 || m == 11 then 30
    else 31
  }

  /** A calendar date in year 1 or later; the year has no upper bound. */
  predicate WellFormed(d: Date) {
    MinYear <= d.year && 1 <= d.month <= 12 && 1 <= d.day <= DaysInMonth(d.year, d.month)
  }

  /** A date Python's datetime can represent (years 1 through 9999). */
  predicate Valid(d: Date) {
    WellFormed(d) && d.year <= MaxYear
  }

  /** Chronological order of dates, as datetime and Timestamp compare them. */
  predicate Before(a: Date, b: Date) {
    a.year < b.year ||
    (a.year == b.year && (a.month < b.month || (a.month == b.month && a.day < b.day)))
  }

  predicate NotAfter(a: Date, b: Date) {
    Before(a, b) || a == b
  }

  lemma BeforeIsTotal(a: Date, b: Date)
    ensures Before(a, b) || a == b || Before(b, a)
    ensures !(Before(a, b) && Before(b, a))
  {
  }

  function DaysBeforeYear(y: int): (n: int)
    requires y >= 1
    ensures n >= 0
  {
    var p := y - 1;
    365 * p + p / 4 - p / 100 + p / 400
  }

  function CumulativeDays(m: int): int
    requires 1 <= m <= 12
  {
    [0, 31, 59, 90, 120, 151, 181, 212, 243, 273, 304, 334][m - 1]
  }

  function DaysBeforeMonth(y: int, m: int): (n: int)
    requires 1 <= m <= 12
    ensures 0 <= n <= 335
  {
    CumulativeDays(m) + if m > 2 && IsLeap(y) then 1 else 0
  }

  /** Python's date.toordinal: 0001-01-01 is day 1. */
  function Ordinal(d: Date): int
    requires WellFormed(d)
  {
    DaysBeforeYear(d.year) + DaysBeforeMonth(d.year, d.month) + d.day
  }

  /** pandas' Timestamp.dayofyear. */
  function DayOfYear(d: Date): (n: int)
    requires WellFormed(d)
    ensures 1 <= n <= (if IsLeap(d.year) then 366 else 365)
    ensures n == Ordinal(d) - Ordinal(Date(d.year, 1, 1)) + 1
  {
    DaysBeforeMonth(d.year, d.month) + d.day
  }

  /** pandas' Timestamp.quarter. */
  function Quarter(m: int): (q: int)
    requires 1 <= m <= 12
    ensures 1 <= q <= 4
    ensures 3 * q - 2 <= m <= 3 * q
  {
    (m - 1) / 3 + 1
  }

  lemma DaysBeforeMonthStep(y: int, m: int)
    requires 1 <= m < 12
    ensures DaysBeforeMonth(y, m + 1) == DaysBeforeMonth(y, m) + DaysInMonth(y, m)
  {
  }

  /** Going from y - 1 to y, the count of multiples of k grows by one exactly
      when k divides y. */
  lemma MultiplesStep(y: int, k: int)
    requires k == 4 || k == 100 || k == 400
    ensures y / k - (y - 1) / k == if y % k == 0 then 1 else 0
  {
    var q, r := (y - 1) / k, (y - 1) % k;
    assert y - 1 == k * q + r && 0 <= r < k;
    if r == k - 1 {
      assert y == k * (q + 1);
    } else {
      assert y == k * q + (r + 1) && 0 < r + 1 < k;
    }
  }

  /** A multiple of 400 is a multiple of 100. */
  lemma Divides400(y: int)
    requires y % 400 == 0
    ensures y % 100 == 0
  {
    var t := y / 400;
    assert y == 400 * t;
    assert y == 100 * (4 * t);
  }

  /** A multiple of 100 is a multiple of 4. */
  lemma Divides100(y: int)
    requires y % 100 == 0
    ensures y % 4 == 0
  {
    var t := y / 100;
    assert y == 100 * t;
    assert y == 4 * (25 * t);
  }

  lemma DaysBeforeYearStep(y: int)
    requires y >= 1
    ensures DaysBeforeYear(y + 1) == DaysBeforeYear(y) + DaysBeforeMonth(y, 12) + DaysInMonth(y, 12)
  {
    MultiplesStep(y, 4);
    MultiplesStep(y, 100);
    MultiplesStep(y, 400);
    if y % 400 == 0 {
      Divides400(y);
    }
    if y % 100 == 0 {
      Divides100(y);
    }
  }

  lemma {:induction false} DaysBeforeYearMonotone(y1: int, y2: int)
    requires 1 <= y1 <= y2
    ensures DaysBeforeYear(y1) + 365 * (y2 - y1) <= DaysBeforeYear(y2)
    decreases y2 - y1
  {
    if y1 < y2 {
      DaysBeforeYearStep(y1);
      DaysBeforeYearMonotone(y1 + 1, y2);
    }
  }

  lemma {:induction false} DaysBeforeMonthMonotone(y: int, m1: int, m2: int)
    requires 1 <= m1 < m2 <= 12
    ensures DaysBeforeMonth(y, m1) + DaysInMonth(y, m1) <= DaysBeforeMonth(y, m2)
    decreases m2 - m1
  {
    DaysBeforeMonthStep(y, m1);
    if m1 + 1 < m2 {
      DaysBeforeMonthMonotone(y, m1 + 1, m2);
    }
  }

  /** The last day of a year is one day before the first of the next. */
  lemma YearEnd(d: Date)
    requires WellFormed(d)
    ensures Ordinal(d) < DaysBeforeYear(d.year + 1) + 1
  {
    DaysBeforeYearStep(d.year);
    if d.month < 12 {
      DaysBeforeMonthMonotone(d.year, d.month, 12);
    }
  }

  /** Chronological order is the order of ordinals, so Ordinal is injective. */
  lemma OrdinalOrder(a: Date, b: Date)
    requires WellFormed(a) && WellFormed(b)
    ensures Before(a, b) <==> Ordinal(a) < Ordinal(b)
    ensures a == b <==> Ordinal(a) == Ordinal(b)
  {
    if Before(a, b) {
      OrdinalLess(a, b);
    } else if Before(b, a) {
      OrdinalLess(b, a);
    }
  }

  lemma OrdinalLess(a: Date, b: Date)
    requires WellFormed(a) && WellFormed(b) && Before(a, b)
    ensures Ordinal(a) < Ordinal(b)
  {
    if a.year < b.year {
      YearEnd(a);
      DaysBeforeYearMonotone(a.year + 1, b.year);
    } else if a.month < b.month {
      DaysBeforeMonthMonotone(a.year, a.month, b.month);
    }
  }

  /** The first day of the month after d's month. */
  function NextMonthStart(d: Date): (r: Date)
    requires WellFormed(d)
    ensures WellFormed(r)
    ensures Ordinal(r) == Ordinal(d) + DaysInMonth(d.year, d.month) - d.day + 1
  {
    if d.month == 12 then
      DaysBeforeYearStep(d.year);
      Date(d.year + 1, 1, 1)
    else
      DaysBeforeMonthStep(d.year, d.month);
      Date(d.year, d.month + 1, 1)
  }

  /** d + timedelta(days=n), without the year bound: n days later on the calendar. */
  function Advance(d: Date, n: nat): (r: Date)
    requires WellFormed(d)
    ensures WellFormed(r)
    ensures Ordinal(r) == Ordinal(d) + n
    decreases n
  {
    var left := DaysInMonth(d.year, d.month) - d.day;
    if n <= left then Date(d.year, d.month, d.day + n)
    else Advance(NextMonthStart(d), n - left - 1)
  }

  /** datetime + timedelta(days=n); None where Python raises OverflowError. */
  function AddDays(d: Date, n: nat): (r: Option<Date>)
    requires Valid(d)
    ensures r.Some? ==> Valid(r.value) && Ordinal(r.value) == Ordinal(d) + n
    ensures r.None? <==> Ordinal(d) + n > Ordinal(Date(MaxYear, 12, 31))
  {
    var e := Advance(d, n);
    OrdinalOrder(e, Date(MaxYear, 12, 31));
    OrdinalOrder(Date(MaxYear, 12, 31), e);
    if e.year <= MaxYear then Some(e) else None
  }

  /** Adding more days never moves the date earlier, so an overflow at n days
      means an overflow at every larger count. */
  lemma AddDaysMonotone(d: Date, n1: nat, n2: nat)
    requires Valid(d) && n1 <= n2
    ensures Advance(d, n1).year <= Advance(d, n2).year
    ensures AddDays(d, n2).Some? ==> AddDays(d, n1).Some? && NotAfter(AddDays(d, n1).value, AddDays(d, n2).value)
  {
    var a, b := Advance(d, n1), Advance(d, n2);
    OrdinalOrder(a, b);
    OrdinalOrder(b, a);
  }

  /** d - pd.DateOffset(months=k): the same day k calendar months earlier,
      clamped to the length of the target month. The year is not bounded. */
  function SubtractMonths(d: Date, k: int): (r: Date)
    requires 1 <= d.month <= 12 && 1 <= d.day
    ensures 1 <= r.month <= 12 && 1 <= r.day <= DaysInMonth(r.year, r.month)
    ensures 12 * r.year + r.month == 12 * d.year + d.month - k
    ensures r.day <= d.day && (r.day < d.day ==> r.day == DaysInMonth(r.year, r.month))
  {
    var total := 12 * d.year + (d.month - 1) - k;
    var y := total / 12;
    var m := total % 12 + 1;
    var dim := DaysInMonth(y, m);
    Date(y, m, if d.day <= dim then d.day else dim)
  }

  /** Going back zero or more months never lands after the start date, and
      going back at least one month lands strictly before it. */
  lemma SubtractMonthsNotAfter(d: Date, k: int)
    requires WellFormed(d) && k >= 0
    ensures NotAfter(SubtractMonths(d, k), d)
    ensures k > 0 ==> Before(SubtractMonths(d, k), d)
  {
    var r := SubtractMonths(d, k);
    if k == 0 {
      assert r.year == d.year && r.month == d.month;
    } else {
      assert 12 * r.year + r.month < 12 * d.year + d.month;
    }
  }
}
