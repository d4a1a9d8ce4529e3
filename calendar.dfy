/**
 * Calendar dates on the proleptic Gregorian calendar: the part of the date
 * library's date value (`copy`, `add({days: 1})`, comparison) that the
 * date-range enumerator relies on, written out as plain arithmetic.
 */
module Calendar {

  /** A year, month (1-12) and day of month; a `CalendarDate` is one that exists. */
  datatype Date = Date(year: int, month: int, day: int)

  /** Gregorian leap-year rule: every fourth year, but not centuries unless divisible by 400. */
  predicate IsLeapYear(y: int) {
    y % 4 == 0 && (y % 100 != 0 || y % 400 == 0)
  }

  function DaysInMonth(y: int, m: int): (n: int)
    requires 1 <= m <= 12
    ensures 28 <= n <= 31
    ensures m == 2 ==> (n == 29 <==> IsLeapYear(y))
  {
    if m == 2 then (if IsLeapYear(y) then 29 else 28)
    else if m == 4 || m == 6 || m == 9 || m == 11 then 30
    else 31
  }

  function DaysInYear(y: int): (n: int)
    ensures n == 365 || n == 366
    ensures n == 366 <==> IsLeapYear(y)
  {
    if IsLeapYear(y) then 366 else 365
  }

  predicate ValidDate(d: Date) {
    1 <= d.month <= 12 && 1 <= d.day <= DaysInMonth(d.year, d.month)
  }

  /** A date that exists on the calendar, as the library's date values always are. */
  type CalendarDate = d: Date | ValidDate(d) witness Date(2024, 1, 1)

  /**
   * Days from 0001-01-01 to new year's day of year `y` (negative before year 1),
   * counted year by year.
   */
  function DaysBeforeYear(y: int): int
    decreases if y < 1 then 1 - y else y - 1
  {
    if y == 1 then 0
    else if y > 1 then DaysBeforeYear(y - 1) + DaysInYear(y - 1)
    else DaysBeforeYear(y + 1) - DaysInYear(y)
  }

  /** Days in the months of year `y` before month `m`; `m == 13` gives the whole year. */
  function DaysBeforeMonth(y: int, m: int): int
    requires 1 <= m <= 13
  {
    var leap := if IsLeapYear(y) then 1 else 0;
    match m
    case 1 => 0
    case 2 => 31
    case 3 => 59 + leap
    case 4 => 90 + leap
    case 5 => 120 + leap
    case 6 => 151 + leap
    case 7 => 181 + leap
    case 8 => 212 + leap
    case 9 => 243 + leap
    case 10 => 273 + leap
    case 11 => 304 + leap
    case 12 => 334 + leap
    case _ => 365 + leap
  }

  /** The day number of a date: 0001-01-01 is day 1 and consecutive dates have consecutive numbers. */
  function Ordinal(d: CalendarDate): int {
    DaysBeforeYear(d.year) + DaysBeforeMonth(d.year, d.month) + d.day
  }

  /** The date library's `<` on dates, as day-number comparison. */
  predicate Before(a: CalendarDate, b: CalendarDate) {
    Ordinal(a) < Ordinal(b)
  }

  /** Chronological order spelled out field by field. */
  predicate LexBefore(a: Date, b: Date) {
    a.year < b.year
    || (a.year == b.year && a.month < b.month)
    || (a.year == b.year && a.month == b.month && a.day < b.day)
  }

  /** The date one day later, rolling over the month and the year. */
  function AddOneDay(d: CalendarDate): (r: CalendarDate)
    ensures Ordinal(r) == Ordinal(d) + 1
    ensures LexBefore(d, r)
  {
    if d.day < DaysInMonth(d.year, d.month) then
      Date(d.year, d.month, d.day + 1)
    else if d.month < 12 then
      MonthLength(d.year, d.month);
      Date(d.year, d.month + 1, 1)
    else
      YearLength(d.year);
      Date(d.year + 1, 1, 1)
  }

  /** The date `k` days after `d` (the library's `add({days: k})` for `k >= 0`). */
  function AddDays(d: CalendarDate, k: nat): (r: CalendarDate)
    ensures Ordinal(r) == Ordinal(d) + k
  {
    if k == 0 then d else AddOneDay(AddDays(d, k - 1))
  }

  lemma MonthLength(y: int, m: int)
    requires 1 <= m <= 12
    ensures DaysBeforeMonth(y, m + 1) == DaysBeforeMonth(y, m) + DaysInMonth(y, m)
  {
  }

  /** From one new year's day to the next there are exactly `DaysInYear` days. */
  lemma YearLength(y: int)
    ensures DaysBeforeYear(y + 1) == DaysBeforeYear(y) + DaysInYear(y)
  {
  }

  /** The usual closed form for the days before year `y`. */
  function ClosedFormDaysBeforeYear(y: int): int {
    var p := y - 1;
    365 * p + p / 4 - p / 100 + p / 400
  }

  lemma ClosedFormStep(y: int)
    ensures ClosedFormDaysBeforeYear(y + 1) == ClosedFormDaysBeforeYear(y) + DaysInYear(y)
  {
    DivNext(y - 1, 4);
    DivNext(y - 1, 100);
    DivNext(y - 1, 400);
    CenturiesAreQuadrennial(y);
  }

  /**
   * The year-by-year count agrees with the closed form: 365 days a year plus
   * one for every fourth year, except centuries not divisible by 400.
   */
  lemma {:induction false} DaysBeforeYearClosedForm(y: int)
    ensures DaysBeforeYear(y) == ClosedFormDaysBeforeYear(y)
    decreases if y < 1 then 1 - y else y - 1
  {
    if y > 1 {
      DaysBeforeYearClosedForm(y - 1);
      ClosedFormStep(y - 1);
    } else if y < 1 {
      DaysBeforeYearClosedForm(y + 1);
      ClosedFormStep(y);
    }
  }

  lemma CenturiesAreQuadrennial(n: int)
    ensures n % 100 == 0 ==> n % 4 == 0
    ensures n % 400 == 0 ==> n % 100 == 0
  {
    if n % 100 == 0 {
      DivWithRemainder(n, 4, 25 * (n / 100), 0);
    }
    if n % 400 == 0 {
      DivWithRemainder(n, 100, 4 * (n / 400), 0);
    }
  }

  /** Stepping the dividend by one raises the quotient exactly when it lands on a multiple. */
  lemma DivNext(p: int, k: int)
    requires k > 0
    ensures (p + 1) / k == p / k + (if (p + 1) % k == 0 then 1 else 0)
  {
    var q, r := p / k, p % k;
    if r == k - 1 {
      assert p + 1 == k * (q + 1);
      DivWithRemainder(p + 1, k, q + 1, 0);
    } else {
      assert p + 1 == k * q + (r + 1);
      DivWithRemainder(p + 1, k, q, r + 1);
    }
  }

  /** Quotient and remainder are unique. */
  lemma DivWithRemainder(n: int, k: int, q: int, r: int)
    requires k > 0 && 0 <= r < k && n == k * q + r
    ensures n / k == q && n % k == r
  {
    var q', r' := n / k, n % k;
    if q' < q {
      MulDistance(k, q, q');
    } else if q < q' {
      MulDistance(k, q', q);
    }
  }

  /** Multiples of `k` that differ are at least `k` apart. */
  lemma {:induction false} MulDistance(k: int, a: int, b: int)
    requires k > 0 && b < a
    ensures k * a - k * b >= k
    decreases a - b
  {
    if b + 1 < a {
      MulDistance(k, a, b + 1);
      assert k * (b + 1) == k * b + k;
    } else {
      assert k * a == k * b + k;
    }
  }

  lemma {:induction false} DaysBeforeYearGrows(y1: int, y2: int)
    requires y1 < y2
    ensures DaysBeforeYear(y1) + DaysInYear(y1) <= DaysBeforeYear(y2)
    decreases y2 - y1
  {
    YearLength(y1);
    if y1 + 1 < y2 {
      DaysBeforeYearGrows(y1 + 1, y2);
    }
  }

  /** A date's day number lies within its year. */
  lemma OrdinalWithinYear(d: CalendarDate)
    ensures DaysBeforeYear(d.year) < Ordinal(d) <= DaysBeforeYear(d.year) + DaysInYear(d.year)
  {
  }

  /** Day-number order is chronological (field-by-field) order. */
  lemma OrdinalOrderIsChronological(a: CalendarDate, b: CalendarDate)
    ensures Before(a, b) <==> LexBefore(a, b)
  {
    OrdinalWithinYear(a);
    OrdinalWithinYear(b);
    if a.year < b.year {
      DaysBeforeYearGrows(a.year, b.year);
    } else if b.year < a.year {
      DaysBeforeYearGrows(b.year, a.year);
    } else if a.month < b.month {
      MonthLength(a.year, a.month);
    } else if b.month < a.month {
      MonthLength(b.year, b.month);
    }
  }

  /** Two dates with the same day number are the same date. */
  lemma OrdinalInjective(a: CalendarDate, b: CalendarDate)
    requires Ordinal(a) == Ordinal(b)
    ensures a == b
  {
    OrdinalOrderIsChronological(a, b);
    OrdinalOrderIsChronological(b, a);
  }
}
