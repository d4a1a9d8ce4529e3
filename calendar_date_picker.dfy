/**
 * `getDatesBetween` from the calendar date picker: every calendar day from
 * `start` to `end` inclusive, in order, or an error when `start` is after `end`.
 */
module CalendarDatePicker {
  import opened Wrappers
  import opened Calendar

  /** The one error the enumerator throws ("Start date must be before end date"). */
  datatype RangeError = StartAfterEnd

  /** The `n` consecutive days beginning with `start`. */
  function DaysFrom(start: CalendarDate, n: nat): (r: seq<CalendarDate>)
    ensures |r| == n
  {
    if n == 0 then [] else DaysFrom(start, n - 1) + [AddDays(start, n - 1)]
  }

  /** Number of days from `start` to `end`, both included (zero or less when `start` is after `end`). */
  function InclusiveDayCount(start: CalendarDate, end: CalendarDate): int {
    Ordinal(end) - Ordinal(start) + 1
  }

  /** What `getDatesBetween(start, end)` returns or throws. */
  function DatesBetween(start: CalendarDate, end: CalendarDate): Result<seq<CalendarDate>, RangeError> {
    if Before(end, start) then Failure(StartAfterEnd)
    else Success(DaysFrom(start, InclusiveDayCount(start, end)))
  }

  /**
   * The enumerator: a cursor starts at a copy of `start`; while it is not
   * after `end`, a copy of it is appended and it moves on by one day.
   */
  method GetDatesBetween(start: CalendarDate, end: CalendarDate) returns (r: Result<seq<CalendarDate>, RangeError>)
    ensures r == DatesBetween(start, end)
  {
    if Before(end, start) {
      return Failure(StartAfterEnd);
    }
    ghost var count := InclusiveDayCount(start, end);
    var dates: seq<CalendarDate> := [];
    var current := start;
    while !Before(end, current)
      invariant current == AddDays(start, |dates|)
      invariant Ordinal(current) == Ordinal(start) + |dates| <= Ordinal(end) + 1
      invariant dates == DaysFrom(start, |dates|)
      decreases Ordinal(end) - Ordinal(current)
    {
      DaysFromStep(start, |dates|);
      dates := dates + [current];
      current := AddOneDay(current);
    }
    assert |dates| == count;
    return Success(dates);
  }

  /** One more day extends the run by the day after its last. */
  lemma DaysFromStep(start: CalendarDate, n: nat)
    ensures DaysFrom(start, n + 1) == DaysFrom(start, n) + [AddDays(start, n)]
    ensures AddDays(start, n + 1) == AddOneDay(AddDays(start, n))
  {
  }

  /** The `k`-th day of the run is `k` days after its first. */
  lemma {:induction false} DaysFromAt(start: CalendarDate, n: nat, k: nat)
    requires k < n
    ensures DaysFrom(start, n)[k] == AddDays(start, k)
  {
    var prefix := DaysFrom(start, n - 1);
    assert DaysFrom(start, n) == prefix + [AddDays(start, n - 1)];
    if k < n - 1 {
      DaysFromAt(start, n - 1, k);
      assert DaysFrom(start, n)[k] == prefix[k];
    }
  }

  /** The enumerator fails exactly when `start` is after `end`. */
  lemma FailsExactlyWhenStartAfterEnd(start: CalendarDate, end: CalendarDate)
    ensures DatesBetween(start, end).Failure? <==> Ordinal(start) > Ordinal(end)
    ensures DatesBetween(start, end).Failure? ==> DatesBetween(start, end).error == StartAfterEnd
  {
  }

  /**
   * On a valid range the result has one entry per day, starts at `start`,
   * ends at `end`, steps one day at a time, and stays within the range.
   */
  lemma DatesBetweenIsTheRange(start: CalendarDate, end: CalendarDate)
    requires !Before(end, start)
    ensures DatesBetween(start, end).Success?
    ensures var dates := DatesBetween(start, end).value;
      && |dates| == Ordinal(end) - Ordinal(start) + 1
      && dates[0] == start
      && dates[|dates| - 1] == end
      && (forall k :: 0 <= k < |dates| ==> Ordinal(dates[k]) == Ordinal(start) + k)
      && (forall k :: 0 < k < |dates| ==> dates[k] == AddOneDay(dates[k - 1]))
      && (forall k :: 0 <= k < |dates| ==> !Before(dates[k], start) && !Before(end, dates[k]))
  {
    var n := InclusiveDayCount(start, end);
    var dates := DaysFrom(start, n);
    forall k | 0 <= k < n
      ensures dates[k] == AddDays(start, k)
    {
      DaysFromAt(start, n, k);
    }
    OrdinalInjective(dates[n - 1], end);
  }

  /** Consequently the result is strictly increasing, hence free of repeats. */
  lemma DatesBetweenStrictlyIncreasing(start: CalendarDate, end: CalendarDate, i: int, j: int)
    requires DatesBetween(start, end).Success?
    requires 0 <= i < j < |DatesBetween(start, end).value|
    ensures Before(DatesBetween(start, end).value[i], DatesBetween(start, end).value[j])
    ensures LexBefore(DatesBetween(start, end).value[i], DatesBetween(start, end).value[j])
  {
    var dates := DatesBetween(start, end).value;
    DatesBetweenIsTheRange(start, end);
    OrdinalOrderIsChronological(dates[i], dates[j]);
  }

  /** A range of one day gives that day alone (the error message's "before" notwithstanding). */
  lemma SameDayGivesOneDate(d: CalendarDate)
    ensures DatesBetween(d, d) == Success([d])
  {
    assert DaysFrom(d, 1) == [AddDays(d, 0)];
  }

  /** Across a month end, in any year (2024-01-30 to 2024-02-02, say). */
  lemma AcrossMonthEnd(y: int)
    ensures DatesBetween(Date(y, 1, 30), Date(y, 2, 2))
         == Success([Date(y, 1, 30), Date(y, 1, 31), Date(y, 2, 1), Date(y, 2, 2)])
  {
    var s: CalendarDate := Date(y, 1, 30);
    assert InclusiveDayCount(s, Date(y, 2, 2)) == 4;
    assert AddDays(s, 1) == Date(y, 1, 31);
    assert AddDays(s, 2) == Date(y, 2, 1);
    assert AddDays(s, 3) == Date(y, 2, 2);
    DaysFromAt(s, 4, 0); DaysFromAt(s, 4, 1); DaysFromAt(s, 4, 2); DaysFromAt(s, 4, 3);
    var e: CalendarDate := Date(y, 2, 2);
    assert DatesBetween(s, e) == Success(DaysFrom(s, 4));
    assert DaysFrom(s, 4) == [Date(y, 1, 30), Date(y, 1, 31), Date(y, 2, 1), Date(y, 2, 2)];
  }

  /** Across the leap day of a leap year (2024-02-28 to 2024-03-01, say). */
  lemma AcrossLeapDay(y: int)
    requires IsLeapYear(y)
    ensures DatesBetween(Date(y, 2, 28), Date(y, 3, 1))
         == Success([Date(y, 2, 28), Date(y, 2, 29), Date(y, 3, 1)])
  {
    var s: CalendarDate := Date(y, 2, 28);
    assert InclusiveDayCount(s, Date(y, 3, 1)) == 3;
    assert AddDays(s, 1) == Date(y, 2, 29);
    assert AddDays(s, 2) == Date(y, 3, 1);
    DaysFromAt(s, 3, 0); DaysFromAt(s, 3, 1); DaysFromAt(s, 3, 2);
    var e: CalendarDate := Date(y, 3, 1);
    assert DatesBetween(s, e) == Success(DaysFrom(s, 3));
    assert DaysFrom(s, 3) == [Date(y, 2, 28), Date(y, 2, 29), Date(y, 3, 1)];
  }

  /** In a common year the same range has no February 29th. */
  lemma AcrossCommonYearFebruaryEnd(y: int)
    requires !IsLeapYear(y)
    ensures DatesBetween(Date(y, 2, 28), Date(y, 3, 1)) == Success([Date(y, 2, 28), Date(y, 3, 1)])
  {
    var s: CalendarDate := Date(y, 2, 28);
    assert InclusiveDayCount(s, Date(y, 3, 1)) == 2;
    assert AddDays(s, 1) == Date(y, 3, 1);
    DaysFromAt(s, 2, 0); DaysFromAt(s, 2, 1);
    var e: CalendarDate := Date(y, 3, 1);
    assert DatesBetween(s, e) == Success(DaysFrom(s, 2));
    assert DaysFrom(s, 2) == [Date(y, 2, 28), Date(y, 3, 1)];
  }

  /**
   * The loop of `getDatesBetween` exactly as written, run for at most `fuel` rounds.
   * The date library's values are immutable: `currentDate.set(...)` returns
   * a new date and leaves `currentDate` as it was, and the loop discards
   * that return value. So the cursor never moves, and on any range with
   * `start <= end` the loop has not exited after any number of rounds.
   */
  method LoopAsWritten(start: CalendarDate, end: CalendarDate, fuel: nat) returns (dates: seq<CalendarDate>, exited: bool)
    ensures !Before(end, start) ==> !exited && |dates| == fuel && forall k :: 0 <= k < fuel ==> dates[k] == start
    ensures Before(end, start) ==> exited && dates == []
  {
    dates := [];
    var current := start;
    var rounds := 0;
    while Ordinal(current) <= Ordinal(end) && rounds < fuel
      invariant current == start
      invariant Before(end, start) ==> dates == []
      invariant rounds == |dates| <= fuel
      invariant forall k :: 0 <= k < |dates| ==> dates[k] == start
    {
      dates := dates + [current];
      var next := AddOneDay(current);
      // `currentDate.set(next)`: a new value is returned and dropped; `current` is unchanged.
      rounds := rounds + 1;
    }
    exited := Ordinal(current) > Ordinal(end);
  }
}
