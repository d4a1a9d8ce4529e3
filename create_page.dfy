/**
 * The event-creation page's local state: the event type, the checked
 * weekdays, the selected specific days, the date-range picker's range and
 * range flag, and each day's list of time ranges; with the handlers that
 * replace that state.
 */
module CreatePage {
  import opened Wrappers
  import opened Calendar
  import opened Selection
  import opened TimeRanges

  /** A picked span of days (`DateRange` in the page); `start <= end` is not enforced. */
  datatype DateRange = DateRange(start: CalendarDate, end: CalendarDate)

  /** Which end of the range a picker edits (`'start' | 'end'`). */
  datatype Side = Start | End

  function Other(side: Side): Side {
    if side == Start then End else Start
  }

  function Endpoint(r: DateRange, side: Side): CalendarDate {
    if side == Start then r.start else r.end
  }

  /**
   * `handleDateRangeChange(side, date)`: with no range yet, both ends become
   * `date`, whichever side was named; otherwise the named end becomes `date`
   * and the other end is kept.
   */
  function ChangedDateRange(prev: Option<DateRange>, side: Side, date: CalendarDate): (r: DateRange)
    ensures prev.None? ==> r.start == date && r.end == date
    ensures prev.Some? ==> Endpoint(r, side) == date && Endpoint(r, Other(side)) == Endpoint(prev.value, Other(side))
  {
    match prev
    case None => DateRange(date, date)
    case Some(range) =>
      if side == Start then range.(start := date) else range.(end := date)
  }

  /** Starting from no range, picking a start and then an end gives exactly that range. */
  lemma PickStartThenEnd(first: Side, a: CalendarDate, b: CalendarDate)
    ensures ChangedDateRange(Some(ChangedDateRange(None, first, a)), End, b) == DateRange(a, b)
  {
  }

  /** The handler does not keep the range ordered: a later start can pass the end. */
  lemma RangeChangeCanInvert(range: DateRange, date: CalendarDate)
    requires Before(range.end, date)
    ensures Before(ChangedDateRange(Some(range), Start, date).end, ChangedDateRange(Some(range), Start, date).start)
  {
  }

  /** The page's top-level state: which kind of event is being scheduled. */
  class Page {
    var eventType: string

    constructor ()
      ensures eventType == "specific"
    {
      eventType := "specific";
    }

    /** `handleSelectChange`: the selected option's value becomes the event type. */
    method HandleSelectChange(value: string)
      modifies this
      ensures eventType == value
    {
      eventType := value;
    }
  }

  /** Recurring events: the checked weekdays, in the order they were checked. */
  class General {
    var checkedDays: seq<DayName>

    /** The list never holds a day twice (each day keys one rendered `Day`). */
    ghost predicate Valid()
      reads this
    {
      NoDuplicates(checkedDays)
    }

    constructor ()
      ensures Valid() && checkedDays == []
    {
      checkedDays := [];
    }

    /** `handleCheckboxChange(day)`. */
    method HandleCheckboxChange(day: DayName)
      requires Valid()
      modifies this
      ensures Valid()
      ensures checkedDays == Toggle(old(checkedDays), day)
    {
      ToggleKeepsNoDuplicates(checkedDays, day);
      checkedDays := Toggle(checkedDays, day);
    }
  }

  /** Specific-date events: the selected days, in the order they were selected. */
  class Specific {
    var selectedDays: seq<DayName>

    ghost predicate Valid()
      reads this
    {
      NoDuplicates(selectedDays)
    }

    constructor ()
      ensures Valid() && selectedDays == []
    {
      selectedDays := [];
    }

    /** `handleSelectedDaysChange(day)`. */
    method HandleSelectedDaysChange(day: DayName)
      requires Valid()
      modifies this
      ensures Valid()
      ensures selectedDays == Toggle(old(selectedDays), day)
    {
      ToggleKeepsNoDuplicates(selectedDays, day);
      selectedDays := Toggle(selectedDays, day);
    }
  }

  /** The date-range picker: whether a range (rather than one date) is wanted, and the range so far. */
  class DateRangePicker {
    var isRange: bool
    var dateRange: Option<DateRange>

    constructor ()
      ensures !isRange && dateRange == None
    {
      isRange := false;
      dateRange := None;
    }

    /** `handleIsRangeChange`: flips the flag and leaves the range alone. */
    method HandleIsRangeChange()
      modifies this
      ensures isRange == !old(isRange)
      ensures dateRange == old(dateRange)
    {
      isRange := !isRange;
    }

    /** `handleDateRangeChange(side, date)`: the range is always present afterwards. */
    method HandleDateRangeChange(side: Side, date: CalendarDate)
      modifies this
      ensures dateRange == Some(ChangedDateRange(old(dateRange), side, date))
      ensures isRange == old(isRange)
    {
      dateRange := Some(ChangedDateRange(dateRange, side, date));
    }
  }

  /** One day's card: its label and its list of time ranges. */
  class Day {
    const day: DayName
    var timeRanges: seq<TimeRange>

    constructor (day: DayName)
      ensures this.day == day && timeRanges == []
    {
      this.day := day;
      timeRanges := [];
    }

    /** `addTimeRange`. */
    method AddTimeRange()
      modifies this
      ensures timeRanges == TimeRanges.AddTimeRange(old(timeRanges))
    {
      timeRanges := TimeRanges.AddTimeRange(timeRanges);
    }

    /** `removeTimeRange(index)`. */
    method RemoveTimeRange(index: int)
      modifies this
      ensures timeRanges == TimeRanges.RemoveTimeRange(old(timeRanges), index)
    {
      timeRanges := TimeRanges.RemoveTimeRange(timeRanges, index);
    }

    /** `handleTimeChange(index, field, value)`: only `field` of entry `index` changes. */
    method HandleTimeChange(index: nat, field: Field, value: FieldValue)
      requires index < |timeRanges|
      requires Fits(field, value)
      modifies this
      ensures |timeRanges| == |old(timeRanges)|
      ensures forall j :: 0 <= j < |timeRanges| && j != index ==> timeRanges[j] == old(timeRanges)[j]
      ensures timeRanges[index] == SetField(old(timeRanges)[index], field, value)
    {
      var updated := TimeRanges.HandleTimeChange(timeRanges, index, field, value);
      FieldsDetermineRange(updated[index], SetField(timeRanges[index], field, value));
      timeRanges := updated;
    }
  }
}
