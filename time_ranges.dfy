/**
 * A day's availability: an ordered list of time-of-day ranges, each with a
 * start and an end hour, minute and am/pm marker, and the three updates the
 * page applies to that list.
 */
module TimeRanges {

  datatype Period = Am | Pm

  /** One availability range (`TimeRange` in the page). No order between start and end is enforced. */
  datatype TimeRange = TimeRange(
    startHour: int, startMinute: int,
    endHour: int, endMinute: int,
    startPeriod: Period, endPeriod: Period)

  /** The six field names `handleTimeChange` accepts. */
  datatype Field = StartHour | StartMinute | EndHour | EndMinute | StartPeriod | EndPeriod

  /** A new field value: a number for hours and minutes, `'am'`/`'pm'` for periods. */
  datatype FieldValue = Number(n: int) | PeriodValue(p: Period)

  predicate IsPeriodField(f: Field) {
    f == StartPeriod || f == EndPeriod
  }

  /** The value has the kind the field holds, as at every call site of `handleTimeChange`. */
  predicate Fits(f: Field, v: FieldValue) {
    IsPeriodField(f) <==> v.PeriodValue?
  }

  /** The range's value for one field (`range[field]`). */
  function Get(t: TimeRange, f: Field): (v: FieldValue)
    ensures Fits(f, v)
  {
    match f
    case StartHour => Number(t.startHour)
    case StartMinute => Number(t.startMinute)
    case EndHour => Number(t.endHour)
    case EndMinute => Number(t.endMinute)
    case StartPeriod => PeriodValue(t.startPeriod)
    case EndPeriod => PeriodValue(t.endPeriod)
  }

  /** `{ ...t, [f]: v }`: the field `f` now reads `v` and every other field reads as before. */
  function SetField(t: TimeRange, f: Field, v: FieldValue): (r: TimeRange)
    requires Fits(f, v)
    ensures Get(r, f) == v
    ensures forall g :: g != f ==> Get(r, g) == Get(t, g)
  {
    match f
    case StartHour => t.(startHour := v.n)
    case StartMinute => t.(startMinute := v.n)
    case EndHour => t.(endHour := v.n)
    case EndMinute => t.(endMinute := v.n)
    case StartPeriod => t.(startPeriod := v.p)
    case EndPeriod => t.(endPeriod := v.p)
  }

  /** A range is its six fields: two ranges that read the same everywhere are equal. */
  lemma FieldsDetermineRange(a: TimeRange, b: TimeRange)
    requires forall f :: Get(a, f) == Get(b, f)
    ensures a == b
  {
    assert Get(a, StartHour) == Get(b, StartHour);
    assert Get(a, StartMinute) == Get(b, StartMinute);
    assert Get(a, EndHour) == Get(b, EndHour);
    assert Get(a, EndMinute) == Get(b, EndMinute);
    assert Get(a, StartPeriod) == Get(b, StartPeriod);
    assert Get(a, EndPeriod) == Get(b, EndPeriod);
  }

  /** Writing a field twice keeps only the second write. */
  lemma SetFieldTwice(t: TimeRange, f: Field, v: FieldValue, w: FieldValue)
    requires Fits(f, v) && Fits(f, w)
    ensures SetField(SetField(t, f, v), f, w) == SetField(t, f, w)
  {
  }

  /** Writing a field's own value back changes nothing. */
  lemma SetFieldUnchanged(t: TimeRange, f: Field)
    ensures SetField(t, f, Get(t, f)) == t
  {
  }

  /** The range `addTimeRange` appends: 12:00 am to 12:00 am. */
  const DefaultTimeRange := TimeRange(12, 0, 12, 0, Am, Am)

  /** `addTimeRange`: the list grows by one default range at the end, the rest unchanged. */
  function AddTimeRange(prev: seq<TimeRange>): (r: seq<TimeRange>)
    ensures |r| == |prev| + 1
    ensures r[..|prev|] == prev
    ensures r[|prev|] == DefaultTimeRange
  {
    prev + [DefaultTimeRange]
  }

  /**
   * `removeTimeRange(index)`: `prev.filter((_, i) => i !== index)`, keeping every
   * entry whose position is not `index`. Written as that filter, one position at a time.
   */
  function RemoveTimeRange(prev: seq<TimeRange>, index: int): (r: seq<TimeRange>)
    ensures 0 <= index < |prev| ==> r == prev[..index] + prev[index + 1..]
    ensures !(0 <= index < |prev|) ==> r == prev
  {
    if prev == [] then []
    else
      var last := |prev| - 1;
      assert prev == prev[..last] + [prev[last]];
      RemoveTimeRange(prev[..last], index) + (if last == index then [] else [prev[last]])
  }

  /** Removing by position: one fewer entry, the later ones each move up one place. */
  lemma RemoveTimeRangeShifts(prev: seq<TimeRange>, index: int)
    requires 0 <= index < |prev|
    ensures |RemoveTimeRange(prev, index)| == |prev| - 1
    ensures forall j :: 0 <= j < index ==> RemoveTimeRange(prev, index)[j] == prev[j]
    ensures forall j :: index <= j < |prev| - 1 ==> RemoveTimeRange(prev, index)[j] == prev[j + 1]
  {
  }

  /** Removing the range just added gives back the list as it was. */
  lemma RemoveAfterAdd(prev: seq<TimeRange>)
    ensures RemoveTimeRange(AddTimeRange(prev), |prev|) == prev
  {
  }

  /**
   * `handleTimeChange(index, field, value)`: copy the list, then overwrite the
   * one entry at `index` with a copy that has `field` set to `value`. Only
   * that field of that entry changes.
   */
  method HandleTimeChange(prev: seq<TimeRange>, index: nat, field: Field, value: FieldValue)
    returns (updated: seq<TimeRange>)
    requires index < |prev|
    requires Fits(field, value)
    ensures |updated| == |prev|
    ensures forall j :: 0 <= j < |prev| && j != index ==> updated[j] == prev[j]
    ensures Get(updated[index], field) == value
    ensures forall g :: g != field ==> Get(updated[index], g) == Get(prev[index], g)
  {
    var copy := new TimeRange[|prev|](j requires 0 <= j < |prev| => prev[j]);
    copy[index] := SetField(copy[index], field, value);
    updated := copy[..];
  }
}
