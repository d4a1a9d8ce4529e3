# skej event-creation page: a Dafny model

skej is a "When2Meet"-style scheduling page. The user chooses either
recurring weekdays or specific dates, and then enters availability time
ranges for each chosen day. Almost all of the code is view markup. This
project models the logic underneath it:

- **Date-range enumeration** (`getDatesBetween` in the calendar date
  picker). It lists every calendar day from a start date to an end date,
  inclusive and in order, and throws when the start is after the end.
  Module `CalendarDatePicker` models it. It relies on module `Calendar`,
  which supplies proleptic Gregorian dates: the leap-year rule, month and
  year rollover, and a day number (`Ordinal`, where 0001-01-01 is day 1).
  Dates are compared by that day number. `OrdinalOrderIsChronological`
  proves this order is the same as comparing year, then month, then day.
- **The page's state updaters** (`create/page.tsx`), each written as a
  function from the old value to the new one:
  - `Selection.Toggle`: check or uncheck a day.
  - `CreatePage.ChangedDateRange`: set one end of the picked date range.
  - `TimeRanges.AddTimeRange`, `TimeRanges.RemoveTimeRange` and
    `TimeRanges.HandleTimeChange`: edit one day's list of time ranges.
  - The classes `Page`, `General`, `Specific`, `DateRangePicker` and `Day`
    hold the state that each React component keeps. Their methods replace
    that state through the functions above.

The code throws a plain `Error("Start date must be before end date")`. The
model gives this error a name, `StartAfterEnd`. The enumerator is a `while`
loop over a cursor date. The model keeps that loop: the method
`GetDatesBetween` is proved equal to the reference function `DatesBetween`,
and the lemmas about `DatesBetween` state what the result looks like.

## Model

| member | source | states |
|---|---|---|
| `Calendar.AddOneDay` | src/app/components/CalendarDatePicker.tsx:118 | the next date is a valid date, exactly one day number later and chronologically later; rolls over month and year ends and respects the leap-year rule |
| `Calendar.AddDays` | src/app/components/CalendarDatePicker.tsx:115-118 | after k one-day steps the cursor is exactly k day numbers past where it started |
| `Calendar.YearLength` | src/app/components/CalendarDatePicker.tsx:118 | from one new year's day to the next there are 366 days in a leap year and 365 otherwise |
| `Calendar.DaysBeforeYearClosedForm` | src/app/components/CalendarDatePicker.tsx:118 | the year-by-year day count agrees with the Gregorian closed form 365(y-1) + (y-1)/4 - (y-1)/100 + (y-1)/400 |
| `Calendar.OrdinalOrderIsChronological` | src/app/components/CalendarDatePicker.tsx:108-115 | the date comparison the enumerator uses (day-number order) holds exactly when the first date is earlier by year, then month, then day |
| `Calendar.OrdinalInjective` | src/app/components/CalendarDatePicker.tsx:115 | two dates with the same day number are the same date, so "not after end" and "equal to end" agree at the last step |
| `CalendarDatePicker.GetDatesBetween` | src/app/components/CalendarDatePicker.tsx:105-122 | the loop returns the error when start is after end and otherwise the full inclusive run of days; it terminates with the day distance to end as variant |
| `CalendarDatePicker.DaysFromAt` | src/app/components/CalendarDatePicker.tsx:115-118 | the k-th date pushed is the start advanced by k days |
| `CalendarDatePicker.FailsExactlyWhenStartAfterEnd` | src/app/components/CalendarDatePicker.tsx:108-110 | the enumerator fails, with the start-after-end error and no dates, if and only if start is strictly after end |
| `CalendarDatePicker.DatesBetweenIsTheRange` | src/app/components/CalendarDatePicker.tsx:112-121 | on a valid range: length is the inclusive day count, the first date is start, the last is end, each date is the day after its predecessor, and all lie within [start, end] |
| `CalendarDatePicker.DatesBetweenStrictlyIncreasing` | src/app/components/CalendarDatePicker.tsx:115-118 | every earlier entry of the result is strictly before every later one, both by day number and chronologically |
| `CalendarDatePicker.SameDayGivesOneDate` | src/app/components/CalendarDatePicker.tsx:108-116 | start equal to end is accepted and yields exactly that one date |
| `CalendarDatePicker.AcrossMonthEnd` | src/app/components/CalendarDatePicker.tsx:115-119 | in every year, January 30 to February 2 gives Jan 30, Jan 31, Feb 1, Feb 2 |
| `CalendarDatePicker.AcrossLeapDay` | src/app/components/CalendarDatePicker.tsx:115-119 | in a leap year, February 28 to March 1 gives Feb 28, Feb 29, Mar 1 |
| `CalendarDatePicker.AcrossCommonYearFebruaryEnd` | src/app/components/CalendarDatePicker.tsx:115-119 | in a common year, February 28 to March 1 gives Feb 28, Mar 1 |
| `CalendarDatePicker.LoopAsWritten` | src/app/components/CalendarDatePicker.tsx:113-119 | the loop as written, whose cursor update is discarded, has not exited after any number of rounds on a range with start <= end, and has pushed start that many times |
| `Selection.RemoveAll` | src/app/create/page.tsx:67 | the filter keeps exactly the other days, with their multiplicities, and is the identity when the day is absent |
| `Selection.Toggle` | src/app/create/page.tsx:65-69 | the day ends up included if and only if it was absent; an absent day is appended at the end; a present day is removed everywhere and the other days keep their order and count |
| `Selection.RemoveAllIsSubsequence` | src/app/create/page.tsx:67 | filtering out a day keeps the remaining days in their original relative order |
| `Selection.ToggleKeepsNoDuplicates` | src/app/create/page.tsx:65-69 | a list without repeated days still has none after a toggle |
| `Selection.ToggleTwiceAbsent` | src/app/create/page.tsx:66-68 | toggling an absent day twice gives back the original list |
| `Selection.TogglePresentTwiceMovesToEnd` | src/app/create/page.tsx:66-68 | toggling a present day twice keeps the same set of days but moves that day to the end |
| `TimeRanges.SetField` | src/app/create/page.tsx:179 | the spread-and-override sets the named field to the value and leaves the other five fields as they were |
| `TimeRanges.FieldsDetermineRange` | src/app/create/page.tsx:155-162 | a time range is determined by its six fields |
| `TimeRanges.SetFieldTwice` | src/app/create/page.tsx:179 | a second write to the same field overrides the first |
| `TimeRanges.SetFieldUnchanged` | src/app/create/page.tsx:179 | writing a field's current value back changes nothing |
| `TimeRanges.AddTimeRange` | src/app/create/page.tsx:167-169 | the list grows by one, the existing entries are unchanged, and the new last entry is 12:00 am to 12:00 am |
| `TimeRanges.RemoveTimeRange` | src/app/create/page.tsx:171-173 | an index within the list removes exactly that entry (prefix plus suffix); any other index, negative or too large, leaves the list unchanged |
| `TimeRanges.RemoveTimeRangeShifts` | src/app/create/page.tsx:171-173 | removing by position shortens the list by one and moves every later entry up one position |
| `TimeRanges.RemoveAfterAdd` | src/app/create/page.tsx:167-173 | removing the entry just added restores the previous list |
| `TimeRanges.HandleTimeChange` | src/app/create/page.tsx:175-182 | the copied-then-written list has the same length; only the named field of the entry at the index changes, to the given value; every other entry and field is unchanged |
| `CreatePage.ChangedDateRange` | src/app/create/page.tsx:119-133 | with no range yet, both ends become the date whichever side was named; otherwise the named end becomes the date and the other end is kept |
| `CreatePage.PickStartThenEnd` | src/app/create/page.tsx:119-133 | from no range, a first pick of date a on either side and then end b gives exactly the range a to b |
| `CreatePage.RangeChangeCanInvert` | src/app/create/page.tsx:128-131 | the handler does not keep the range ordered: moving the start past the end gives a range whose start is after its end |
| `CreatePage.Page.constructor` | src/app/create/page.tsx:27 | the event type starts as "specific" |
| `CreatePage.Page.HandleSelectChange` | src/app/create/page.tsx:29-31 | the selected option's value becomes the event type |
| `CreatePage.General.constructor` | src/app/create/page.tsx:63 | no weekday is checked at first |
| `CreatePage.General.HandleCheckboxChange` | src/app/create/page.tsx:65-69 | the checked days become the toggle of the previous list, and the no-repeats invariant is kept |
| `CreatePage.Specific.constructor` | src/app/create/page.tsx:90 | no day is selected at first |
| `CreatePage.Specific.HandleSelectedDaysChange` | src/app/create/page.tsx:92-96 | the selected days become the toggle of the previous list, and the no-repeats invariant is kept |
| `CreatePage.DateRangePicker.constructor` | src/app/create/page.tsx:112-113 | no range at first, and the range flag is off |
| `CreatePage.DateRangePicker.HandleIsRangeChange` | src/app/create/page.tsx:115-117 | the range flag is negated and the range is untouched |
| `CreatePage.DateRangePicker.HandleDateRangeChange` | src/app/create/page.tsx:119-133 | the stored range becomes the changed range and is present from then on; the flag is untouched |
| `CreatePage.Day.constructor` | src/app/create/page.tsx:164-165 | a day card starts with its label and no time ranges |
| `CreatePage.Day.AddTimeRange` | src/app/create/page.tsx:167-169 | the day's list becomes the previous list with the default range appended |
| `CreatePage.Day.RemoveTimeRange` | src/app/create/page.tsx:171-173 | the day's list becomes the previous list without the entry at the index, or unchanged if the index is out of range |
| `CreatePage.Day.HandleTimeChange` | src/app/create/page.tsx:175-182 | only the entry at the index changes, to the old entry with the named field set; all other entries are unchanged |

## Findings

| source | as written | input that shows it | evidently intended | confidence | as-written member | corrected member |
|---|---|---|---|---|---|---|
| src/app/components/CalendarDatePicker.tsx:118 | `currentDate.set(currentDate.add({ days: 1 }))` throws away the value `set` returns. The loop ends only if `set` changes `currentDate` itself. The date values of react-aria (from `@internationalized/date`) are immutable, so `set` returns a new date and the cursor stays where it is. | start = end = 2024-01-30: the guard `currentDate <= end` stays true, and the loop pushes 2024-01-30 forever | cursor := cursor + 1 day, so the loop stops after end and returns [2024-01-30] | medium; not executed; depends on the date library's `set` returning a new value, and that library is not part of this model | `CalendarDatePicker.LoopAsWritten` | `CalendarDatePicker.GetDatesBetween` |

## Left out

- All JSX rendering and styling is left out, because it is view markup: the components' return bodies, `RoundButton`, `MyPopover` and the `CalendarDatePicker` component.
- `CalendarRangePicker.jsx`, `CalendarDateRangePicker.tsx` and `event/[id]/page.tsx` are left out. They are markup with no logic of their own.
- `TimeRangePicker.js` is left out. Its handlers only pass values on to react-stately, whose behaviour is not part of this model.
- The date library's `copy`, `add` and `set` are replaced by the model's own Gregorian arithmetic.
- Only plain calendar dates are modelled, not date-times or zoned date-times. Years before 1 count down through 0 (proleptic numbering), not by era.
- JavaScript's `>` and `<=` on two date objects compare the objects' primitive (string) forms. The model compares day numbers instead. This is the comparison the code evidently means, and it agrees with the ISO string order only for four-digit years.
- React's asynchronous, batched `setState` is not modelled. Each handler applies its updater function to the current state at once.
- Hours and minutes are unbounded integers. JavaScript floating point, `NaN` from `parseInt`, and the `NumberInput` `min`/`max` bounds are left out. Those bounds are enforced by the UI library.
- The event-name input and the minimum-time-block input hold no state in this code, so they are not modelled.
- `getDates` (create/page.tsx:136) is not modelled. It is computed but never used. Nothing wires `handleDateRangeChange` or `handleSelectedDaysChange` to a control, but both are modelled anyway.
- TimeRanges.HandleTimeChange: requires the index to be within the list. With an index past the end, JavaScript would grow the array, leaving holes and a partial record. It also requires a number for hour and minute fields and `'am'`/`'pm'` for period fields. The TypeScript signature allows other pairings, but every call site (create/page.tsx:221, :228, :250, :258, :264) pairs them this way.
- CreatePage.Day.HandleTimeChange: has the same two requirements, for the same reasons.
- Determinism of the enumerator (two calls give equal lists) is not stated as a separate lemma. It is immediate because `DatesBetween` is a function.
- Time ranges get no stable identifiers and no start-before-end check. The code removes ranges by position and validates nothing, and the model does the same.
