# Experience calculator: duration arithmetic and entry list

This project models the calculation core of the experience calculator, a
browser form. The user records employment stints. Each stint has a company
name, a start date and an end date. For each one the calculator shows a
years/months/days duration. Under the table it shows an overall total for
all stints. The model covers:

- **Calendar** (`calendar.dfy`): dates as decoded `(year, month, day)`
  triples, Gregorian month lengths, and the day-number timeline.
  `new Date(start) > new Date(end)` compares on this timeline. A lemma shows
  that this order is the calendar order.
- **Durations** (`durations.dfy`): the per-entry duration. The three fields
  are subtracted one by one. When the days come out negative, the result
  borrows the length of the month before the end date's month, as
  `new Date(y, m, 0).getDate()` gives it. When the months come out negative,
  it borrows twelve months.
- **Display** (`display.dfy`): the `"{y} years, {m} months, {d} days"`
  template, with JavaScript's decimal rendering of integers. The words are
  always plural, and a negative number keeps its minus sign. A lemma shows
  that the rendered text determines the duration.
- **Validation** (`validation.dfy`): the form check. A company name that
  `trim()` empties gives a `companyName` error. A start date after the end
  date gives a `date` error. The error map is built one check at a time.
- **Entries** (`entries.dfy`): a table row. It holds the form's fields and
  the duration text computed when the row was added.
- **Accumulator** (`accumulator.dfy`): the overall total. Each entry's
  duration is recomputed from its dates and added to running totals. After
  each entry, at most one fixed 30-day carry and then at most one 12-month
  carry are applied. The loop is proved against a fold (`Accumulate`). The
  fold keeps months in 0..11 and days below 30. It also preserves the total
  weight, `years*360 + months*30 + days`.
- **ExperienceList** (`experience_list.dfy`): the component state as a
  class. It holds the entry list, which add, delete and clear replace
  wholesale, and the error map of the last validation.

The 30-day carry in the accumulator differs from the calendar borrow in the
per-entry duration. Both rules are kept as the code has them. Three
consequences of the code are stated as lemmas:

- **Days can be negative.** 2024-01-31 to 2024-03-01 gives 0 years,
  1 month, −1 day, and 2023-01-31 to 2023-03-01 gives −2 days
  (`EndOfMonthBorrowGoesNegative`). The borrow adds the length of the month
  before the end month, which can be shorter than the start day's month.
- **The overall total can be negative too.** Its days field is bounded only
  above (below 30), not by 0: a 30-day entry followed by 2023-01-31 to
  2023-03-01 totals 0 years, 2 months, −2 days (`CarryAfterEachEntry`).
- **Year 0 borrows from 1900.** `new Date(y, m, 0)` reads the years 0 to 99
  as 1900 to 1999. For the years 1 to 99 the leap rule gives the same
  answer. For year 0 it does not: a borrow from February of year 0 takes
  28 days, although year 0 is a Gregorian leap year
  (`YearZeroBorrowsTwentyEight`). This is also why `ZeroOnlyForSameDate`
  excludes an end date in year 0. A date input in the form never yields
  year 0, because a valid date string has a year of at least 1. So the
  quirk and the exclusion matter only when the calculation is given year 0
  directly; the model keeps year 0 so that they can be stated.

## Model

| member | source | states |
|---|---|---|
| Calendar.DaysInMonth | src/app/appcomponents/ExperienceCalculator.jsx:31 | Gregorian month lengths: February has 29 days exactly in leap years and 28 otherwise; April, June, September and November have 30; the other months have 31 |
| Calendar.DayNumberOrder | src/app/appcomponents/ExperienceCalculator.jsx:47 | comparing the instants of two valid dates agrees with calendar order, in both directions; equal instants mean equal dates |
| Calendar.EarlierDateSmallerDayNumber | src/app/appcomponents/ExperienceCalculator.jsx:47 | a date strictly earlier in calendar order is a strictly earlier instant |
| Calendar.DaysBeforeMonthStep | src/app/appcomponents/ExperienceCalculator.jsx:47 | the day count of a date's instant steps exactly: January starts at 0, each month starts where the previous one ends, and December ends at the year's length |
| Durations.PreviousMonthLength | src/app/appcomponents/ExperienceCalculator.jsx:31 | the borrowed length is 28..31; a January end borrows December's 31 days; outside year 0 it is the Gregorian length of the month before the end month |
| Durations.CalendarDifference | src/app/appcomponents/ExperienceCalculator.jsx:19-40 | months lands in 0..11; years*12+months is the month span minus 1 exactly when the end day is before the start day; days is the day difference, plus the borrowed month length on a borrow, and is then below that length; days lies in -2..30; years >= 0 when start is on or before end; the same date gives 0/0/0 |
| Durations.DifferenceCharacterised | src/app/appcomponents/ExperienceCalculator.jsx:24-37 | a triple is the duration if and only if its months are in 0..11, its month count is the span less the day borrow, and its days are the day difference plus the borrowed length on a borrow |
| Durations.ZeroOnlyForSameDate | src/app/appcomponents/ExperienceCalculator.jsx:24-37 | for an end year other than 0, the duration is 0/0/0 if and only if the two dates are equal |
| Durations.YearZeroBorrowsTwentyEight | src/app/appcomponents/ExperienceCalculator.jsx:31 | the legacy year mapping makes February of year 0 borrow 28 days, so 0000-02-29 to 0000-03-01 comes out as 0/0/0 |
| Durations.AcmeExample | src/app/appcomponents/ExperienceCalculator.jsx:24-37 | 2020-01-15 to 2022-03-20 is 2 years, 2 months, 5 days |
| Durations.EndOfMonthBorrowGoesNegative | src/app/appcomponents/ExperienceCalculator.jsx:26-32 | January 31 to March 1 is 0 years, 1 month and -1 day in 2024, and -2 days in 2023 |
| Durations.BorrowFollowsCalendar | src/app/appcomponents/ExperienceCalculator.jsx:29-32 | the same day pair borrows 31 days after January and 28 after February 2023, giving 21 and 18 days |
| Display.NatToDecimal | src/app/appcomponents/ExperienceCalculator.jsx:39 | the text of a natural number is a non-empty digit string whose decimal value is the number, with no leading zero except for 0 itself |
| Display.IntToDecimal | src/app/appcomponents/ExperienceCalculator.jsx:39 | the text of an integer starts with '-' exactly when it is negative, and the digits after the sign denote its absolute value |
| Display.IntToDecimalInjective | src/app/appcomponents/ExperienceCalculator.jsx:39 | distinct integers get distinct texts |
| Display.RenderDuration | src/app/appcomponents/ExperienceCalculator.jsx:39 | the text opens with the years' decimal text followed by " years, ", its first character is '-' exactly when the years are negative, and it closes with " days"; RenderInjective shows the text determines the duration |
| Display.RenderInjective | src/app/appcomponents/ExperienceCalculator.jsx:39 | two durations with the same "{y} years, {m} months, {d} days" text are equal |
| Display.AlwaysPluralWords | src/app/appcomponents/ExperienceCalculator.jsx:39 | 1/1/1 is shown as "1 years, 1 months, 1 days" |
| Display.NegativeDaysRendered | src/app/appcomponents/ExperienceCalculator.jsx:129 | a total of 0/1/-2 is shown as "0 years, 1 months, -2 days" |
| Display.AcmeExampleRendered | src/app/appcomponents/ExperienceCalculator.jsx:19-40 | 2020-01-15 to 2022-03-20 is shown as "2 years, 2 months, 5 days" |
| Validation.TrimStart | src/app/appcomponents/ExperienceCalculator.jsx:44 | the result is a suffix of the input; everything removed is JavaScript white space or a line terminator; the result does not start with one |
| Validation.TrimEnd | src/app/appcomponents/ExperienceCalculator.jsx:44 | the result is a prefix of the input; everything removed is JavaScript white space or a line terminator; the result does not end with one |
| Validation.BlankIffAllTrimmable | src/app/appcomponents/ExperienceCalculator.jsx:44 | a name trims to the empty string if and only if every character of it is white space or a line terminator |
| Validation.FormErrors | src/app/appcomponents/ExperienceCalculator.jsx:43-49 | the companyName key is present exactly when the name is blank; the date key is present exactly when the start is after the end in calendar order; each key carries its message; the map is empty exactly when neither holds |
| Validation.ValidateForm | src/app/appcomponents/ExperienceCalculator.jsx:42-52 | builds exactly the error map above and reports success exactly when the name is not blank and the start is on or before the end |
| Entries.NewEntry | src/app/appcomponents/ExperienceCalculator.jsx:56-60 | the new row keeps the form's name and dates; for a form without errors it is well formed, meaning its duration text is the rendering of its own dates' duration |
| Accumulator.CarryStep | src/app/appcomponents/ExperienceCalculator.jsx:111-126 | one step of AddWithCarry, which models these lines: adding one entry's duration and applying the day carry and then the month carry keeps the weight years*360+months*30+days exactly, never lowers the years below the summed years, and keeps months in 0..11 and days below 30 when the totals were within those bounds and the entry has months <= 11 and days <= 30 |
| Accumulator.FoldInvariant | src/app/appcomponents/ExperienceCalculator.jsx:91-127 | after folding any prefix of per-entry durations (months <= 11, days <= 30) the totals have months in 0..11 and days below 30 and weigh exactly the sum of the prefix's weights |
| Accumulator.AccumulateInvariant | src/app/appcomponents/ExperienceCalculator.jsx:86-127 | after any list of entries the totals have months in 0..11 and days below 30, and weigh the sum of the entries' weights |
| Accumulator.FoldYearsNonNegative | src/app/appcomponents/ExperienceCalculator.jsx:91-127 | folding durations whose years are never negative never gives negative total years |
| Accumulator.AccumulatedYearsNonNegative | src/app/appcomponents/ExperienceCalculator.jsx:86-127 | over entries that each start on or before their end, the total years are never negative |
| Accumulator.AccumulateSnoc | src/app/appcomponents/ExperienceCalculator.jsx:91-127 | appending an entry to the list applies exactly one carry step (field-wise sum, day carry, month carry) to the totals of the list before it, with the new entry's recomputed duration |
| Accumulator.AccumulateExperience | src/app/appcomponents/ExperienceCalculator.jsx:86-130 | the loop over the list yields the fold of the entries' recomputed durations in list order, with months in 0..11, days below 30 and the entries' total weight; the empty list gives 0/0/0 |
| Accumulator.ThirtyDaysCarryIntoAMonth | src/app/appcomponents/ExperienceCalculator.jsx:116-120 | an entry of 30 calendar days keeps 30 days in its own duration, but the overall total turns them into 1 month |
| Accumulator.CarryAfterEachEntry | src/app/appcomponents/ExperienceCalculator.jsx:111-126 | carrying after each entry gives 0/2/-2 for a 30-day entry followed by a one-month-less-two-days entry, where the two entries' durations summed field by field (0/1/28) would not carry at all |
| ExperienceList.FilterOutIndex | src/app/appcomponents/ExperienceCalculator.jsx:79 | for an index in range the result is the list without that position, the rest in order; any other index gives the list unchanged |
| ExperienceList.ExperienceCalculator.constructor | src/app/appcomponents/ExperienceCalculator.jsx:11-17 | the list and the error map start empty |
| ExperienceList.ExperienceCalculator.ClearForm | src/app/appcomponents/ExperienceCalculator.jsx:64-71 | the errors are cleared, the list is untouched and stays well formed |
| ExperienceList.ExperienceCalculator.AddExperience | src/app/appcomponents/ExperienceCalculator.jsx:54-62 | with no errors, exactly one row is appended at the end, with its rendered duration, and the errors are cleared; otherwise the list is unchanged and the errors are the form's; the list stays well formed |
| ExperienceList.ExperienceCalculator.ClearExperiences | src/app/appcomponents/ExperienceCalculator.jsx:73-76 | the list and the errors become empty |
| ExperienceList.ExperienceCalculator.RemoveExperience | src/app/appcomponents/ExperienceCalculator.jsx:78-80 | only the position index is dropped and the others keep their order; an out-of-range index leaves the list unchanged |
| ExperienceList.ExperienceCalculator.OverallExperience | src/app/appcomponents/ExperienceCalculator.jsx:86-130 | the summary text is the rendering of the fold of the stored entries' durations |

## Left out

- FormErrors: an emptied date field is not modelled, because dates enter as decoded triples. In the code, clearing a date input makes that field ""; `new Date("")` is an invalid date, so the comparison at line 47 is false and no `date` error is set. The entry is then added with "NaN years, NaN months, NaN days", and the overall total renders as NaN. The validation does not catch an empty date.
- Date string parsing (`new Date("YYYY-MM-DD")` and the local-time getters) is not modelled. The string is parsed as UTC midnight but read back in local time, so the result depends on the time zone. Dates enter the model as already-decoded triples with a year in 0..9999, the range of the four-digit format. Entries hold these triples instead of the date strings.
- The form fields and `handleInputChange` are not modelled. `AddExperience` takes the form's values as a parameter.
- `ClearForm` does not model resetting the form fields to today's date, because that depends on the wall clock. It models only the reset of the error map.
- React's deferred state updates and the list captured by each handler's closure are not modelled. Each operation is a sequential update of the class's fields.
- JSX rendering, the widgets and the table markup are left out. This includes showing the summary row only when the list is non-empty. It is presentation only.
- PDF export is not part of this model. It does not appear in the component.
- JavaScript numbers are doubles. The model uses unbounded integers. For years up to 9999 and realistic list lengths, every value here is an exactly representable integer.
