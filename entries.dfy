/** One row of the experience table: the form's fields spread into a record
    together with the rendered duration computed when the row was added. */
module Entries {
  import opened Calendar
  import opened Durations
  import opened Display
  import opened Validation

  datatype Entry = Entry(companyName: string, startDate: Date, endDate: Date, totalExperience: string)

  predicate HasValidDates(e: Entry) {
    ValidDate(e.startDate) && ValidDate(e.endDate)
  }

  /** A row as only a successful add creates it: a non-blank name, a start on
      or before the end, and the duration text of its own two dates. */
  predicate WellFormedEntry(e: Entry) {
    HasValidDates(e)
    && !IsBlank(e.companyName)
    && OnOrBefore(e.startDate, e.endDate)
    && e.totalExperience == RenderDuration(CalendarDifference(e.startDate, e.endDate))
  }

  /** `{ ...formData, totalExperience }`. */
  function NewEntry(form: FormData): (e: Entry)
    requires ValidDate(form.startDate) && ValidDate(form.endDate)
    ensures e.companyName == form.companyName
    ensures e.startDate == form.startDate && e.endDate == form.endDate
    ensures HasValidDates(e)
    ensures FormErrors(form) == map[] ==> WellFormedEntry(e)
  {
    Entry(form.companyName, form.startDate, form.endDate,
          RenderDuration(CalendarDifference(form.startDate, form.endDate)))
  }
}
