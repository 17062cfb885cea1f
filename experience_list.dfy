/** The calculator's state: the list of entries, replaced wholesale on every
    add, delete and clear, and the error map of the last validation. */
module ExperienceList {
  import opened Calendar
  import opened Durations
  import opened Display
  import opened Validation
  import opened Entries
  import opened Accumulator

  /** `list.filter((_, i) => i !== index)`: one pass keeping every position but index. */
  method FilterOutIndex<T>(list: seq<T>, index: int) returns (kept: seq<T>)
    ensures 0 <= index < |list| ==> kept == list[..index] + list[index + 1..]
    ensures !(0 <= index < |list|) ==> kept == list
  {
    kept := [];
    for i := 0 to |list|
      invariant kept == if 0 <= index < i then list[..index] + list[index + 1..i] else list[..i]
    {
      if i != index {
        if 0 <= index < i {
          assert list[index + 1..i + 1] == list[index + 1..i] + [list[i]];
        } else {
          assert list[..i + 1] == list[..i] + [list[i]];
        }
        kept := kept + [list[i]];
      } else {
        assert list[index + 1..i + 1] == [];
      }
    }
    assert list[..|list|] == list;
  }

  /** Appending a well-formed row to a list of well-formed rows keeps every row well formed. */
  lemma AppendWellFormed(list: seq<Entry>, e: Entry)
    requires forall i :: 0 <= i < |list| ==> WellFormedEntry(list[i])
    requires WellFormedEntry(e)
    ensures forall i :: 0 <= i < |list + [e]| ==> WellFormedEntry((list + [e])[i])
  {
  }

  class ExperienceCalculator {
    var experiences: seq<Entry>
    var errors: map<Field, string>

    /** Every stored row is one a successful add produced. */
    ghost predicate Valid()
      reads this
    {
      forall i :: 0 <= i < |experiences| ==> WellFormedEntry(experiences[i])
    }

    constructor ()
      ensures Valid()
      ensures experiences == [] && errors == map[]
    {
      experiences := [];
      errors := map[];
    }

    /** The error reset of clearing the form; the form fields themselves are
        reset to the current date, which this model does not hold. */
    method ClearForm()
      requires Valid()
      modifies this
      ensures Valid()
      ensures errors == map[]
      ensures experiences == old(experiences)
    {
      errors := map[];
    }

    /** Validates the form; on success appends its entry and clears the errors. */
    method AddExperience(form: FormData)
      requires Valid()
      requires ValidDate(form.startDate) && ValidDate(form.endDate)
      modifies this
      ensures Valid()
      ensures FormErrors(form) == map[] ==>
                experiences == old(experiences) + [NewEntry(form)] && errors == map[]
      ensures FormErrors(form) != map[] ==>
                experiences == old(experiences) && errors == FormErrors(form)
    {
      var newErrors, ok := ValidateForm(form);
      errors := newErrors;
      if !ok {
        return;
      }
      var entry := NewEntry(form);
      AppendWellFormed(experiences, entry);
      experiences := experiences + [entry];
      ClearForm();
    }

    /** Empties the list and clears the form's errors. */
    method ClearExperiences()
      modifies this
      ensures Valid()
      ensures experiences == [] && errors == map[]
    {
      experiences := [];
      ClearForm();
    }

    /** Drops the row at index; any other index leaves the list as it was. */
    method RemoveExperience(index: int)
      requires Valid()
      modifies this
      ensures Valid()
      ensures 0 <= index < |old(experiences)| ==>
                experiences == old(experiences)[..index] + old(experiences)[index + 1..]
      ensures !(0 <= index < |old(experiences)|) ==> experiences == old(experiences)
      ensures errors == old(errors)
    {
      experiences := FilterOutIndex(experiences, index);
    }

    /** The summary line's text: the accumulated totals of the whole list. */
    method OverallExperience() returns (summary: string)
      requires Valid()
      ensures summary == RenderDuration(Accumulate(experiences))
    {
      var total := AccumulateExperience(experiences);
      summary := RenderDuration(total);
    }
  }
}
