/** The form the user fills in and the check run on it before an entry is
    added: a company name that trims to nothing and a start date after the
    end date are each reported under their own key. */
module Validation {
  import opened Calendar

  /** The form's three fields, the dates already decoded from "YYYY-MM-DD". */
  datatype FormData = FormData(companyName: string, startDate: Date, endDate: Date)

  /** The keys of the error map: `companyName` and `date`. */
  datatype Field = CompanyName | DateRange

  const CompanyNameRequired := "Company Name is required"
  const StartAfterEnd := "Start Date cannot be greater than End Date"

  /** The characters `String.prototype.trim` strips: JavaScript's white space
      (tab, vertical tab, form feed, the byte order mark and the space
      separators) and its line terminators. */
  predicate IsTrimmable(c: char) {
    ('\U{9}' <= c <= '\U{D}')
    || c == ' ' || c == '\U{A0}' || c == '\U{1680}'
    || ('\U{2000}' <= c <= '\U{200A}')
    || c == '\U{2028}' || c == '\U{2029}' || c == '\U{202F}' || c == '\U{205F}'
    || c == '\U{3000}' || c == '\U{FEFF}'
  }

  /** s without its leading trimmable characters. */
  function TrimStart(s: string): (r: string)
    ensures |r| <= |s| && r == s[|s| - |r|..]
    ensures forall i :: 0 <= i < |s| - |r| ==> IsTrimmable(s[i])
    ensures r == [] || !IsTrimmable(r[0])
  {
    if s != [] && IsTrimmable(s[0]) then TrimStart(s[1..]) else s
  }

  /** s without its trailing trimmable characters. */
  function TrimEnd(s: string): (r: string)
    ensures |r| <= |s| && r == s[..|r|]
    ensures forall i :: |r| <= i < |s| ==> IsTrimmable(s[i])
    ensures r == [] || !IsTrimmable(r[|r| - 1])
  {
    if s != [] && IsTrimmable(s[|s| - 1]) then TrimEnd(s[..|s| - 1]) else s
  }

  function Trim(s: string): string {
    TrimEnd(TrimStart(s))
  }

  /** `!s.trim()`: the trimmed string is the empty, falsy one. */
  predicate IsBlank(s: string) {
    Trim(s) == []
  }

  /** A name is blank exactly when every character of it is trimmable. */
  lemma BlankIffAllTrimmable(s: string)
    ensures IsBlank(s) <==> forall i :: 0 <= i < |s| ==> IsTrimmable(s[i])
  {
    var t := TrimStart(s);
    if IsBlank(s) {
      assert t == [];
    }
  }

  /** `new Date(start) > new Date(end)`: the start instant is later. */
  predicate StartsAfterEnd(form: FormData)
    requires ValidDate(form.startDate) && ValidDate(form.endDate)
  {
    DayNumber(form.startDate) > DayNumber(form.endDate)
  }

  /** The errors the form is rejected with; the empty map accepts it. */
  function FormErrors(form: FormData): (errors: map<Field, string>)
    requires ValidDate(form.startDate) && ValidDate(form.endDate)
    ensures CompanyName in errors <==> IsBlank(form.companyName)
    ensures DateRange in errors <==> !OnOrBefore(form.startDate, form.endDate)
    ensures CompanyName in errors ==> errors[CompanyName] == CompanyNameRequired
    ensures DateRange in errors ==> errors[DateRange] == StartAfterEnd
    ensures errors == map[] <==> !IsBlank(form.companyName) && OnOrBefore(form.startDate, form.endDate)
  {
    DayNumberOrder(form.startDate, form.endDate);
    var nameErrors: map<Field, string> :=
      if IsBlank(form.companyName) then map[CompanyName := CompanyNameRequired] else map[];
    if StartsAfterEnd(form) then nameErrors[DateRange := StartAfterEnd] else nameErrors
  }

  /** Builds the error map one check at a time, as the form handler does. */
  method ValidateForm(form: FormData) returns (newErrors: map<Field, string>, ok: bool)
    requires ValidDate(form.startDate) && ValidDate(form.endDate)
    ensures newErrors == FormErrors(form)
    ensures ok <==> !IsBlank(form.companyName) && OnOrBefore(form.startDate, form.endDate)
  {
    newErrors := map[];
    if IsBlank(form.companyName) {
      newErrors := map[CompanyName := CompanyNameRequired];
    }
    if StartsAfterEnd(form) {
      newErrors := newErrors[DateRange := StartAfterEnd];
    }
    ok := |newErrors.Keys| == 0;
  }
}
