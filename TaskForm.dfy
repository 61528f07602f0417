/** The create/edit task form: prefilling, field validation, error clearing and submit gating. */
module TaskForm {
  import opened Common

  datatype Field = Title | Description | DueDate

  /** The form's text fields; `dueDate` holds the date input's "YYYY-MM-DD" text, or "" when none is chosen. */
  datatype FormData = FormData(title: string, description: string, dueDate: string) {
    function Get(f: Field): string {
      match f
      case Title => title
      case Description => description
      case DueDate => dueDate
    }

    /** `{...formData, [name]: value}`. */
    function With(f: Field, value: string): (r: FormData)
      ensures r.Get(f) == value
      ensures forall g :: g != f ==> r.Get(g) == Get(g)
    {
      match f
      case Title => this.(title := value)
      case Description => this.(description := value)
      case DueDate => this.(dueDate := value)
    }
  }

  const TitleRequired: string := "Task title is required"
  const TitleTooShort: string := "Title must be at least 3 characters long"
  const DueDateInPastMessage: string := "Due date cannot be in the past"

  // ---------------------------------------------------------------------------------------------
  // Prefill from the task being edited

  /** `s.split(sep)[0]`: everything before the first `sep`, or all of `s` when there is none. */
  function BeforeFirst(s: string, sep: char): (r: string)
    ensures IsPrefix(r, s) && sep !in r
    ensures |r| < |s| ==> s[|r|] == sep
  {
    if s == [] then []
    else if s[0] == sep then []
    else [s[0]] + BeforeFirst(s[1..], sep)
  }

  /** The prefill effect: missing text fields become "", and the due date keeps its part before the first 'T'. */
  function Prefill(task: Task): (f: FormData)
    ensures f.title == task.title
    ensures f.description == task.description.GetOr("")
    ensures task.dueDate.None? ==> f.dueDate == ""
    ensures task.dueDate.Some? ==> f.dueDate == BeforeFirst(task.dueDate.value.text, 'T')
    ensures task.dueDate.Some? ==> IsPrefix(f.dueDate, task.dueDate.value.text) && 'T' !in f.dueDate
  {
    FormData(task.title, task.description.GetOr(""),
             match task.dueDate
             case None => ""
             case Some(d) => BeforeFirst(d.text, 'T'))
  }

  // ---------------------------------------------------------------------------------------------
  // The validation rules

  /** The characters `String.prototype.trim` removes: ECMAScript WhiteSpace and LineTerminator. */
  predicate IsJsSpace(c: char) {
    c in {'\t', '\n', '\U{0B}', '\U{0C}', '\r', ' ', '\U{A0}', '\U{1680}', '\U{2028}', '\U{2029}',
          '\U{202F}', '\U{205F}', '\U{3000}', '\U{FEFF}'} || ('\U{2000}' <= c <= '\U{200A}')
  }

  /** `s.trim()`. */
  function Trim(s: string): (r: string)
    decreases |s|
  {
    if s == [] then []
    else if IsJsSpace(s[0]) then Trim(s[1..])
    else if IsJsSpace(s[|s| - 1]) then Trim(s[..|s| - 1])
    else s
  }

  /** `!s.trim()` holds exactly for strings made only of white space. */
  lemma {:induction false} TrimEmptyIff(s: string)
    ensures Trim(s) == "" <==> forall i :: 0 <= i < |s| ==> IsJsSpace(s[i])
    decreases |s|
  {
    if s != [] {
      if IsJsSpace(s[0]) {
        TrimEmptyIff(s[1..]);
        assert forall i :: 1 <= i < |s| ==> s[i] == s[1..][i - 1];
      } else if IsJsSpace(s[|s| - 1]) {
        TrimEmptyIff(s[..|s| - 1]);
        assert !IsJsSpace(s[..|s| - 1][0]);
      }
    }
  }

  /** The title rule: blank gives the 'required' error, otherwise fewer than 3 characters (untrimmed) gives
      the length error. */
  function TitleError(title: string): Option<string> {
    if Trim(title) == "" then Some(TitleRequired)
    else if |title| < 3 then Some(TitleTooShort)
    else None
  }

  lemma TitleRules(title: string)
    ensures TitleError(title) == Some(TitleRequired) <==> forall i :: 0 <= i < |title| ==> IsJsSpace(title[i])
    ensures TitleError(title) == Some(TitleTooShort) <==>
      (exists i :: 0 <= i < |title| && !IsJsSpace(title[i])) && |title| < 3
    ensures TitleError(title) == None <==> (exists i :: 0 <= i < |title| && !IsJsSpace(title[i])) && |title| >= 3
  {
    TrimEmptyIff(title);
  }

  /** The start of the local calendar day containing `now`, as an instant. */
  function StartOfToday(now: int, offset: int): (start: int)
    ensures start <= now < start + MsPerDay
    ensures (start + offset) % MsPerDay == 0 && CalendarDay(start, offset) == CalendarDay(now, offset)
  {
    CalendarDaySpan(now, offset);
    CalendarDay(now, offset) * MsPerDay - offset
  }

  /** The due-date rule as the code evaluates it: `new Date("YYYY-MM-DD")` is midnight UTC of that date, and it
      is compared with the local start of today. `day` is the date's day number, None when the text does not
      parse (an invalid date compares false). */
  predicate DueDateInPastAsWritten(day: Option<int>, now: int, offset: int) {
    day.Some? && day.value * MsPerDay < StartOfToday(now, offset)
  }

  /** West of UTC (negative offsets of less than a day) the as-written rule also rejects today's date. */
  lemma AsWrittenRejectsToday(now: int, offset: int)
    requires -MsPerDay < offset < 0
    ensures DueDateInPastAsWritten(Some(CalendarDay(now, offset)), now, offset)
  {
  }

  /** The rule the error message states: the chosen calendar date is before today's. */
  predicate DueDateInPast(day: Option<int>, now: int, offset: int) {
    day.Some? && day.value < CalendarDay(now, offset)
  }

  /** Today and later dates are accepted; every earlier date is rejected. At UTC and east of it the code
      already behaves this way. */
  lemma DueDateInPastRules(day: int, now: int, offset: int)
    ensures DueDateInPast(Some(day), now, offset) <==> day < CalendarDay(now, offset)
    ensures !DueDateInPast(None, now, offset)
    ensures 0 <= offset < MsPerDay ==>
      (DueDateInPast(Some(day), now, offset) <==> DueDateInPastAsWritten(Some(day), now, offset))
  {
    if 0 <= offset < MsPerDay {
      var today := CalendarDay(now, offset);
      if day < today {
        MulMonotone(MsPerDay, day, today - 1);
      } else {
        MulMonotone(MsPerDay, today, day);
      }
    }
  }

  /** The `newErrors` object `validateForm` builds. */
  function Errors(form: FormData, day: Option<int>, now: int, offset: int): (e: map<Field, string>)
    ensures Description !in e
    ensures Title in e <==> TitleError(form.title).Some?
    ensures Title in e ==> e[Title] == TitleError(form.title).value
    ensures DueDate in e <==> form.dueDate != "" && DueDateInPast(day, now, offset)
    ensures DueDate in e ==> e[DueDate] == DueDateInPastMessage
  {
    var titleErrors := match TitleError(form.title)
      case Some(msg) => map[Title := msg]
      case None => map[];
    if form.dueDate != "" && DueDateInPast(day, now, offset) then titleErrors[DueDate := DueDateInPastMessage]
    else titleErrors
  }

  /** The form is valid exactly when the title is non-blank with at least 3 characters and the due date is
      empty or not before today. */
  lemma ValidIff(form: FormData, day: Option<int>, now: int, offset: int)
    ensures Errors(form, day, now, offset) == map[] <==>
      TitleError(form.title).None? && (form.dueDate == "" || !DueDateInPast(day, now, offset))
  {
    var e := Errors(form, day, now, offset);
    if e == map[] {
      assert Title !in e && DueDate !in e;
    } else {
      var f :| f in e;
    }
  }

  // ---------------------------------------------------------------------------------------------
  // The component's state and its handlers

  class TaskFormState {
    var formData: FormData
    var errors: map<Field, string>
    var loading: bool

    constructor ()
      ensures formData == FormData("", "", "") && errors == map[] && !loading
    {
      formData := FormData("", "", "");
      errors := map[];
      loading := false;
    }

    /** The prefill effect on `task`: an edited task fills the form; no task leaves it as it is. */
    method PrefillFrom(task: Option<Task>)
      modifies this`formData
      ensures formData == if task.Some? then Prefill(task.value) else old(formData)
    {
      if task.Some? {
        formData := Prefill(task.value);
      }
    }

    /** `validateForm`: builds the error map rule by rule, stores it, and reports whether it is empty. */
    method ValidateForm(day: Option<int>, now: int, offset: int) returns (valid: bool)
      modifies this`errors
      ensures errors == Errors(formData, day, now, offset)
      ensures valid <==> errors == map[]
    {
      var newErrors: map<Field, string> := map[];
      if Trim(formData.title) == "" {
        newErrors := newErrors[Title := TitleRequired];
      } else if |formData.title| < 3 {
        newErrors := newErrors[Title := TitleTooShort];
      }
      if formData.dueDate != "" {
        if DueDateInPast(day, now, offset) {
          newErrors := newErrors[DueDate := DueDateInPastMessage];
        }
      }
      errors := newErrors;
      valid := |errors.Keys| == 0;
      if !valid {
        var f :| f in errors;
      }
    }

    /** `handleChange`: sets the named field; clears that field's error only if one is showing. */
    method HandleChange(f: Field, value: string)
      modifies this
      ensures formData == old(formData).With(f, value)
      ensures f in old(errors) && old(errors)[f] != "" ==> errors == old(errors)[f := ""]
      ensures !(f in old(errors) && old(errors)[f] != "") ==> errors == old(errors)
      ensures loading == old(loading)
    {
      formData := formData.With(f, value);
      if f in errors && errors[f] != "" {
        errors := errors[f := ""];
      }
    }

    /** `handleSubmit`: the form data goes to `onSubmit` only when validation passes. */
    method HandleSubmit(day: Option<int>, now: int, offset: int) returns (submitted: Option<FormData>)
      modifies this
      ensures errors == Errors(formData, day, now, offset)
      ensures formData == old(formData)
      ensures submitted.Some? <==> errors == map[]
      ensures submitted.Some? ==> submitted.value == formData && !loading
      ensures submitted.None? ==> loading == old(loading)
    {
      var valid := ValidateForm(day, now, offset);
      if !valid {
        return None;
      }
      loading := true;
      submitted := Some(formData);
      loading := false;
    }
  }
}
