/**
 * The event form: the validation rules its fields carry, the actions it offers in each
 * mode, the disabled state of its inputs, and how input reaches the form's values.
 */
module CalendarForm {
  import opened Wrappers
  import opened Timestamps
  import opened EventTypes

  const TitleMaxLength: nat := 30
  const RequiredMessage: string := "Event name is required"
  const TooLongMessage: string := "Event name cannot exceed 30 characters"

  /** The values a fresh form holds: the title and notes fields start out empty. */
  const Blank: FormValues := FormValues("", None, None, None, "", Some(""))

  datatype Field = Title | Start | Time

  /** A failed rule, with the message the field shows. */
  datatype FieldError = FieldError(field: Field, message: string)

  /** The title rules: required first, then at most 30 characters. */
  function TitleErrors(title: string): seq<FieldError> {
    if title == "" then [FieldError(Title, RequiredMessage)]
    else if |title| > TitleMaxLength then [FieldError(Title, TooLongMessage)]
    else []
  }

  /**
   * The first failing rule of each field, in the order the fields appear. The date field
   * reuses the title's "Event name is required" message; the time rule has no message.
   */
  function Validate(d: FormValues): seq<FieldError> {
    TitleErrors(d.title)
    + (if d.start.None? then [FieldError(Start, RequiredMessage)] else [])
    + (if d.time.None? then [FieldError(Time, "")] else [])
  }

  /** The form submits exactly when every rule passes. */
  predicate Valid(d: FormValues) {
    d.title != "" && |d.title| <= TitleMaxLength && d.start.Some? && d.time.Some?
  }

  /** Each rule reports its own failure, and the form is valid exactly when nothing is reported. */
  lemma ValidateReportsEachRule(d: FormValues)
    ensures FieldError(Title, RequiredMessage) in Validate(d) <==> d.title == ""
    ensures FieldError(Title, TooLongMessage) in Validate(d) <==> |d.title| > TitleMaxLength
    ensures FieldError(Start, RequiredMessage) in Validate(d) <==> d.start.None?
    ensures FieldError(Time, "") in Validate(d) <==> d.time.None?
    ensures Validate(d) == [] <==> Valid(d)
  {
  }

  /** Notes carry no rule: they never decide whether the form submits. */
  lemma NotesNeverValidated(d: FormValues, notes: Option<string>)
    ensures Valid(d.(notes := notes)) == Valid(d)
    ensures Validate(d.(notes := notes)) == Validate(d)
  {
  }

  /** The values handed to the save handler: an absent note takes the field's default "". */
  function Submitted(d: FormValues): (r: FormValues)
    ensures r.notes.Some?
    ensures d.notes.None? ==> r.notes == Some("")
    ensures d.notes.Some? ==> r == d
    ensures r.(notes := d.notes) == d
    ensures Valid(r) == Valid(d)
  {
    d.(notes := Some(d.notes.GetOr("")))
  }

  datatype Action = Discard | Edit | Save

  /** The buttons the form shows: Discard and Edit while viewing a saved event, otherwise Save. */
  function ActionsFor(isEditing: bool, isEditMode: bool): (acts: seq<Action>)
    ensures Discard in acts <==> isEditing && !isEditMode
    ensures Edit in acts <==> isEditing && !isEditMode
    ensures Save in acts <==> !(isEditing && !isEditMode)
    ensures |acts| == if Save in acts then 1 else 2
  {
    if isEditing && !isEditMode then [Discard, Edit] else [Save]
  }

  /** Every input field (title, date, time, notes) is disabled outside edit mode. */
  predicate FieldsDisabled(isEditMode: bool) {
    !isEditMode
  }

  /**
   * The time picker's change handler: store the time and, when a time is chosen, propose
   * an end time one hour later; clearing the time leaves the end time as it was.
   */
  function TimeChanged(d: FormValues, time: Option<Instant>): (r: FormValues)
    ensures r.time == time
    ensures time.Some? ==> r.endTime.Some? && Absolute(r.endTime.value) == Absolute(time.value) + MinutesPerHour
    ensures time.None? ==> r.endTime == d.endTime
    ensures r.(time := d.time, endTime := d.endTime) == d
  {
    d.(time := time, endTime := if time.Some? then Some(AddMinutes(time.value, MinutesPerHour)) else d.endTime)
  }

  /** What the user can type or pick in an input field. */
  datatype FieldInput =
    | TitleInput(title: string)
    | DateInput(date: Option<Day>)
    | TimeInput(time: Option<Instant>)
    | NotesInput(notes: string)

  /** The values after an input reaches its field; a disabled field ignores input. */
  function Accepted(isEditMode: bool, d: FormValues, input: FieldInput): (r: FormValues)
    ensures FieldsDisabled(isEditMode) ==> r == d
    ensures !FieldsDisabled(isEditMode) ==> match input
      case TitleInput(t) => r.title == t && r.(title := d.title) == d
      case DateInput(date) => r.start == date && r.(start := d.start) == d
      case TimeInput(t) => r == TimeChanged(d, t)
      case NotesInput(n) => r.notes == Some(n) && r.(notes := d.notes) == d
  {
    if FieldsDisabled(isEditMode) then d
    else match input
      case TitleInput(t) => d.(title := t)
      case DateInput(date) => d.(start := date)
      case TimeInput(t) => TimeChanged(d, t)
      case NotesInput(n) => d.(notes := Some(n))
  }
}
