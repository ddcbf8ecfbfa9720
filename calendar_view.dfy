/**
 * The calendar's event controller: the list of events, the dialog and mode flags, and the
 * values of the event form, stepped by one handler per gesture the calendar reports.
 *
 * Each handler is stated twice: as a transition function on a `ViewState` value, about which
 * the lemmas below speak, and as a method of `CalendarController`, which updates the
 * controller's fields in place and promises the transition's result.
 */
module CalendarView {
  import opened Wrappers
  import opened Timestamps
  import opened EventTypes
  import opened EventList
  import CalendarForm

  /** The color a new event starts with. */
  const NewEventColor: string := "#000"

  /**
   * The controller's state: the events, whether the dialog is open, whether a saved event is
   * loaded (`isEditing`), whether the fields are editable (`isEditMode`), the loaded event's
   * id, and the form store: its current values and the values `reset()` returns to.
   */
  datatype ViewState = ViewState(
    events: seq<CalendarEvent>,
    open: bool,
    isEditing: bool,
    isEditMode: bool,
    currentEventId: Option<EventId>,
    form: FormValues,
    formDefaults: FormValues)

  const Initial: ViewState :=
    ViewState([], false, false, false, None, CalendarForm.Blank, CalendarForm.Blank)

  /** JavaScript truthiness of an optional id: `null` and `""` are both false. */
  predicate Truthy(id: Option<EventId>) {
    id.Some? && id.value != ""
  }

  /** The mode the flags describe. */
  datatype Interaction = Idle | Creating | Viewing(id: Option<EventId>) | Editing(id: Option<EventId>)

  function InteractionOf(s: ViewState): Interaction {
    if !s.open then Idle
    else if !s.isEditing then Creating
    else if !s.isEditMode then Viewing(s.currentEventId)
    else Editing(s.currentEventId)
  }

  /**
   * What every reachable state satisfies: ids are unique and non-empty, an open dialog is
   * either creating or showing a loaded event, and a loaded event is in the collection.
   */
  ghost predicate Inv(s: ViewState) {
    && UniqueIds(s.events)
    && "" !in Ids(s.events)
    && (s.open ==> s.isEditing || s.isEditMode)
    && (s.open && s.isEditing ==> s.currentEventId.Some? && s.currentEventId.value in Ids(s.events))
  }

  /** An id as `uuidv4()` hands it out: non-empty and not in use. */
  predicate FreshId(s: ViewState, id: EventId) {
    id != "" && id !in Ids(s.events)
  }

  // ---------------------------------------------------------------------------------------
  // Transitions, one per handler

  /** handleClose: hide the dialog and return the form to its defaults. */
  function Close(s: ViewState): ViewState {
    s.(open := false, form := s.formDefaults)
  }

  /** handleDateClick: open an empty form for a new event on the clicked date. */
  function DateClick(s: ViewState, date: Day): ViewState {
    var values := FormValues("", Some(date), None, None, NewEventColor, None);
    s.(form := values, formDefaults := values, isEditing := false, isEditMode := true, open := true)
  }

  /** The form filled in from a saved event; without an end, the end time is one hour after the start. */
  function ViewForm(e: CalendarEvent): FormValues {
    FormValues(e.title, Some(e.start.day), Some(e.start),
               Some(e.end.GetOr(AddMinutes(e.start, MinutesPerHour))), e.color, Some(e.notes.GetOr("")))
  }

  /** handleEventClick: show a saved event read-only; an unknown id is ignored. */
  function EventClick(s: ViewState, id: EventId): ViewState {
    match Find(s.events, id)
    case None => s
    case Some(e) =>
      s.(form := ViewForm(e), currentEventId := Some(e.id), isEditing := true, isEditMode := false, open := true)
  }

  /** handleEditClick: unlock the fields. */
  function EditClick(s: ViewState): ViewState {
    s.(isEditMode := true)
  }

  /** The saved start: the form's date at the wall-clock time of the chosen time. */
  function StartOf(data: FormValues): Instant
    requires data.start.Some? && data.time.Some?
  {
    OnDateAt(data.start.value, data.time.value)
  }

  /** The saved end: the form's date at the wall-clock time of the end time, if there is one. */
  function EndOf(data: FormValues): Option<Instant>
    requires data.start.Some?
  {
    if data.endTime.Some? then Some(OnDateAt(data.start.value, data.endTime.value)) else None
  }

  /** An event with its title, start, end, color and notes taken from the form; its id is kept. */
  function Detailed(e: CalendarEvent, data: FormValues): CalendarEvent
    requires data.start.Some? && data.time.Some?
  {
    e.(title := data.title, start := StartOf(data), end := EndOf(data), color := data.color, notes := data.notes)
  }

  /** The events with the one carrying `id` overwritten from the form. */
  function SaveDetails(events: seq<CalendarEvent>, id: EventId, data: FormValues): seq<CalendarEvent>
    requires data.start.Some? && data.time.Some?
  {
    MapById(events, id, e => Detailed(e, data))
  }

  /** A new event built from the form. */
  function NewEvent(id: EventId, data: FormValues): CalendarEvent
    requires data.start.Some? && data.time.Some?
  {
    CalendarEvent(id, data.title, StartOf(data), EndOf(data), data.color, data.notes)
  }

  /**
   * handleEventSave: without a date or a time nothing happens; otherwise the loaded event is
   * updated (when editing one) or a new event is appended, and the dialog closes.
   */
  function EventSave(s: ViewState, data: FormValues, freshId: EventId): ViewState {
    if data.start.None? || data.time.None? then s
    else
      var events :=
        if s.isEditing && Truthy(s.currentEventId) then SaveDetails(s.events, s.currentEventId.value, data)
        else s.events + [NewEvent(freshId, data)];
      Close(s.(events := events))
  }

  /** handleEventDiscard: drop the loaded event, if an id is loaded, and close. */
  function EventDiscard(s: ViewState): ViewState {
    var events := if Truthy(s.currentEventId) then RemoveById(s.events, s.currentEventId.value) else s.events;
    Close(s.(events := events))
  }

  /** An event moved by drag; a bound the drop does not report keeps its old value. */
  function Rescheduled(e: CalendarEvent, newStart: Option<Instant>, newEnd: Option<Instant>): CalendarEvent {
    e.(start := newStart.GetOr(e.start), end := if newEnd.Some? then newEnd else e.end)
  }

  function Reschedule(events: seq<CalendarEvent>, id: EventId, newStart: Option<Instant>, newEnd: Option<Instant>)
    : seq<CalendarEvent>
  {
    MapById(events, id, e => Rescheduled(e, newStart, newEnd))
  }

  /** handleEventDrop: move the dropped event. */
  function EventDrop(s: ViewState, id: EventId, newStart: Option<Instant>, newEnd: Option<Instant>): ViewState {
    s.(events := Reschedule(s.events, id, newStart, newEnd))
  }

  /** handleTimeChange: set the time, proposing an end one hour later. */
  function TimeChange(s: ViewState, time: Option<Instant>): ViewState {
    s.(form := CalendarForm.TimeChanged(s.form, time))
  }

  /** Input typed or picked in a field of the form (ignored while the fields are disabled). */
  function Input(s: ViewState, input: CalendarForm.FieldInput): ViewState {
    s.(form := CalendarForm.Accepted(s.isEditMode, s.form, input))
  }

  /** handleColorChange: the color picker writes the form's color (its button is never disabled). */
  function ColorChange(s: ViewState, color: string): ViewState {
    s.(form := s.form.(color := color))
  }

  /** Submitting the form: the save handler runs only when the form's rules pass. */
  function Submit(s: ViewState, freshId: EventId): ViewState {
    var data := CalendarForm.Submitted(s.form);
    if CalendarForm.Valid(data) then EventSave(s, data, freshId) else s
  }

  /** The gestures the controller reacts to. */
  datatype Gesture =
    | DateClicked(date: Day)
    | EventClicked(id: EventId)
    | EditClicked
    | Saved(data: FormValues, freshId: EventId)
    | Discarded
    | Dropped(id: EventId, newStart: Option<Instant>, newEnd: Option<Instant>)
    | Closed
    | TimePicked(time: Option<Instant>)
    | Typed(input: CalendarForm.FieldInput)
    | ColorPicked(color: string)
    | SubmitPressed(freshId: EventId)

  function Step(s: ViewState, g: Gesture): ViewState {
    match g
    case DateClicked(date) => DateClick(s, date)
    case EventClicked(id) => EventClick(s, id)
    case EditClicked => EditClick(s)
    case Saved(data, freshId) => EventSave(s, data, freshId)
    case Discarded => EventDiscard(s)
    case Dropped(id, newStart, newEnd) => EventDrop(s, id, newStart, newEnd)
    case Closed => Close(s)
    case TimePicked(time) => TimeChange(s, time)
    case Typed(input) => Input(s, input)
    case ColorPicked(color) => ColorChange(s, color)
    case SubmitPressed(freshId) => Submit(s, freshId)
  }

  /** The id a gesture would give a new event must be fresh. */
  predicate FreshFor(s: ViewState, g: Gesture) {
    match g
    case Saved(_, freshId) => FreshId(s, freshId)
    case SubmitPressed(freshId) => FreshId(s, freshId)
    case _ => true
  }

  // ---------------------------------------------------------------------------------------
  // The invariant

  lemma InitialInv()
    ensures Inv(Initial)
  {
  }

  /** Saving keeps the invariant: a rewrite keeps ids, an append adds a fresh one. */
  lemma EventSavePreservesInv(s: ViewState, data: FormValues, freshId: EventId)
    requires Inv(s) && FreshId(s, freshId)
    ensures Inv(EventSave(s, data, freshId))
  {
    if data.start.Some? && data.time.Some? {
      if s.isEditing && Truthy(s.currentEventId) {
        MapByIdKeepsIds(s.events, s.currentEventId.value, e => Detailed(e, data));
      } else {
        AppendFreshKeepsUnique(s.events, NewEvent(freshId, data));
        IdsAppend(s.events, NewEvent(freshId, data));
      }
    }
  }

  /** Discarding keeps the invariant: removal keeps ids unique and adds none. */
  lemma EventDiscardPreservesInv(s: ViewState)
    requires Inv(s)
    ensures Inv(EventDiscard(s))
  {
    if Truthy(s.currentEventId) {
      var r := RemoveById(s.events, s.currentEventId.value);
      RemoveByIdKeepsUnique(s.events, s.currentEventId.value);
      RemoveByIdMembers(s.events, s.currentEventId.value);
      IdsMember(r, "");
      IdsMember(s.events, "");
    }
  }

  /** Dropping keeps the invariant: a reschedule keeps every id where it was. */
  lemma EventDropPreservesInv(s: ViewState, id: EventId, newStart: Option<Instant>, newEnd: Option<Instant>)
    requires Inv(s)
    ensures Inv(EventDrop(s, id, newStart, newEnd))
  {
    MapByIdKeepsIds(s.events, id, e => Rescheduled(e, newStart, newEnd));
  }

  /** Opening a saved event keeps the invariant: the loaded id is one that was found. */
  lemma EventClickPreservesInv(s: ViewState, id: EventId)
    requires Inv(s)
    ensures Inv(EventClick(s, id))
  {
  }

  /** Every gesture keeps the invariant. */
  lemma StepPreservesInv(s: ViewState, g: Gesture)
    requires Inv(s) && FreshFor(s, g)
    ensures Inv(Step(s, g))
  {
    match g
    case Saved(data, freshId) => EventSavePreservesInv(s, data, freshId);
    case SubmitPressed(freshId) => EventSavePreservesInv(s, CalendarForm.Submitted(s.form), freshId);
    case Discarded => EventDiscardPreservesInv(s);
    case Dropped(id, newStart, newEnd) => EventDropPreservesInv(s, id, newStart, newEnd);
    case EventClicked(id) => EventClickPreservesInv(s, id);
    case _ =>
  }

  // ---------------------------------------------------------------------------------------
  // What each handler does

  /** Saving without a date or a time changes nothing, not even the dialog. */
  lemma SaveWithoutDateOrTimeIsIgnored(s: ViewState, data: FormValues, freshId: EventId)
    requires data.start.None? || data.time.None?
    ensures EventSave(s, data, freshId) == s
  {
  }

  /**
   * Saving while not editing a loaded event appends exactly one event, at the end, with the
   * fresh id and the form's fields; the earlier events stay unchanged and in order.
   */
  lemma SaveWhenCreatingAppends(s: ViewState, data: FormValues, freshId: EventId)
    requires data.start.Some? && data.time.Some?
    requires !(s.isEditing && Truthy(s.currentEventId))
    requires FreshId(s, freshId)
    ensures var r := EventSave(s, data, freshId);
      && |r.events| == |s.events| + 1
      && r.events[..|s.events|] == s.events
      && r.events[|s.events|] == CalendarEvent(freshId, data.title, StartOf(data), EndOf(data), data.color, data.notes)
      && Ids(r.events) == Ids(s.events) + [freshId]
      && Find(r.events, freshId) == Some(r.events[|s.events|])
      && !r.open && r.isEditing == s.isEditing && r.isEditMode == s.isEditMode
      && r.currentEventId == s.currentEventId && r.form == s.formDefaults
  {
    var r := EventSave(s, data, freshId);
    IdsAppend(s.events, NewEvent(freshId, data));
    IdsMember(s.events, freshId);
    assert r.events == s.events + [NewEvent(freshId, data)];
    assert forall j :: 0 <= j < |s.events| ==> r.events[j] == s.events[j];
    assert freshId in Ids(r.events);
    var found := Find(r.events, freshId);
    assert found.Some? && found.value.id == freshId;
    var k :| 0 <= k < |r.events| && r.events[k] == found.value && FirstWith(r.events, freshId, k);
    assert r.events[k].id == freshId;
    assert k == |s.events|;
  }

  /**
   * Saving while editing a loaded event rewrites only the events carrying its id: they keep
   * the id and take title, start, end, color and notes from the form; the rest are untouched.
   */
  lemma SaveWhenEditingReplaces(s: ViewState, data: FormValues, freshId: EventId)
    requires data.start.Some? && data.time.Some?
    requires s.isEditing && Truthy(s.currentEventId)
    ensures var r := EventSave(s, data, freshId); var id := s.currentEventId.value;
      && |r.events| == |s.events|
      && Ids(r.events) == Ids(s.events)
      && (forall i :: 0 <= i < |s.events| && s.events[i].id != id ==> r.events[i] == s.events[i])
      && (forall i :: 0 <= i < |s.events| && s.events[i].id == id ==>
            r.events[i] == CalendarEvent(id, data.title, StartOf(data), EndOf(data), data.color, data.notes))
      && !r.open && r.isEditing && r.isEditMode == s.isEditMode
      && r.currentEventId == s.currentEventId && r.form == s.formDefaults
  {
    MapByIdKeepsIds(s.events, s.currentEventId.value, e => Detailed(e, data));
  }

  /** With unique ids, saving while editing rewrites exactly the loaded event, found by its id. */
  lemma SaveWhenEditingFindsUpdated(s: ViewState, data: FormValues, freshId: EventId, k: int)
    requires data.start.Some? && data.time.Some?
    requires UniqueIds(s.events) && 0 <= k < |s.events|
    requires s.isEditing && s.currentEventId == Some(s.events[k].id) && s.events[k].id != ""
    ensures var r := EventSave(s, data, freshId);
      && r.events == s.events[k := Detailed(s.events[k], data)]
      && Find(r.events, s.events[k].id) == Some(Detailed(s.events[k], data))
  {
    var r := EventSave(s, data, freshId);
    MapByIdKeepsIds(s.events, s.events[k].id, e => Detailed(e, data));
    assert r.events == s.events[k := Detailed(s.events[k], data)];
    FindUnique(r.events, k);
  }

  /** The saved start and end share the form's date and keep the wall-clock times chosen. */
  lemma SavedTimesShareDate(data: FormValues)
    requires data.start.Some? && data.time.Some?
    ensures StartOf(data).day == data.start.value && StartOf(data).minute == data.time.value.minute
    ensures EndOf(data).Some? <==> data.endTime.Some?
    ensures EndOf(data).Some? ==>
              EndOf(data).value.day == StartOf(data).day && EndOf(data).value.minute == data.endTime.value.minute
    ensures EndOf(data).Some? ==> (Before(EndOf(data).value, StartOf(data)) <==> data.endTime.value.minute < data.time.value.minute)
  {
  }

  /**
   * With the end time the time picker proposes (one hour after the chosen time) the saved end
   * is one hour after the start, except from 23:00 on: then the end is composed on the same
   * date and lies 23 hours before the start.
   */
  lemma ProposedEndPlacement(data: FormValues, t: Instant)
    requires data.start.Some?
    ensures var d := CalendarForm.TimeChanged(data, Some(t));
      && EndOf(d).Some?
      && (t.minute < 23 * MinutesPerHour ==> Absolute(EndOf(d).value) == Absolute(StartOf(d)) + MinutesPerHour)
      && (23 * MinutesPerHour <= t.minute ==>
            Absolute(EndOf(d).value) == Absolute(StartOf(d)) - 23 * MinutesPerHour
            && Before(EndOf(d).value, StartOf(d)))
  {
    AddHourSameDay(t);
  }

  /** Discarding removes exactly the events carrying the loaded id, keeps the rest, and closes. */
  lemma DiscardRemovesCurrent(s: ViewState)
    ensures var r := EventDiscard(s);
      && (Truthy(s.currentEventId) ==>
            s.currentEventId.value !in Ids(r.events)
            && forall e :: e in r.events <==> e in s.events && e.id != s.currentEventId.value)
      && (!Truthy(s.currentEventId) ==> r.events == s.events)
      && !r.open && r.isEditing == s.isEditing && r.isEditMode == s.isEditMode
      && r.currentEventId == s.currentEventId && r.form == s.formDefaults
  {
    if Truthy(s.currentEventId) {
      RemoveByIdGone(s.events, s.currentEventId.value);
      RemoveByIdMembers(s.events, s.currentEventId.value);
    }
  }

  /** With unique ids, discarding the loaded event at `k` removes just that position. */
  lemma DiscardRemovesExactlyOne(s: ViewState, k: int)
    requires UniqueIds(s.events) && 0 <= k < |s.events|
    requires s.currentEventId == Some(s.events[k].id) && s.events[k].id != ""
    ensures EventDiscard(s).events == s.events[..k] + s.events[k + 1..]
  {
    RemoveByIdAt(s.events, k);
  }

  /**
   * A drop changes only start and end of the events carrying the dropped id, falling back to
   * the old value for a bound the drop leaves out; nothing else in the state changes.
   */
  lemma DropChangesOnlyTimes(s: ViewState, id: EventId, newStart: Option<Instant>, newEnd: Option<Instant>)
    ensures var r := EventDrop(s, id, newStart, newEnd);
      && |r.events| == |s.events|
      && r.(events := s.events) == s
      && forall i :: 0 <= i < |s.events| ==>
           var e, e' := s.events[i], r.events[i];
           && (e.id != id ==> e' == e)
           && (e.id == id ==>
                 && e'.(start := e.start, end := e.end) == e
                 && e'.start == newStart.GetOr(e.start)
                 && e'.end == (if newEnd.Some? then newEnd else e.end))
  {
  }

  /** A drop on an id that is not in the collection changes nothing. */
  lemma DropUnknownIsIgnored(s: ViewState, id: EventId, newStart: Option<Instant>, newEnd: Option<Instant>)
    requires id !in Ids(s.events)
    ensures EventDrop(s, id, newStart, newEnd) == s
  {
    MapByIdAbsent(s.events, id, e => Rescheduled(e, newStart, newEnd));
  }

  /** A date click opens an empty, editable form for a new event and leaves the events alone. */
  lemma DateClickEntersCreate(s: ViewState, date: Day)
    ensures var r := DateClick(s, date);
      && r.open && !r.isEditing && r.isEditMode && InteractionOf(r) == Creating
      && r.form.title == "" && r.form.color == NewEventColor && r.form.start == Some(date)
      && r.form.time.None? && r.form.endTime.None?
      && r.events == s.events && r.currentEventId == s.currentEventId
      && !CalendarForm.Valid(r.form)
  {
  }

  /**
   * Clicking a saved event (ids unique) loads it read-only: the form shows its fields,
   * with an end one hour after the start when it has none; the events are left alone.
   */
  lemma EventClickEntersView(s: ViewState, k: int)
    requires UniqueIds(s.events) && 0 <= k < |s.events|
    ensures var r := EventClick(s, s.events[k].id); var e := s.events[k];
      && r.open && r.isEditing && !r.isEditMode && r.currentEventId == Some(e.id)
      && InteractionOf(r) == Viewing(Some(e.id))
      && r.events == s.events && r.formDefaults == s.formDefaults
      && r.form.title == e.title && r.form.start == Some(e.start.day) && r.form.time == Some(e.start)
      && r.form.color == e.color && r.form.notes == Some(e.notes.GetOr(""))
      && (e.end.Some? ==> r.form.endTime == e.end)
      && (e.end.None? ==> r.form.endTime == Some(AddMinutes(e.start, MinutesPerHour)))
  {
    FindUnique(s.events, k);
  }

  /** Clicking an event the collection does not hold changes nothing. */
  lemma EventClickUnknownIsIgnored(s: ViewState, id: EventId)
    requires id !in Ids(s.events)
    ensures EventClick(s, id) == s
  {
  }

  /** Closing touches only the dialog and the form's values, so closing twice is closing once. */
  lemma CloseIsIdempotent(s: ViewState)
    ensures Close(Close(s)) == Close(s)
    ensures var r := Close(s);
      && !r.open && InteractionOf(r) == Idle && r.form == s.formDefaults
      && r.events == s.events && r.isEditing == s.isEditing && r.isEditMode == s.isEditMode
      && r.currentEventId == s.currentEventId && r.formDefaults == s.formDefaults
  {
  }

  /** Edit turns viewing a loaded event into editing it and unlocks the fields; nothing else changes. */
  lemma EditClickUnlocks(s: ViewState)
    requires InteractionOf(s).Viewing?
    ensures var r := EditClick(s);
      && InteractionOf(r) == Editing(s.currentEventId)
      && !CalendarForm.FieldsDisabled(r.isEditMode)
      && CalendarForm.ActionsFor(r.isEditing, r.isEditMode) == [CalendarForm.Save]
      && r.(isEditMode := s.isEditMode) == s
  {
  }

  /**
   * While the dialog is open, Discard and Edit are offered exactly when an event is being
   * viewed, and Save exactly when the fields are enabled.
   */
  lemma ActionsFollowMode(s: ViewState)
    requires Inv(s) && s.open
    ensures CalendarForm.Discard in CalendarForm.ActionsFor(s.isEditing, s.isEditMode) <==> InteractionOf(s).Viewing?
    ensures CalendarForm.Save in CalendarForm.ActionsFor(s.isEditing, s.isEditMode) <==> !CalendarForm.FieldsDisabled(s.isEditMode)
  {
  }

  /** A submission that breaks a form rule changes nothing; an empty title is one. */
  lemma InvalidSubmitIsIgnored(s: ViewState, freshId: EventId)
    requires !CalendarForm.Valid(s.form)
    ensures Submit(s, freshId) == s
  {
  }

  /**
   * Click a date, pick 12:30, type "Lunch", submit: one event is appended, starting on that
   * date at 12:30 and, because the time picker proposes one, ending at 13:30.
   */
  lemma LunchScenario(s: ViewState, date: Day, t: Instant, freshId: EventId)
    requires t.minute == 12 * MinutesPerHour + 30
    ensures var r := Submit(Input(TimeChange(DateClick(s, date), Some(t)), CalendarForm.TitleInput("Lunch")), freshId);
      r.events == s.events + [CalendarEvent(freshId, "Lunch", Instant(date, 750), Some(Instant(date, 810)), NewEventColor, Some(""))]
  {
    var s3 := Input(TimeChange(DateClick(s, date), Some(t)), CalendarForm.TitleInput("Lunch"));
    assert s3.form == FormValues("Lunch", Some(date), Some(t), Some(AddMinutes(t, 60)), NewEventColor, None);
    assert AddMinutes(t, 60).minute == 810;
  }

  /**
   * Viewing a saved event, editing it and saving without changes leaves the collection as it
   * was, provided the event has notes and an end on its start date.
   */
  lemma ViewEditSaveKeepsEvents(s: ViewState, k: int, freshId: EventId)
    requires Inv(s) && 0 <= k < |s.events|
    requires s.events[k].notes.Some?
    requires s.events[k].end.Some? && s.events[k].end.value.day == s.events[k].start.day
    ensures Submit(EditClick(EventClick(s, s.events[k].id)), freshId).events == s.events
  {
    var e := s.events[k];
    IdsAt(s.events);
    FindUnique(s.events, k);
    var s2 := EditClick(EventClick(s, e.id));
    assert s2.form == ViewForm(e);
    var data := CalendarForm.Submitted(s2.form);
    if CalendarForm.Valid(data) {
      assert Detailed(e, data) == e;
      var r := SaveDetails(s.events, e.id, data);
      forall i | 0 <= i < |s.events| ensures r[i] == s.events[i] {
        if i != k { assert s.events[i].id != e.id; }
      }
      assert r == s.events;
    }
  }

  /**
   * Viewing a saved event that has no end, editing it and saving gives it an end one hour
   * after its start, composed on its start date.
   */
  lemma ViewEditSaveAddsEnd(s: ViewState, k: int, freshId: EventId)
    requires Inv(s) && 0 <= k < |s.events|
    requires s.events[k].end.None? && CalendarForm.Valid(CalendarForm.Submitted(ViewForm(s.events[k])))
    ensures var r := Submit(EditClick(EventClick(s, s.events[k].id)), freshId);
      && |r.events| == |s.events|
      && r.events[k].end == Some(OnDateAt(s.events[k].start.day, AddMinutes(s.events[k].start, MinutesPerHour)))
  {
    IdsAt(s.events);
    FindUnique(s.events, k);
  }

  // ---------------------------------------------------------------------------------------
  // The controller object

  /** The event controller, its handlers updating its fields in place. */
  class CalendarController {
    var events: seq<CalendarEvent>
    var open: bool
    var isEditing: bool
    var isEditMode: bool
    var currentEventId: Option<EventId>
    var form: FormValues
    var formDefaults: FormValues

    function State(): ViewState
      reads this
    {
      ViewState(events, open, isEditing, isEditMode, currentEventId, form, formDefaults)
    }

    ghost predicate Valid()
      reads this
    {
      Inv(State())
    }

    constructor ()
      ensures Valid() && State() == Initial
    {
      events := [];
      open, isEditing, isEditMode := false, false, false;
      currentEventId := None;
      form, formDefaults := CalendarForm.Blank, CalendarForm.Blank;
    }

    method HandleClose()
      modifies this
      ensures State() == Close(old(State()))
      ensures old(Valid()) ==> Valid()
    {
      open := false;
      form := formDefaults;
    }

    method HandleDateClick(date: Day)
      requires Valid()
      modifies this
      ensures Valid() && State() == DateClick(old(State()), date)
    {
      var values := FormValues("", Some(date), None, None, NewEventColor, None);
      form, formDefaults := values, values;
      isEditing := false;
      isEditMode := true;
      open := true;
    }

    method HandleEventClick(id: EventId)
      requires Valid()
      modifies this
      ensures Valid() && State() == EventClick(old(State()), id)
    {
      var found := Find(events, id);
      if found.Some? {
        var e := found.value;
        form := ViewForm(e);
        currentEventId := Some(e.id);
        isEditing := true;
        isEditMode := false;
        open := true;
      }
      EventClickPreservesInv(old(State()), id);
    }

    method HandleEditClick()
      requires Valid()
      modifies this
      ensures Valid() && State() == EditClick(old(State()))
    {
      isEditMode := true;
    }

    method HandleEventSave(data: FormValues, freshId: EventId)
      requires Valid() && FreshId(State(), freshId)
      modifies this
      ensures Valid() && State() == EventSave(old(State()), data, freshId)
    {
      if data.start.None? || data.time.None? {
        return;
      }
      if isEditing && Truthy(currentEventId) {
        events := SaveDetails(events, currentEventId.value, data);
      } else {
        events := events + [NewEvent(freshId, data)];
      }
      HandleClose();
      form := formDefaults;
      EventSavePreservesInv(old(State()), data, freshId);
    }

    method HandleEventDiscard()
      requires Valid()
      modifies this
      ensures Valid() && State() == EventDiscard(old(State()))
    {
      if Truthy(currentEventId) {
        events := RemoveById(events, currentEventId.value);
      }
      HandleClose();
      form := formDefaults;
      EventDiscardPreservesInv(old(State()));
    }

    method HandleEventDrop(id: EventId, newStart: Option<Instant>, newEnd: Option<Instant>)
      requires Valid()
      modifies this
      ensures Valid() && State() == EventDrop(old(State()), id, newStart, newEnd)
    {
      events := Reschedule(events, id, newStart, newEnd);
      EventDropPreservesInv(old(State()), id, newStart, newEnd);
    }

    method HandleTimeChange(time: Option<Instant>)
      requires Valid()
      modifies this
      ensures Valid() && State() == TimeChange(old(State()), time)
    {
      form := form.(time := time);
      if time.Some? {
        form := form.(endTime := Some(AddMinutes(time.value, MinutesPerHour)));
      }
    }

    method HandleInput(input: CalendarForm.FieldInput)
      requires Valid()
      modifies this
      ensures Valid() && State() == Input(old(State()), input)
    {
      if !CalendarForm.FieldsDisabled(isEditMode) {
        match input
        case TitleInput(t) => form := form.(title := t);
        case DateInput(date) => form := form.(start := date);
        case TimeInput(t) => HandleTimeChange(t);
        case NotesInput(n) => form := form.(notes := Some(n));
      }
    }

    method HandleColorChange(color: string)
      requires Valid()
      modifies this
      ensures Valid() && State() == ColorChange(old(State()), color)
    {
      form := form.(color := color);
    }

    method HandleSubmit(freshId: EventId)
      requires Valid() && FreshId(State(), freshId)
      modifies this
      ensures Valid() && State() == Submit(old(State()), freshId)
    {
      var data := CalendarForm.Submitted(form);
      if CalendarForm.Valid(data) {
        HandleEventSave(data, freshId);
      }
    }
  }
}
