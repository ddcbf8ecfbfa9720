# Calendar event controller — a Dafny model

This project models the event-collection controller of a single-page calendar widget
(`CalendarView`) and the rules of its event form (`CalendarForm`). The controller keeps a
list of calendar events and a few mode flags: `open` (the dialog is shown), `isEditing` (a
saved event is loaded), `isEditMode` (the fields are editable) and `currentEventId`. It also
holds the form store: the current form values and the values `reset()` returns to. Each
gesture the calendar reports is a handler that steps this state: a date click, an event
click, Edit, save, discard, drag-and-drop, close, and a change of the time picker.

Layout, one module per concern:

- `wrappers.dfy` (`Wrappers`): `Option`, for JavaScript's `undefined`/`null`.
- `timestamps.dfy` (`Timestamps`): an `Instant` is a day number and a minute of the day
  (the `YYYY-MM-DD` and `HH:mm` parts of an ISO string). It also gives minute arithmetic
  with roll-over past midnight, and the "date of one value, wall-clock time of another"
  composition the save handler uses.
- `event_types.dfy` (`EventTypes`): the stored `CalendarEvent` record and the form's
  `FormValues`.
- `event_list.dfy` (`EventList`): the list transforms. These are `find`, a `map` that
  rewrites the events with one id, and a `filter` that drops them, with their lemmas.
- `calendar_form.dfy` (`CalendarForm`): the validation rules and their messages, the
  actions offered per mode, the disabled rule for inputs, the value a field default
  supplies on submit, and the time picker's change handler on the form values.
- `calendar_view.dfy` (`CalendarView`): the controller. `ViewState` and one transition
  function per handler carry the lemmas. The invariant `Inv` (unique, non-empty ids; an open
  dialog is creating or showing a loaded event that exists) is preserved by every gesture.
  The class `CalendarController` updates its fields in place. Each of its methods promises
  `State() == Transition(old(State()), ...)` and keeps `Valid()`.

Modelling choices:

- Time zones, ISO strings and seconds are not modelled. `toISOString` is the identity on
  `Instant`. Dates are day numbers, so "one hour later" past midnight lands exactly on the
  next day.
- `uuidv4()` is a parameter `freshId` with the precondition `FreshId`: non-empty and not
  in use.
- JavaScript truthiness is written out. `if (isEditing && currentEventId)` is false for a
  `null` id and also for an empty-string id (`Truthy`).
- `reset(values)` sets both the current form values and the defaults. `reset()` restores the
  defaults. This is the behaviour of the form library the component uses.
- The notes field's default `""` fills an absent note in the values handed to the save
  handler (`CalendarForm.Submitted`).

Behaviours of the code the model keeps as written:

- The save handler checks only the date and the time. The title rules are enforced by the
  form, so the model's `Submit` is "`Valid(values)` ? save : nothing".
- A save with `isEditing` false creates an event. So does a save with `isEditing` true and
  an empty loaded id, because an empty string is falsy.
- An event click or a drop on an unknown id is silently ignored; neither handler reports
  anything.
- Discard removes the events carrying `currentEventId` whenever that id is truthy, whatever
  the mode. The id is never cleared, so it may be left over from an earlier event click.
- Choosing a time always proposes an end one hour later, so an event created through the
  form always has an end (`LunchScenario`). Opening and re-saving an event without an end
  also gives it one (`ViewEditSaveAddsEnd`).
- The end is composed on the start's date, so from 23:00 on the proposed end lies 23 hours
  before the start (`ProposedEndPlacement`).
- The date field's "required" message is the title's text, "Event name is required".

## Model

| member | source | states |
|---|---|---|
| Timestamps.AddMinutes | src/components/CalendarView.tsx:193 | adding minutes moves the instant exactly that far along the time line and never to an earlier date |
| Timestamps.AddHourSameDay | src/components/CalendarView.tsx:190-196 | one hour later stays on the same date exactly when the time is before 23:00, and gives the clock time rolled over otherwise |
| Timestamps.OnDateAt | src/components/CalendarView.tsx:128-133 | the composed instant differs from the clock's instant by whole days: the clock's date shifted to the given date |
| EventList.Find | src/components/CalendarView.tsx:104 | `find` yields an event exactly when the id is present, and then the first event carrying that id |
| EventList.FindUnique | src/components/CalendarView.tsx:104 | with unique ids, looking up the id at position k yields the event at k |
| EventList.MapById | src/components/CalendarView.tsx:137-150 | the `map` keeps the length and rewrites exactly the positions whose id matches, leaving the rest as they were |
| EventList.MapByIdKeepsIds | src/components/CalendarView.tsx:138-149 | a rewrite that keeps ids keeps the sequence of ids, and with it their uniqueness |
| EventList.MapByIdAbsent | src/components/CalendarView.tsx:177-183 | rewriting an id nobody carries leaves the list unchanged |
| EventList.RemoveById | src/components/CalendarView.tsx:169 | the `filter` never lengthens the list |
| EventList.RemoveByIdMembers | src/components/CalendarView.tsx:169 | the survivors of the `filter` are exactly the events not carrying the id |
| EventList.RemoveByIdGone | src/components/CalendarView.tsx:169 | after the `filter` no event carries the id |
| EventList.RemoveByIdConcat | src/components/CalendarView.tsx:169 | the `filter` distributes over concatenation, so survivors keep their relative order |
| EventList.RemoveByIdAbsent | src/components/CalendarView.tsx:169 | filtering out an absent id leaves the list unchanged |
| EventList.RemoveByIdAt | src/components/CalendarView.tsx:169 | with unique ids, filtering out the id at k removes exactly position k and keeps the rest in order |
| EventList.RemoveByIdKeepsUnique | src/components/CalendarView.tsx:169 | the `filter` keeps ids unique |
| EventList.IdsAppend | src/components/CalendarView.tsx:160 | appending an event appends its id to the ids |
| EventList.AppendFreshKeepsUnique | src/components/CalendarView.tsx:152-160 | appending an event with an id not in use keeps ids unique |
| CalendarForm.ValidateReportsEachRule | src/components/CalendarForm.tsx:99-158 | each rule reports its own failure with its message: empty title, title over 30 characters, missing date, missing time; the form is valid exactly when nothing is reported |
| CalendarForm.NotesNeverValidated | src/components/CalendarForm.tsx:185-192 | the notes field has no rule: changing the notes never changes validity or the reported errors |
| CalendarForm.Submitted | src/components/CalendarForm.tsx:185-188 | the values handed on always carry notes, an absent note becoming "", with nothing else changed and validity unaffected |
| CalendarForm.ActionsFor | src/components/CalendarForm.tsx:194-207 | Discard and Edit are offered exactly when a saved event is loaded and not in edit mode, Save exactly otherwise, never both |
| CalendarForm.TimeChanged | src/components/CalendarView.tsx:190-196 | the chosen time is stored; a chosen time proposes an end exactly one hour later; clearing it keeps the old end; nothing else changes |
| CalendarForm.Accepted | src/components/CalendarForm.tsx:110-192 | while the fields are disabled, input changes nothing; otherwise it changes only the field it was typed into (the time field also proposes its end) |
| CalendarView.InitialInv | src/components/CalendarView.tsx:21-29 | the initial state (no events, dialog closed) satisfies the invariant |
| CalendarView.EventSavePreservesInv | src/components/CalendarView.tsx:122-165 | saving with a fresh id keeps ids unique and non-empty |
| CalendarView.EventDiscardPreservesInv | src/components/CalendarView.tsx:167-173 | discarding keeps the invariant |
| CalendarView.EventDropPreservesInv | src/components/CalendarView.tsx:175-184 | a drop keeps the invariant, including an open dialog's loaded event being present |
| CalendarView.EventClickPreservesInv | src/components/CalendarView.tsx:103-120 | opening an event keeps the invariant: the loaded id is one that is present |
| CalendarView.StepPreservesInv | src/components/CalendarView.tsx:32-196 | every gesture keeps the invariant, given fresh ids for new events |
| CalendarView.SaveWithoutDateOrTimeIsIgnored | src/components/CalendarView.tsx:122-126 | a save without a date or without a time changes nothing: events, flags, form |
| CalendarView.SaveWhenCreatingAppends | src/components/CalendarView.tsx:151-163 | a save when no event is loaded appends exactly one event at the end, with the fresh id and the form's fields; earlier events are unchanged and in order; the new id appears once; the dialog closes, the other flags are kept |
| CalendarView.SaveWhenEditingReplaces | src/components/CalendarView.tsx:136-150 | a save while editing keeps the length and the ids, rewrites only the events with the loaded id (keeping the id, taking title, start, end, color, notes from the form) and closes the dialog |
| CalendarView.SaveWhenEditingFindsUpdated | src/components/CalendarView.tsx:136-150 | with unique ids, the save replaces exactly the loaded position, and looking up the id finds the updated event |
| CalendarView.SavedTimesShareDate | src/components/CalendarView.tsx:128-134 | start = form date + HH:mm of the time; the end exists exactly when an end time was set, on the same date, and lies before the start exactly when its clock time is earlier |
| CalendarView.ProposedEndPlacement | src/components/CalendarView.tsx:128-134 | with the proposed end time, the saved end is one hour after the start before 23:00, and 23 hours before it from 23:00 on |
| CalendarView.DiscardRemovesCurrent | src/components/CalendarView.tsx:167-173 | discard drops exactly the events carrying a truthy loaded id, keeps every other event, leaves the events alone without a truthy id, and always closes |
| CalendarView.DiscardRemovesExactlyOne | src/components/CalendarView.tsx:169 | with unique ids, discard removes just the loaded position and keeps the rest in order |
| CalendarView.DropChangesOnlyTimes | src/components/CalendarView.tsx:175-184 | a drop changes only start and end of the dropped id's events, falling back to old values for absent bounds; all other fields, events, flags and the form are unchanged |
| CalendarView.DropUnknownIsIgnored | src/components/CalendarView.tsx:175-184 | a drop on an id not in the collection changes nothing |
| CalendarView.DateClickEntersCreate | src/components/CalendarView.tsx:84-101 | a date click opens an editable form for a new event: title "", color "#000", the clicked date, no time; not yet submittable; events and loaded id untouched |
| CalendarView.EventClickEntersView | src/components/CalendarView.tsx:103-120 | clicking a present event loads it read-only and fills the form from its fields, proposing an end one hour after the start when it has none; events untouched |
| CalendarView.EventClickUnknownIsIgnored | src/components/CalendarView.tsx:103-105 | clicking an unknown id changes nothing |
| CalendarView.CloseIsIdempotent | src/components/CalendarView.tsx:32-41 | close sets open false and returns the form to its defaults, touching neither events nor `isEditing`, `isEditMode`, `currentEventId`; closing twice equals closing once |
| CalendarView.EditClickUnlocks | src/components/CalendarView.tsx:186-188 | Edit turns viewing into editing, enables the fields, offers Save, and changes nothing else |
| CalendarView.ActionsFollowMode | src/components/CalendarForm.tsx:194-207 | in a reachable open dialog, Discard/Edit are offered exactly while viewing, and Save exactly when the fields are enabled |
| CalendarView.InvalidSubmitIsIgnored | src/components/CalendarForm.tsx:92 | a submission that breaks a form rule (such as an empty title) does not reach the save handler and changes nothing |
| CalendarView.LunchScenario | src/components/CalendarView.tsx:84-163 | date click, time 12:30, title "Lunch", submit: exactly one event is appended, starting at 12:30 on that date and ending at 13:30 |
| CalendarView.ViewEditSaveKeepsEvents | src/components/CalendarView.tsx:103-150 | view, Edit and save without changes leaves the collection as it was, for an event with notes and an end on its start date |
| CalendarView.ViewEditSaveAddsEnd | src/components/CalendarView.tsx:103-150 | view, Edit and save of an event without an end gives it an end one hour after its start on its start date |
| CalendarView.CalendarController.constructor | src/components/CalendarView.tsx:20-29 | the controller starts with no events, the dialog closed, both flags false and no loaded id |
| CalendarView.CalendarController.HandleClose | src/components/CalendarView.tsx:32-41 | the new state is `Close` of the old one |
| CalendarView.CalendarController.HandleDateClick | src/components/CalendarView.tsx:84-101 | the new state is `DateClick` of the old one; the invariant is kept |
| CalendarView.CalendarController.HandleEventClick | src/components/CalendarView.tsx:103-120 | the new state is `EventClick` of the old one; the invariant is kept |
| CalendarView.CalendarController.HandleEditClick | src/components/CalendarView.tsx:186-188 | only `isEditMode` becomes true |
| CalendarView.CalendarController.HandleEventSave | src/components/CalendarView.tsx:122-165 | the new state is `EventSave` of the old one; the invariant is kept |
| CalendarView.CalendarController.HandleEventDiscard | src/components/CalendarView.tsx:167-173 | the new state is `EventDiscard` of the old one; the invariant is kept |
| CalendarView.CalendarController.HandleEventDrop | src/components/CalendarView.tsx:175-184 | the new state is `EventDrop` of the old one; the invariant is kept |
| CalendarView.CalendarController.HandleTimeChange | src/components/CalendarView.tsx:190-196 | the form's time is set and, for a chosen time, its end proposed one hour later; nothing else changes |
| CalendarView.CalendarController.HandleInput | src/components/CalendarForm.tsx:110-192 | input reaches the form only while the fields are enabled |
| CalendarView.CalendarController.HandleColorChange | src/components/CalendarForm.tsx:45-48 | only the form's color changes, in every mode |
| CalendarView.CalendarController.HandleSubmit | src/components/CalendarForm.tsx:92 | the save handler runs exactly when the submitted values pass the form's rules |

## Left out

- Calendar navigation (`handleViewChange`, `handleTodayClick`, `handlePrevClick`, `handleNextClick`, `checkIfTodayActive`, `handleDatesSet`): calls into the calendar widget and a read of the wall clock, with no state of the controller involved.
- Highlighting the clicked cell, measuring its position, placing the dialog and rendering event content: DOM and layout effects.
- Reading stored events and the stored view from `localStorage` (src/utils/utils.ts): I/O. The controller starts with an empty list, as the component does.
- The toolbar, sub-toolbar, color picker dialog and app shell, and the form's own `colorPickerOpen` / `selectedColor`: presentation only.
- Time zones, ISO text, `toISOString` and seconds: an instant is a day number and a minute of the day. `Day` is a day number, not a calendar date, so calendar arithmetic and daylight saving time are not modelled. The source reads a stored start in two zones: the event click takes the date field from the UTC text (`event.start.split('T')[0]`, src/components/CalendarView.tsx:110) but the time from the local reading (106), and the save composes date and `HH:mm` in local time (128-130). The model reads date and time from one `Instant`, which is only right when local time is UTC.
- CalendarView.ViewEditSaveKeepsEvents: holds only where local time is UTC. Elsewhere the UTC date and the local time of a stored start can differ by a day, and re-saving a viewed event then moves it by a day; the model's single reading of an instant does not show this.
- The form's initial values before any gesture. The form is created without defaults and its fields register title "" and notes "" plus today's date, a read of the clock. The model starts from a blank form with no date and an empty color. Every path that opens the dialog overwrites these values.
- `console.error` on a save without a date or time: logging only.
- React's batching and stale closures: every handler runs atomically on the current state. The discard and drop handlers read `events` directly rather than through an updater; the model does not distinguish the two.
- `uuidv4()` randomness: its freshness is the precondition `FreshId`.
- CalendarForm.ValidateReportsEachRule: the 30-character limit counts Dafny characters (code points), while JavaScript counts UTF-16 code units. Titles with characters outside the Basic Multilingual Plane are measured differently.
- Display of field errors (`fieldState.error`) and the form's other submission state: UI only. `Validate` gives the messages the fields would show.
