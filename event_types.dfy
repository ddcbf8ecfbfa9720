/** The records the calendar stores and the values its form edits. */
module EventTypes {
  import opened Wrappers
  import opened Timestamps

  /** An event identifier; opaque text (a UUID for events the calendar creates). */
  type EventId = string

  /** A stored calendar event; `end` and `notes` are optional. */
  datatype CalendarEvent = CalendarEvent(
    id: EventId,
    title: string,
    start: Instant,
    end: Option<Instant>,
    color: string,
    notes: Option<string>)

  /**
   * The form's values: the event's fields without its id, the date (`start`) kept apart
   * from the chosen time of day (`time`) and end time (`endTime`).
   */
  datatype FormValues = FormValues(
    title: string,
    start: Option<Day>,
    time: Option<Instant>,
    endTime: Option<Instant>,
    color: string,
    notes: Option<string>)
}
