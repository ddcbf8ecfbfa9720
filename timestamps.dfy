/**
 * Timestamps as the calendar composes them: a calendar date (the `YYYY-MM-DD` part of an
 * ISO string) and a time of day with minute precision (its `HH:mm` part).
 *
 * Dates are counted as day numbers from a fixed epoch, so moving an instant past midnight
 * is exact arithmetic; time zones and the conversion to UTC are not modelled.
 */
module Timestamps {

  const MinutesPerHour: int := 60
  const MinutesPerDay: int := 24 * MinutesPerHour

  /** A calendar date, as a day number. */
  type Day = int

  /** `HH:mm` as the number of minutes after midnight. */
  type MinuteOfDay = m: int | 0 <= m < 1440

  datatype Instant = Instant(day: Day, minute: MinuteOfDay)

  /** Minutes since the epoch: the instant's place on the time line. */
  function Absolute(t: Instant): int {
    t.day * MinutesPerDay + t.minute
  }

  /** `a` lies strictly before `b` on the time line. */
  predicate Before(a: Instant, b: Instant) {
    Absolute(a) < Absolute(b)
  }

  /** `dayjs(t).add(n, 'minute')`: the instant `n` minutes later, rolling over into later days. */
  function AddMinutes(t: Instant, n: nat): (r: Instant)
    ensures Absolute(r) == Absolute(t) + n
    ensures t.day <= r.day
  {
    Instant(t.day + (t.minute + n) / MinutesPerDay, (t.minute + n) % MinutesPerDay)
  }

  /** One hour later stays on the same date exactly when the time is before 23:00. */
  lemma AddHourSameDay(t: Instant)
    ensures AddMinutes(t, MinutesPerHour).day == t.day <==> t.minute < 23 * MinutesPerHour
    ensures t.minute < 23 * MinutesPerHour ==> AddMinutes(t, MinutesPerHour).minute == t.minute + MinutesPerHour
    ensures 23 * MinutesPerHour <= t.minute ==> AddMinutes(t, MinutesPerHour).minute == t.minute + MinutesPerHour - MinutesPerDay
  {
  }

  /**
   * `dayjs(`${date}T${dayjs(clock).format('HH:mm')}`)`: the instant on `date` that shows the
   * wall-clock time of `clock`; the date of `clock` itself is dropped.
   */
  function OnDateAt(date: Day, clock: Instant): (r: Instant)
    ensures Absolute(r) - Absolute(clock) == (date - clock.day) * MinutesPerDay
  {
    Instant(date, clock.minute)
  }
}
