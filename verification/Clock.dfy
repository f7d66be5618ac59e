/** Instants in microseconds since 1970-01-01 UTC, and dates in days since then. */
module Clock {
  const Second: int := 1_000_000
  const Minute: int := 60 * Second
  const Hour: int := 60 * Minute
  const Day: int := 24 * Hour

  /** The weekday of a date: Monday is 0, and day 0 was a Thursday. */
  function Weekday(day: int): int { (day + 3) % 7 }
}
