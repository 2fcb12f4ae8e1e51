/** Durations in milliseconds, the unit `Date.getTime()` counts in. */
module TimeUnits {
  const HourMs: int := 60 * 60 * 1000
  const DayMs: int := 24 * HourMs
}
