/** Time as .NET's DateTime and TimeSpan count it: in ticks of 100 nanoseconds. */
module Time {

  /** A point in time (DateTime.Ticks); the clock is an explicit input everywhere. */
  type Instant = nat

  /** A signed length of time (TimeSpan.Ticks). */
  type Duration = int

  const TicksPerSecond: nat := 10_000_000

  const TicksPerMinute: nat := 60 * TicksPerSecond
}
