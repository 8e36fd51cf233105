/** Instants and durations, in nanoseconds. */
module Clock {
  type Instant = nat
  type Duration = nat

  const MILLISECOND: nat := 1_000_000
  const SECOND: nat := 1_000_000_000

  /** `later.duration_since(earlier)`, which is 0 when the clock ran backwards. */
  function Since(later: Instant, earlier: Instant): Duration {
    if later < earlier then 0 else later - earlier
  }
}
