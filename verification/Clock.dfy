/**
 Instants as integers (nanoseconds), with Go's zero time as a distinguished value,
 and the UTC calendar day of an instant.
 */
module Clock {

  type Time = int

  /** `time.Time{}`: the instant for which `IsZero` holds. */
  const ZERO: Time := 0

  const NANOS_PER_DAY := 86_400_000_000_000

  /** The number of the UTC day that contains the instant. */
  function UtcDay(t: Time): int {
    t / NANOS_PER_DAY
  }

  /** `sameUTCDate`: two non-zero instants on one UTC day. */
  predicate SameUtcDay(left: Time, right: Time) {
    left != ZERO && right != ZERO && UtcDay(left) == UtcDay(right)
  }

  lemma UtcDayMonotone(s: Time, t: Time)
    requires s <= t
    ensures UtcDay(s) <= UtcDay(t)
  {
  }

  /** A day has 24 hours of nanoseconds, from midnight to midnight. */
  lemma DayIs(t: Time, day: int)
    ensures UtcDay(t) == day <==> day * (24 * 60 * 60 * 1_000_000_000) <= t < (day + 1) * (24 * 60 * 60 * 1_000_000_000)
  {
  }
}
