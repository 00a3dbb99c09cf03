/**
 * Timestamps and durations. A `datetime` is an integer number of microseconds
 * since the epoch and a `timedelta` an integer number of microseconds, which is
 * exactly the resolution and the arithmetic of Python's `datetime` module.
 */
module Clock {

  const SECOND: int := 1_000_000
  const MINUTE: int := 60 * SECOND
  const HOUR: int := 60 * MINUTE
  const DAY: int := 24 * HOUR

  /** How long a verification link is advertised as valid: `timedelta(minutes=10)`. */
  const REQUEST_TTL: int := 10 * MINUTE

  /** The cooldown between two fulfilments for a non-VIP user: `timedelta(hours=24)`. */
  const COOLDOWN: int := DAY

  /**
   * `timedelta.seconds`: Python normalises a duration to `days` (rounded towards
   * minus infinity), `seconds` in [0, 86400) and `microseconds`; this is the middle
   * component. It drops whole days, so it is the remaining time only for
   * durations in [0, 1 day).
   */
  function DeltaSeconds(t: int): (s: int)
    ensures 0 <= s < 86400
  {
    (t % 86_400_000_000) / 1_000_000
  }

  /** What is left of a duration after its seconds component is a whole number of days plus less than a second. */
  lemma DeltaSecondsDropsDays(t: int)
    ensures (t - DeltaSeconds(t) * SECOND) % DAY < SECOND
  {
  }

  /** For a duration shorter than a day, the seconds component is the duration rounded down to whole seconds. */
  lemma DeltaSecondsWithinDay(t: int)
    requires 0 <= t < DAY
    ensures DeltaSeconds(t) * SECOND <= t < DeltaSeconds(t) * SECOND + SECOND
  {
  }
}
