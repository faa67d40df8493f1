/** Instants of Go's `time.Time`, written as integer nanoseconds since the Unix
    epoch. The wall clock is never read: every `time.Now()` of the source is an
    explicit `now` parameter of the model. */
module GoTime {

  const NanosPerSecond: int := 1_000_000_000
  const Minute: int := 60 * NanosPerSecond
  const Hour: int := 60 * Minute

  /** `time.Time{}`: January 1 of year 1, 00:00:00 UTC. */
  const ZeroTime: int := -62_135_596_800 * NanosPerSecond

  predicate IsZero(t: int) { t == ZeroTime }

  /** `t.Unix()`: whole seconds since the epoch, rounded towards minus infinity. */
  function UnixSeconds(t: int): (s: int)
    ensures s * NanosPerSecond <= t < s * NanosPerSecond + NanosPerSecond
  {
    t / NanosPerSecond
  }
}
