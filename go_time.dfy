/**
 * Go's time.Time reduced to whole Unix seconds. Wall-clock reads
 * (time.Now()) are never made by the model: callers pass `now`.
 */
module GoTime {

  /** An instant, as Unix seconds. */
  type Time = int

  /** The Unix time of Go's zero time.Time (0001-01-01 00:00:00 UTC). */
  const ZeroTime: Time := -62135596800

  const Hour: int := 3600

  /** time.Time.IsZero */
  predicate IsZero(t: Time) { t == ZeroTime }

  /** t.After(u) */
  predicate After(t: Time, u: Time) { t > u }
}
