/** The millisecond clock of the daemon (`get_ms`). */
module Clock {
  import opened U64

  const NanosPerMilli: int := 1000000

  /** The largest value `GetMs` can return. */
  const MaxMs: int := (Modulus - 1) / NanosPerMilli

  /** Milliseconds from the monotonic nanosecond clock `uv_hrtime`, truncated. */
  function GetMs(ns: Uint64): (ms: Uint64)
    ensures ms * NanosPerMilli <= ns < (ms + 1) * NanosPerMilli
    ensures ms <= MaxMs
  {
    ns / NanosPerMilli
  }

  /** A later clock reading never gives an earlier millisecond value. */
  lemma GetMsMonotone(ns1: Uint64, ns2: Uint64)
    requires ns1 <= ns2
    ensures GetMs(ns1) <= GetMs(ns2)
  {
  }
}
