/** Instants, in nanoseconds since the clock's zero instant, and Unix times on 64 bits. */
module Clock {
  import opened Wrappers

  const SECOND := 1_000_000_000
  const UNIX_EPOCH := 62_135_596_800

  /** The instant of a Unix time. */
  function Instant(unix: Int64): int {
    Wrap64(unix + UNIX_EPOCH) * SECOND
  }

  /** The Unix time of an instant, in whole seconds rounded down. */
  function Unix(instant: int): Int64 {
    Wrap64(instant / SECOND - UNIX_EPOCH)
  }

  /** Unix time 0 is 62,135,596,800 seconds in, and each second is 10^9 nanoseconds, until 64 bits run out. */
  lemma InstantCounts(unix: Int64)
    requires unix + 62_135_596_800 < TWO_TO_THE_63
    ensures Instant(unix) == (62_135_596_800 + unix) * 1_000_000_000
  {}

  lemma UnixOfInstant(t: Int64)
    ensures Unix(Instant(t)) == t
  {}
}
