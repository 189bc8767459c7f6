/** From the seconds of a lock request to the absolute deadline of its script. */
module Deadlines {
  import opened Basics

  const NANOS: nat := 1_000_000_000
  const MAX_INT64: int := 0x7FFF_FFFF_FFFF_FFFF

  /** The value `x` wraps to in a signed 64-bit integer. */
  function Int64(x: int): (r: int)
    ensures -MAX_INT64 - 1 <= r <= MAX_INT64
  {
    (x + MAX_INT64 + 1) % (2 * (MAX_INT64 + 1)) - MAX_INT64 - 1
  }

  /** Seconds to a duration in nanoseconds, with the product of a signed 64-bit integer. */
  function ToDeadline(seconds: int): Option<int> {
    if seconds < 1 || seconds > MAX_INT64 / NANOS then None
    else Some(Int64(seconds * NANOS))
  }

  /** Exactly 1 to 9223372036 seconds are accepted, and the product never wraps. */
  lemma ToDeadlineExact(seconds: int)
    ensures ToDeadline(seconds).Some? <==> 1 <= seconds <= 9_223_372_036
    ensures ToDeadline(seconds).Some? <==> seconds >= 1 && seconds * NANOS <= MAX_INT64
    ensures ToDeadline(seconds).Some? ==> ToDeadline(seconds).value == seconds * NANOS > 0
  {
    assert MAX_INT64 / NANOS == 9_223_372_036;
  }

  /** Accepted deadlines keep their distance: a gap of n seconds is a gap of n * 10^9 nanoseconds. */
  lemma ToDeadlineKeepsGaps(a: int, b: int)
    requires ToDeadline(a).Some? && ToDeadline(b).Some?
    ensures ToDeadline(b).value - ToDeadline(a).value == (b - a) * NANOS
    ensures a < b <==> ToDeadline(a).value < ToDeadline(b).value
  {
    ToDeadlineExact(a);
    ToDeadlineExact(b);
  }
}
