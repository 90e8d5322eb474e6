/**
 * Go's time.Duration: a signed 64-bit count of nanoseconds. Multiplying two
 * durations wraps around in two's complement, as Go's int64 arithmetic does.
 */
module Durations {
  const TwoTo63: int := 0x8000_0000_0000_0000
  const TwoTo64: int := 0x1_0000_0000_0000_0000

  newtype int64 = x: int | -0x8000_0000_0000_0000 <= x < 0x8000_0000_0000_0000

  type Duration = int64

  const Millisecond: Duration := 1_000_000
  const Second: Duration := 1_000_000_000

  /** The largest millisecond count whose conversion to nanoseconds fits in an int64. */
  const MaxMillis: int := 9_223_372_036_854

  /** Reduces a mathematical integer to the int64 it is congruent to. */
  function Wrap(x: int): (d: int64)
    ensures (d as int - x) % TwoTo64 == 0
    ensures -TwoTo63 <= x < TwoTo63 ==> d as int == x
  {
    ((x + TwoTo63) % TwoTo64 - TwoTo63) as int64
  }

  /** Go's `a * b` on int64 values, wrapping on overflow. */
  function Mul(a: int64, b: int64): int64 {
    Wrap(a as int * b as int)
  }

  /**
   * The configured threshold `ResponseTimeMax * time.Millisecond`: the
   * configuration gives milliseconds, the monitor compares nanoseconds.
   */
  function FromMillis(ms: int64): (d: Duration)
    ensures -MaxMillis <= ms as int <= MaxMillis ==> d as int == ms as int * 1_000_000
    ensures (d as int - ms as int * 1_000_000) % TwoTo64 == 0
  {
    Mul(ms, Millisecond)
  }

  /** Within the range that does not wrap, the conversion keeps the order of thresholds. */
  lemma FromMillisMonotone(a: int64, b: int64)
    requires -MaxMillis <= a as int <= b as int <= MaxMillis
    ensures FromMillis(a) <= FromMillis(b)
    ensures a < b ==> FromMillis(a) < FromMillis(b)
  {
  }

  /** One millisecond past that range the product wraps to a negative duration. */
  lemma FromMillisWraps()
    ensures FromMillis((MaxMillis + 1) as int64) < 0
  {
  }

  /** The pause between rounds, `time.Duration(interval) * time.Second`. */
  function FromSeconds(s: int64): (d: Duration)
    ensures -9_223_372_036 <= s as int <= 9_223_372_036 ==> d as int == s as int * 1_000_000_000
    ensures (d as int - s as int * 1_000_000_000) % TwoTo64 == 0
  {
    Mul(s, Second)
  }
}
