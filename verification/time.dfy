/** Hour-of-day extraction from a Unix timestamp in seconds (UTC, no DST). */
module Time {

  const SecondsPerDay: nat := 86400
  const SecondsPerHour: nat := 3600

  /** One past the largest value a Rust `u32` can hold. */
  const U32Limit: nat := 0x1_0000_0000

  /** The scalar paths store their timestamp as a `u32`. */
  type U32 = t: nat | t < U32Limit

  /** An hour of the UTC day. */
  type Hour = h: nat | h < 24

  /** `(t % SECONDS_PER_DAY) / SECONDS_PER_HOUR`. On a `u32` neither operation can
      overflow, so the unbounded arithmetic agrees with the machine arithmetic. */
  function HourOf(t: nat): (h: Hour)
    ensures h * SecondsPerHour <= t % SecondsPerDay < (h + 1) * SecondsPerHour
  {
    (t % SecondsPerDay) / SecondsPerHour
  }

  /** Moving a timestamp by one whole day keeps its hour. */
  lemma HourOfNextDay(t: nat)
    ensures HourOf(t + SecondsPerDay) == HourOf(t)
  {
    assert (t + SecondsPerDay) % SecondsPerDay == t % SecondsPerDay;
  }

  /** Only the time of day matters: any whole number of days can be added. */
  lemma {:induction false} HourOfPeriodic(t: nat, k: nat)
    ensures HourOf(t + k * SecondsPerDay) == HourOf(t)
  {
    if k > 0 {
      HourOfPeriodic(t, k - 1);
      assert t + k * SecondsPerDay == (t + (k - 1) * SecondsPerDay) + SecondsPerDay;
      HourOfNextDay(t + (k - 1) * SecondsPerDay);
    }
  }
}
