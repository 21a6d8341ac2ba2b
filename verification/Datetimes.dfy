/** Datetimes and the hours they fall into. */
module Datetimes {
  /** A datetime, in microseconds. */
  type Instant = int

  const HOUR: int := 3_600_000_000
  const DAY: int := 24 * HOUR

  /** A datetime with minutes, seconds and microseconds set to zero. */
  function BucketHour(t: Instant): Instant {
    t - t % HOUR
  }

  /** The first full hour at or after `t`. */
  function CeilHour(t: Instant): Instant {
    -(-t / HOUR) * HOUR
  }

  /** A bucket is the clock hour that `t` lies in, from its full hour up to the next. */
  lemma BucketIsTheHour(t: Instant)
    ensures BucketHour(t) % 3_600_000_000 == 0 && BucketHour(t) <= t < BucketHour(t) + 3_600_000_000
    ensures BucketHour(t) == t / 3_600_000_000 * 3_600_000_000
  {
  }

  /** Two instants share a bucket exactly when they lie in the same clock hour. */
  lemma {:induction false} SameBucketHour(s: Instant, t: Instant)
    ensures BucketHour(s) == BucketHour(t) <==> s / 3_600_000_000 == t / 3_600_000_000
  {
    BucketIsTheHour(s);
    BucketIsTheHour(t);
  }

  /** No full hour at or after `t` is earlier. */
  lemma {:induction false} CeilHourIsLeast(t: Instant, m: Instant)
    ensures CeilHour(t) % 3_600_000_000 == 0 && t <= CeilHour(t)
    ensures m % 3_600_000_000 == 0 && t <= m ==> CeilHour(t) <= m
  {
    var h, k := CeilHour(t) / HOUR, m / HOUR;
    assert t <= CeilHour(t) < t + HOUR;
    assert CeilHour(t) % HOUR == 0;
    if m % HOUR == 0 && t <= m {
      assert CeilHour(t) == h * HOUR && m == k * HOUR;
      assert h < k + 1;
    }
  }

  lemma {:induction false} HourFilter(t: Instant, since: Instant)
    ensures BucketHour(t) >= since <==> t >= CeilHour(since)
    ensures since <= CeilHour(since) < since + HOUR
  {
    var q, c := t / HOUR, CeilHour(since) / HOUR;
    CeilHourIsLeast(since, since);
    assert BucketHour(t) == q * HOUR && CeilHour(since) == c * HOUR;
    assert c * HOUR - HOUR < since <= c * HOUR;
    assert q >= c <==> t >= c * HOUR;
  }
}
