/** The per-minute limits of src/tiresias/proxy/rate_limit.py: the in-memory fallback
    window and the verdict drawn from the Redis counter. */
module MinuteLimiter {
  import opened Counting
  import opened Timeline

  const MINUTE: Time := 60.0

  datatype Verdict = Verdict(allowed: bool, remaining: int, retryAfter: int)

  /** Requests per minute of a tier; the smallest is 30. */
  function TierRpm(tier: string): (rpm: nat)
    ensures rpm >= 30
  {
    match tier
    case "community" => 30
    case "starter" => 60
    case "pro" => 300
    case "enterprise" => 1000
    case "mssp" => 2000
    case _ => 60
  }

  /** Every named tier allows more than the one before; any other name is taken for a starter. */
  lemma TiersGrow(other: string)
    ensures 30 == TierRpm("community") < 60 == TierRpm("starter") < 300 == TierRpm("pro")
    ensures 300 < 1000 == TierRpm("enterprise") < 2000 == TierRpm("mssp")
    ensures other !in {"community", "pro", "enterprise", "mssp"} ==> TierRpm(other) == TierRpm("starter")
  {
  }

  function AtLeastOne(n: int): int {
    if n < 1 then 1 else n
  }

  /** The window of a key once the entries of a minute ago or more are pruned. */
  function Pruned(ts: seq<Time>, now: Time): seq<Time> {
    After(ts, now - MINUTE)
  }

  predicate LocalAdmits(ts: seq<Time>, rpm: nat, now: Time) {
    |Pruned(ts, now)| < rpm
  }

  function LocalVerdict(ts: seq<Time>, rpm: nat, now: Time): Verdict
    requires rpm >= 1
  {
    var kept := Pruned(ts, now);
    if !LocalAdmits(ts, rpm, now) then Verdict(false, 0, AtLeastOne((kept[0] + MINUTE - now).Floor))
    else Verdict(true, rpm - |kept| - 1, 0)
  }

  function LocalNext(ts: seq<Time>, rpm: nat, now: Time): seq<Time> {
    if LocalAdmits(ts, rpm, now) then Pruned(ts, now) + [now] else Pruned(ts, now)
  }

  /** The process-wide fallback windows. The check has no await inside, so it is one step. A
      limit of zero would index an empty list; limits come from the tier table, see TierRpm. */
  class LocalWindows {
    var windows: map<string, seq<Time>>

    constructor ()
      ensures windows == map[]
    {
      windows := map[];
    }

    function Entries(key: string): seq<Time>
      reads this
    {
      if key in windows then windows[key] else []
    }

    method CheckLocal(key: string, rpm: nat, now: Time) returns (v: Verdict)
      requires rpm >= 1
      modifies this
      ensures v == LocalVerdict(old(Entries(key)), rpm, now)
      ensures windows == old(windows)[key := LocalNext(old(Entries(key)), rpm, now)]
    {
      var windowStart := now - MINUTE;
      var timestamps := After(Entries(key), windowStart);
      windows := windows[key := timestamps];
      var count := |timestamps|;
      if count >= rpm {
        return Verdict(false, 0, AtLeastOne((timestamps[0] + MINUTE - now).Floor));
      }
      windows := windows[key := timestamps + [now]];
      return Verdict(true, rpm - count - 1, 0);
    }
  }

  /** UTC minute of a wall-clock reading: whole seconds first, then whole minutes. */
  function MinuteBucket(wall: Time): int {
    wall.Floor / 60
  }

  predicate RedisAdmits(current: nat, rpm: nat) {
    current <= rpm
  }

  /** The verdict for the value INCR returned, with a later reading of the wall clock. */
  function RedisVerdict(current: nat, rpm: nat, wall: Time): Verdict {
    if !RedisAdmits(current, rpm) then Verdict(false, 0, AtLeastOne(60 - wall.Floor % 60))
    else Verdict(true, rpm - current, 0)
  }

  /** The shared counters, one per tenant and minute. */
  class RedisStore {
    var counters: map<(string, int), nat>

    constructor ()
      ensures counters == map[]
    {
      counters := map[];
    }

    function Value(key: (string, int)): nat
      reads this
    {
      if key in counters then counters[key] else 0
    }
  }

  /** The Redis check of one process, with its fallback: `wall` chooses the minute, `later`
      is the reading used for Retry-After, and the flags say which commands come back. */
  method CheckRedis(redis: RedisStore, fallback: LocalWindows, key: string, rpm: nat,
                    wall: Time, later: Time, mono: Time, incrWorks: bool, expireWorks: bool)
    returns (v: Verdict)
    requires rpm >= 1
    modifies redis, fallback
    ensures var redisKey := (key, MinuteBucket(wall));
            var current := old(redis.Value(redisKey)) + 1;
      if incrWorks && (current != 1 || expireWorks) then
        && v == RedisVerdict(current, rpm, later)
        && (v.allowed <==> current <= rpm)
        && (v.allowed ==> v.remaining == rpm - current && v.retryAfter == 0)
        && (!v.allowed ==> v.remaining == 0 && 1 <= v.retryAfter <= 60)
        && redis.counters == old(redis.counters)[redisKey := current]
        && fallback.windows == old(fallback.windows)
      else
        && v == LocalVerdict(old(fallback.Entries(key)), rpm, mono)
        && fallback.windows == old(fallback.windows)[key := LocalNext(old(fallback.Entries(key)), rpm, mono)]
        && redis.counters == if incrWorks then old(redis.counters)[redisKey := current] else old(redis.counters)
  {
    var redisKey := (key, MinuteBucket(wall));
    if incrWorks {
      var current := redis.Value(redisKey) + 1;
      redis.counters := redis.counters[redisKey := current];
      if current != 1 || expireWorks {
        if current > rpm {
          return Verdict(false, 0, AtLeastOne(60 - later.Floor % 60));
        }
        return Verdict(true, rpm - current, 0);
      }
    }
    v := fallback.CheckLocal(key, rpm, mono);
  }

  lemma BucketSpan(wall: Time)
    ensures MINUTE * MinuteBucket(wall) as real <= wall < MINUTE * MinuteBucket(wall) as real + MINUTE
  {
  }

  /** Waiting out the Retry-After of a Redis denial ends in the very next minute bucket. */
  lemma {:induction false} RedisRetryReachesNextBucket(current: nat, rpm: nat, wall: Time)
    requires current > rpm
    ensures MinuteBucket(wall + RedisVerdict(current, rpm, wall).retryAfter as real) == MinuteBucket(wall) + 1
  {
    var wait := 60 - wall.Floor % 60;
    assert (wall + wait as real).Floor == wall.Floor + wait;
  }

  /** Redis admits while the counter has not passed the limit, and `remaining` is the number of
      further INCRs of the bucket that it will admit, whenever they come. */
  lemma RedisRemainingIsExact(current: nat, rpm: nat, wall: Time, further: nat, later: Time)
    ensures var v := RedisVerdict(current, rpm, wall);
      && (v.allowed <==> current <= rpm)
      && (v.allowed ==> v.remaining >= 0 && (RedisVerdict(current + further, rpm, later).allowed <==> further <= v.remaining))
      && (!v.allowed ==> v.remaining == 0 && !RedisVerdict(current + further, rpm, later).allowed)
  {
  }

  /** The number of further requests let through at once is what `remaining` says. */
  lemma {:induction false} RemainingIsExact(ts: seq<Time>, rpm: nat, now: Time)
    requires rpm >= 1 && LocalVerdict(ts, rpm, now).allowed
    ensures var left := LocalVerdict(ts, rpm, now).remaining;
            var next := LocalVerdict(LocalNext(ts, rpm, now), rpm, now);
      && left >= 0
      && (next.allowed <==> left > 0)
      && (next.allowed ==> next.remaining == left - 1)
  {
    var kept := Pruned(ts, now);
    AfterConcat(kept, [now], now - MINUTE);
    AfterKeeps(ts, now - MINUTE);
    AfterAll(kept, now - MINUTE);
  }

  /** The Retry-After of the fallback counts from the oldest entry and is cut to whole seconds.
      A denied client that waits for it, with nothing else admitted meanwhile, is let in if and
      only if the entry `rpm` places from the end has left the window by then. The window can
      hold more than `rpm` entries: the limit is that of the tenant's present tier. */
  lemma {:induction false} LocalRetryIsEnough(ts: seq<Time>, rpm: nat, now: Time)
    requires rpm >= 1 && Sorted(ts) && !LocalVerdict(ts, rpm, now).allowed
    ensures var kept := Pruned(ts, now);
            var later := now + LocalVerdict(ts, rpm, now).retryAfter as real;
            var retry := LocalVerdict(LocalNext(ts, rpm, now), rpm, later);
      |kept| >= rpm && (retry.allowed <==> kept[|kept| - rpm] + MINUTE <= later)
  {
    AfterSorted(ts, now - MINUTE);
    AfterLeavesFewer(Pruned(ts, now), rpm, now + LocalVerdict(ts, rpm, now).retryAfter as real - MINUTE);
  }

  /** Whole numbers, or waits of at most a second. */
  predicate WholeOrShort(wait: Time) {
    wait <= 1.0 || wait == wait.Floor as real
  }

  /** With exactly `rpm` entries in the window, as when the tier has not changed, that is so
      if and only if the exact wait is a whole number of seconds or at most one. */
  lemma {:induction false} RetryAtTheLimit(ts: seq<Time>, rpm: nat, now: Time)
    requires rpm >= 1 && Sorted(ts) && |Pruned(ts, now)| == rpm
    ensures var denied := LocalVerdict(ts, rpm, now);
            var retry := LocalVerdict(LocalNext(ts, rpm, now), rpm, now + denied.retryAfter as real);
      && !denied.allowed
      && (retry.allowed <==> WholeOrShort(Pruned(ts, now)[0] + MINUTE - now))
  {
    AfterKeeps(ts, now - MINUTE);
    LocalRetryIsEnough(ts, rpm, now);
  }

  /** Whatever the tier, its whole limit used at 1.5 s leaves a wait of a second and a half at
      60 s, which is announced as one second. */
  lemma {:induction false} LocalRetryCanBeShort(tier: string)
    ensures var ts, rpm := Repeated(1.5, TierRpm(tier)), TierRpm(tier);
      && LocalVerdict(ts, rpm, 60.0) == Verdict(false, 0, 1)
      && !LocalVerdict(LocalNext(ts, rpm, 60.0), rpm, 61.0).allowed
  {
    var ts := Repeated(1.5, TierRpm(tier));
    AfterAll(ts, 0.0);
    AfterAll(ts, 1.0);
  }

  /** After a change to a smaller tier even a whole wait can be too short: with twice the new
      limit in the window, the oldest entries leave it after one second and too many stay. */
  lemma {:induction false} RetryAfterDowngradeCanBeShort(tier: string)
    ensures var rpm := TierRpm(tier);
            var ts := Repeated(1.0, rpm) + Repeated(2.0, rpm);
      && LocalVerdict(ts, rpm, 60.0) == Verdict(false, 0, 1) && WholeOrShort(ts[0] + MINUTE - 60.0)
      && !LocalVerdict(LocalNext(ts, rpm, 60.0), rpm, 61.0).allowed
  {
    var rpm := TierRpm(tier);
    var ts := Repeated(1.0, rpm) + Repeated(2.0, rpm);
    AfterAll(ts, 0.0);
    AfterConcat(Repeated(1.0, rpm), Repeated(2.0, rpm), 1.0);
    AfterNone(Repeated(1.0, rpm), 1.0);
    AfterAll(Repeated(2.0, rpm), 1.0);
  }
}
