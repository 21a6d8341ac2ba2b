/** The pods of a SaaS deployment that limit one tenant through a shared Redis counter
    and fall back to their own window when Redis fails
    (src/tiresias/proxy/rate_limit.py:53-96, 150-157).

    `now` is the time of the Redis server; each pod reads a clock that is a fixed offset
    away from it. Reading the minute, INCR and EXPIRE are separate steps. */
module MinuteProtocol {
  import opened Counting
  import opened Timeline
  import opened MinuteLimiter

  type Pod = nat
  type Request = nat

  const KEY_TTL: Time := 120.0

  /** Clock offsets lie in `[low, low + skew]`; an INCR runs at most `latency` after the
      minute was read. */
  datatype Config = Config(rpm: nat, low: Time, skew: Time, latency: Time)

  datatype Expiry = Never | At(time: Time)
  datatype Counter = Counter(value: nat, expiry: Expiry)

  datatype Phase =
    | Idle
    | MinuteRead(pod: Pod, read: Time, wall: Time, bucket: int)
    | FirstInMinute(pod: Pod, read: Time, wall: Time, bucket: int, at: Time)   // INCR returned 1, EXPIRE not yet sent

  /** An admitted request, dated `at` by the server time of the INCR or of the local check that
      counted it. `wall` is what its pod's clock read, at server time `read`, when it chose the
      minute bucket. */
  datatype Admission =
    | ViaRedis(pod: Pod, read: Time, wall: Time, bucket: int, at: Time)
    | ViaLocal(pod: Pod, at: Time)

  /** `incrs` counts every INCR ever executed, by bucket. */
  datatype Sys = Sys(
    now: Time,
    pods: map<Pod, Time>,
    counters: map<int, Counter>,
    local: map<Pod, seq<Time>>,
    requests: map<Request, Phase>,
    incrs: multiset<int>,
    admitted: seq<Admission>)

  datatype Action =
    | Tick(to: Time)
    | ReadMinute(id: Request, pod: Pod)
    | Incr(id: Request)
    | Expire(id: Request)
    | Fail(id: Request, executed: bool)    // the pending INCR or EXPIRE raises
    | LocalOnly(id: Request, pod: Pod)     // no Redis connection at all
    | DropExpired(bucket: int)

  predicate InPhase(s: Sys, id: Request, first: bool) {
    id in s.requests && (if first then s.requests[id].FirstInMinute? else s.requests[id].MinuteRead?)
  }

  predicate Enabled(cfg: Config, s: Sys, a: Action) {
    match a
    case Tick(to) => s.now <= to
    case ReadMinute(id, pod) => id in s.requests && s.requests[id].Idle? && pod in s.pods
    case Incr(id) => InPhase(s, id, false) && s.now - s.requests[id].read <= cfg.latency
    case Expire(id) => InPhase(s, id, true)
    case Fail(id, executed) =>
      id in s.requests && !s.requests[id].Idle? &&
      (executed && s.requests[id].MinuteRead? ==> s.now - s.requests[id].read <= cfg.latency)
    case LocalOnly(id, pod) => id in s.requests && s.requests[id].Idle? && pod in s.pods
    case DropExpired(b) => b in s.counters && s.counters[b].expiry.At? && s.counters[b].expiry.time <= s.now
  }

  function AfterIncr(s: Sys, b: int): Counter {
    if b in s.counters then s.counters[b].(value := s.counters[b].value + 1) else Counter(1, Never)
  }

  function WithIncr(s: Sys, b: int): Sys {
    s.(counters := s.counters[b := AfterIncr(s, b)], incrs := s.incrs + multiset{b})
  }

  function WithExpire(s: Sys, b: int): Sys {
    if b in s.counters then s.(counters := s.counters[b := s.counters[b].(expiry := At(s.now + KEY_TTL))]) else s
  }

  function WithAdmission(s: Sys, a: Admission): Sys {
    s.(admitted := s.admitted + [a])
  }

  function LocalOf(s: Sys, pod: Pod): seq<Time> {
    if pod in s.local then s.local[pod] else []
  }

  /** One call of the fallback check in `pod`. */
  function WithLocalCheck(cfg: Config, s: Sys, pod: Pod): Sys {
    s.(local := s.local[pod := LocalNext(LocalOf(s, pod), cfg.rpm, s.now)],
       admitted := if LocalAdmits(LocalOf(s, pod), cfg.rpm, s.now) then s.admitted + [ViaLocal(pod, s.now)] else s.admitted)
  }

  function WithPhase(s: Sys, id: Request, p: Phase): Sys {
    s.(requests := s.requests[id := p])
  }

  /** The request in phase `p`, admitted by an INCR at time `at`. */
  function Admitted(p: Phase, at: Time): Admission
    requires !p.Idle?
  {
    ViaRedis(p.pod, p.read, p.wall, p.bucket, at)
  }

  function ApplyIncr(cfg: Config, s: Sys, id: Request): Sys
    requires InPhase(s, id, false)
  {
    var p := s.requests[id];
    var current := AfterIncr(s, p.bucket).value;
    var s' := WithIncr(s, p.bucket);
    if current == 1 then WithPhase(s', id, FirstInMinute(p.pod, p.read, p.wall, p.bucket, s.now))
    else if RedisAdmits(current, cfg.rpm) then WithAdmission(WithPhase(s', id, Idle), Admitted(p, s.now))
    else WithPhase(s', id, Idle)
  }

  function ApplyExpire(cfg: Config, s: Sys, id: Request): Sys
    requires InPhase(s, id, true)
  {
    var p := s.requests[id];
    var s' := WithPhase(WithExpire(s, p.bucket), id, Idle);
    if RedisAdmits(1, cfg.rpm) then WithAdmission(s', Admitted(p, p.at)) else s'
  }

  /** The exception path of the Redis check, up to the call of the fallback; a failed
      command may or may not have run on the server. */
  function Failed(s: Sys, id: Request, executed: bool): Sys
    requires id in s.requests && !s.requests[id].Idle?
  {
    var p := s.requests[id];
    WithPhase(if !executed then s else if p.MinuteRead? then WithIncr(s, p.bucket) else WithExpire(s, p.bucket), id, Idle)
  }

  function Apply(cfg: Config, s: Sys, a: Action): Sys
    requires Enabled(cfg, s, a)
  {
    match a
    case Tick(to) => s.(now := to)
    case ReadMinute(id, pod) =>
      var wall := s.now + s.pods[pod];
      WithPhase(s, id, MinuteRead(pod, s.now, wall, MinuteBucket(wall)))
    case Incr(id) => ApplyIncr(cfg, s, id)
    case Expire(id) => ApplyExpire(cfg, s, id)
    case Fail(id, executed) => WithLocalCheck(cfg, Failed(s, id, executed), s.requests[id].pod)
    case LocalOnly(id, pod) => WithLocalCheck(cfg, s, pod)
    case DropExpired(b) => s.(counters := s.counters - {b})
  }

  ghost predicate Step(cfg: Config, s: Sys, s': Sys) {
    exists a :: Enabled(cfg, s, a) && s' == Apply(cfg, s, a)
  }

  ghost predicate Init(cfg: Config, s: Sys) {
    && s.counters == map[] && s.local == map[] && s.incrs == multiset{} && s.admitted == []
    && (forall p :: p in s.pods ==> cfg.low <= s.pods[p] <= cfg.low + cfg.skew)
    && forall id :: id in s.requests ==> s.requests[id].Idle?
  }

  ghost predicate IsRun(cfg: Config, run: seq<Sys>) {
    && run != [] && Init(cfg, run[0])
    && forall i :: 0 <= i < |run| - 1 ==> Step(cfg, run[i], run[i + 1])
  }

  // ----- the counter of a minute outlives the minute

  /** No EXPIRE sent for bucket `b` can run out before this server time. */
  function EarliestDrop(cfg: Config, b: int): Time {
    MINUTE * b as real - cfg.low - cfg.skew + KEY_TTL
  }

  /** The bucket of a pending request is the minute its pod's clock showed, and its INCR, if it
      has run, was in time. */
  predicate PhaseOk(cfg: Config, s: Sys, p: Phase) {
    && (!p.Idle? ==>
      && p.pod in s.pods && p.read <= s.now && p.wall == p.read + s.pods[p.pod]
      && MINUTE * p.bucket as real <= p.wall < MINUTE * p.bucket as real + MINUTE)
    && (p.FirstInMinute? ==> p.read <= p.at <= p.read + cfg.latency)
  }

  /** As long as a drop is impossible the counter holds every INCR of its bucket. */
  ghost predicate CounterInv(cfg: Config, s: Sys, b: int) {
    && (b in s.counters && s.counters[b].expiry.At? ==> s.counters[b].expiry.time >= EarliestDrop(cfg, b))
    && (s.now < EarliestDrop(cfg, b) ==>
          if s.incrs[b] > 0 then b in s.counters && s.counters[b].value == s.incrs[b] else b !in s.counters)
  }

  ghost predicate Inv(cfg: Config, s: Sys) {
    && (forall p :: p in s.pods ==> cfg.low <= s.pods[p] <= cfg.low + cfg.skew)
    && (forall id :: id in s.requests ==> PhaseOk(cfg, s, s.requests[id]))
    && forall b :: CounterInv(cfg, s, b)
  }

  lemma FailKeepsRequests(cfg: Config, s: Sys, a: Action)
    requires Enabled(cfg, s, a) && a.Fail?
    ensures var s' := Apply(cfg, s, a); s'.requests.Keys == s.requests.Keys && s'.pods == s.pods && s.now == s'.now
  {
  }

  lemma IncrKeepsRequests(cfg: Config, s: Sys, a: Action)
    requires Enabled(cfg, s, a) && (a.Incr? || a.Expire?)
    ensures var s' := Apply(cfg, s, a); s'.requests.Keys == s.requests.Keys && s'.pods == s.pods && s.now == s'.now
  {
  }

  lemma {:induction false} RequestsStay(cfg: Config, s: Sys, a: Action)
    requires Enabled(cfg, s, a)
    ensures var s' := Apply(cfg, s, a);
      && s'.requests.Keys == s.requests.Keys && s'.pods == s.pods && s.now <= s'.now
      && (a.ReadMinute? ==> a.pod in s.pods && s'.now == s.now)
  {
    if a.Fail? {
      FailKeepsRequests(cfg, s, a);
    } else if a.Incr? || a.Expire? {
      IncrKeepsRequests(cfg, s, a);
    }
  }

  /** A request enters a phase by reading its minute, keeps the reading in it, or is done. */
  lemma {:induction false} PhaseMoves(cfg: Config, s: Sys, a: Action, id: Request)
    requires Enabled(cfg, s, a) && id in s.requests
    ensures var s' := Apply(cfg, s, a);
            var p, p' := s.requests[id], s'.requests[id];
         || p'.Idle?
         || p' == p
         || (p.MinuteRead? && s.now - p.read <= cfg.latency
             && p' == FirstInMinute(p.pod, p.read, p.wall, p.bucket, s.now) && s'.now == s.now)
         || (a.ReadMinute? && p' == MinuteRead(a.pod, s.now, s.now + s.pods[a.pod], MinuteBucket(s.now + s.pods[a.pod])))
  {
    RequestsStay(cfg, s, a);
  }

  lemma {:induction false} PhaseStep(cfg: Config, s: Sys, a: Action, id: Request)
    requires Inv(cfg, s) && Enabled(cfg, s, a) && id in s.requests
    ensures Apply(cfg, s, a).requests.Keys == s.requests.Keys && PhaseOk(cfg, Apply(cfg, s, a), Apply(cfg, s, a).requests[id])
  {
    assert PhaseOk(cfg, s, s.requests[id]);
    RequestsStay(cfg, s, a);
    PhaseMoves(cfg, s, a, id);
    if a.ReadMinute? {
      BucketSpan(s.now + s.pods[a.pod]);
    }
  }

  lemma {:induction false} InvPhases(cfg: Config, s: Sys, a: Action)
    requires Inv(cfg, s) && Enabled(cfg, s, a)
    ensures var s' := Apply(cfg, s, a);
      s'.pods == s.pods && forall id :: id in s'.requests ==> PhaseOk(cfg, s', s'.requests[id])
  {
    assert a.ReadMinute? ==> a.id in s.requests;
    forall id | id in s.requests ensures PhaseOk(cfg, Apply(cfg, s, a), Apply(cfg, s, a).requests[id]) {
      PhaseStep(cfg, s, a, id);
    }
    assert Apply(cfg, s, a).requests.Keys == s.requests.Keys;
  }

  lemma {:induction false} InvCounter(cfg: Config, s: Sys, a: Action, b: int)
    requires Inv(cfg, s) && Enabled(cfg, s, a)
    ensures CounterInv(cfg, Apply(cfg, s, a), b)
  {
    assert CounterInv(cfg, s, b);
    if a.Expire? || a.Fail? {
      assert PhaseOk(cfg, s, s.requests[a.id]);
    }
  }

  lemma {:induction false} InvStep(cfg: Config, s: Sys, a: Action)
    requires Inv(cfg, s) && Enabled(cfg, s, a)
    ensures Inv(cfg, Apply(cfg, s, a))
  {
    InvPhases(cfg, s, a);
    forall b ensures CounterInv(cfg, Apply(cfg, s, a), b) {
      InvCounter(cfg, s, a, b);
    }
  }

  // ----- at most `rpm` admissions in a minute bucket

  function RedisIn(b: int): Admission -> bool {
    (a: Admission) => a.ViaRedis? && a.bucket == b
  }

  function Pending(s: Sys, b: int): set<Request> {
    set id | id in s.requests && s.requests[id].FirstInMinute? && s.requests[id].bucket == b
  }

  ghost predicate BucketBound(cfg: Config, s: Sys, b: int) {
    && Count(s.admitted, RedisIn(b)) + |Pending(s, b)| <= cfg.rpm
    && Count(s.admitted, RedisIn(b)) + |Pending(s, b)| <= s.incrs[b]
  }

  lemma {:induction false} IncrSeesAll(cfg: Config, s: Sys, id: Request)
    requires Inv(cfg, s) && cfg.skew + cfg.latency <= MINUTE
    requires InPhase(s, id, false) && s.now - s.requests[id].read <= cfg.latency
    ensures AfterIncr(s, s.requests[id].bucket).value == s.incrs[s.requests[id].bucket] + 1
  {
    assert PhaseOk(cfg, s, s.requests[id]);
    assert CounterInv(cfg, s, s.requests[id].bucket);
  }

  lemma {:induction false} PendingAfterIncr(cfg: Config, s: Sys, id: Request, b: int)
    requires InPhase(s, id, false)
    ensures var s' := ApplyIncr(cfg, s, id);
      |Pending(s', b)| == |Pending(s, b)| + (if s.requests[id].bucket == b && s'.requests[id].FirstInMinute? then 1 else 0)
  {
    var s' := ApplyIncr(cfg, s, id);
    if s'.requests[id].FirstInMinute? && s.requests[id].bucket == b {
      assert Pending(s', b) == Pending(s, b) + {id};
    } else {
      assert Pending(s', b) == Pending(s, b);
    }
  }

  /** The second INCR of a bucket and each up to the limit admits at once. */
  lemma {:induction false} AdmittedAfterIncr(cfg: Config, s: Sys, id: Request, b: int)
    requires InPhase(s, id, false)
    ensures var s', current := ApplyIncr(cfg, s, id), AfterIncr(s, s.requests[id].bucket).value;
      Count(s'.admitted, RedisIn(b))
      == Count(s.admitted, RedisIn(b)) + (if s.requests[id].bucket == b && current != 1 && current <= cfg.rpm then 1 else 0)
  {
    CountAppend(s.admitted, Admitted(s.requests[id], s.now), RedisIn(b));
  }

  lemma {:induction false} BucketIncr(cfg: Config, s: Sys, id: Request, b: int)
    requires cfg.rpm >= 1 && Inv(cfg, s) && cfg.skew + cfg.latency <= MINUTE
    requires InPhase(s, id, false) && s.now - s.requests[id].read <= cfg.latency && BucketBound(cfg, s, b)
    ensures BucketBound(cfg, ApplyIncr(cfg, s, id), b)
  {
    IncrSeesAll(cfg, s, id);
    AdmittedAfterIncr(cfg, s, id, b);
    PendingAfterIncr(cfg, s, id, b);
  }

  lemma {:induction false} PendingAfterExpire(cfg: Config, s: Sys, id: Request, b: int)
    requires InPhase(s, id, true)
    ensures |Pending(ApplyExpire(cfg, s, id), b)| == |Pending(s, b)| - (if s.requests[id].bucket == b then 1 else 0)
  {
    var s' := ApplyExpire(cfg, s, id);
    assert Pending(s', b) == Pending(s, b) - {id};
    assert s.requests[id].bucket == b ==> id in Pending(s, b);
  }

  lemma {:induction false} AdmittedAfterExpire(cfg: Config, s: Sys, id: Request, b: int)
    requires InPhase(s, id, true) && cfg.rpm >= 1
    ensures Count(ApplyExpire(cfg, s, id).admitted, RedisIn(b))
            == Count(s.admitted, RedisIn(b)) + (if s.requests[id].bucket == b then 1 else 0)
    ensures ApplyExpire(cfg, s, id).incrs == s.incrs
  {
    CountAppend(s.admitted, Admitted(s.requests[id], s.requests[id].at), RedisIn(b));
  }

  lemma {:induction false} BucketExpire(cfg: Config, s: Sys, id: Request, b: int)
    requires InPhase(s, id, true) && cfg.rpm >= 1 && BucketBound(cfg, s, b)
    ensures BucketBound(cfg, ApplyExpire(cfg, s, id), b)
  {
    PendingAfterExpire(cfg, s, id, b);
    AdmittedAfterExpire(cfg, s, id, b);
  }

  lemma {:induction false} BucketLocalCheck(cfg: Config, s: Sys, pod: Pod, b: int)
    requires BucketBound(cfg, s, b)
    ensures BucketBound(cfg, WithLocalCheck(cfg, s, pod), b)
  {
    CountAppend(s.admitted, ViaLocal(pod, s.now), RedisIn(b));
    assert Pending(WithLocalCheck(cfg, s, pod), b) == Pending(s, b);
  }

  lemma {:induction false} BucketStep(cfg: Config, s: Sys, a: Action, b: int)
    requires cfg.rpm >= 1 && Inv(cfg, s) && cfg.skew + cfg.latency <= MINUTE
    requires Enabled(cfg, s, a) && BucketBound(cfg, s, b)
    ensures BucketBound(cfg, Apply(cfg, s, a), b)
  {
    match a
    case Incr(id) => BucketIncr(cfg, s, id, b);
    case Expire(id) => BucketExpire(cfg, s, id, b);
    case Fail(id, executed) =>
      var t := Failed(s, id, executed);
      SubsetSize(Pending(t, b), Pending(s, b));
      BucketLocalCheck(cfg, t, s.requests[id].pod, b);
    case LocalOnly(_, pod) => BucketLocalCheck(cfg, s, pod, b);
    case _ => assert Pending(Apply(cfg, s, a), b) == Pending(s, b);
  }

  /** Over every run, however the pods interleave and however often Redis fails, a minute
      bucket admits at most `rpm` requests through Redis, provided that clock skew and INCR
      latency together stay within a minute: then the 120 s TTL cannot run out while the
      bucket is still in use. */
  lemma {:induction false} BucketAdmitsAtMostRpm(cfg: Config, run: seq<Sys>, b: int)
    requires cfg.rpm >= 1 && cfg.skew + cfg.latency <= MINUTE && IsRun(cfg, run)
    ensures Inv(cfg, run[|run| - 1]) && BucketBound(cfg, run[|run| - 1], b)
    ensures Count(run[|run| - 1].admitted, RedisIn(b)) <= cfg.rpm
  {
    var s := run[|run| - 1];
    if |run| == 1 {
      assert Pending(s, b) == {};
    } else {
      BucketAdmitsAtMostRpm(cfg, run[..|run| - 1], b);
      assert Step(cfg, run[|run| - 2], s);
      var a :| Enabled(cfg, run[|run| - 2], a) && s == Apply(cfg, run[|run| - 2], a);
      InvStep(cfg, run[|run| - 2], a);
      BucketStep(cfg, run[|run| - 2], a, b);
    }
  }

  /** A request that Redis answers in time is turned away exactly when the minute has already
      been counted up to the limit; otherwise it is told how many INCRs the limit leaves. */
  lemma {:induction false} DeniedExactlyWhenUsedUp(cfg: Config, run: seq<Sys>, id: Request)
    requires cfg.rpm >= 1 && cfg.skew + cfg.latency <= MINUTE && IsRun(cfg, run)
    requires InPhase(run[|run| - 1], id, false) && Enabled(cfg, run[|run| - 1], Incr(id))
    ensures var s := run[|run| - 1];
            var s' := Apply(cfg, s, Incr(id));
            var b := s.requests[id].bucket;
            var told := RedisVerdict(AfterIncr(s, b).value, cfg.rpm, s.requests[id].wall);
      && (s'.requests[id].Idle? && s'.admitted == s.admitted <==> s.incrs[b] >= cfg.rpm)
      && (told.allowed <==> s.incrs[b] < cfg.rpm)
      && (told.allowed ==> told.remaining == cfg.rpm - s'.incrs[b])
  {
    BucketAdmitsAtMostRpm(cfg, run, 0);
    IncrSeesAll(cfg, run[|run| - 1], id);
  }

  /** By what the pod's own clock showed when it read the minute. */
  function RedisOwnClock(a: Time): Admission -> bool {
    (x: Admission) => x.ViaRedis? && a <= x.wall < a + MINUTE
  }

  function EitherBucket(b: int): Admission -> bool {
    (x: Admission) => x.ViaRedis? && (x.bucket == b || x.bucket == b + 1)
  }

  /** A fixed minute counter lets at most twice the limit through in any minute of the
      pods' own clocks. */
  lemma {:induction false} AnyMinuteAdmitsAtMostTwice(cfg: Config, run: seq<Sys>, a: Time)
    requires cfg.rpm >= 1 && cfg.skew + cfg.latency <= MINUTE && IsRun(cfg, run)
    ensures Count(run[|run| - 1].admitted, RedisOwnClock(a)) <= 2 * cfg.rpm
  {
    var b := MinuteBucket(a);
    var log := run[|run| - 1].admitted;
    AdmissionsKeepTheirReading(cfg, run);
    BucketSpan(a);
    CountMonotone(log, RedisOwnClock(a), EitherBucket(b));
    CountSplit(log, EitherBucket(b), RedisIn(b), RedisIn(b + 1));
    BucketAdmitsAtMostRpm(cfg, run, b);
    BucketAdmitsAtMostRpm(cfg, run, b + 1);
  }

  function RedisAt(a: Time): Admission -> bool {
    (x: Admission) => x.ViaRedis? && a <= x.at < a + MINUTE
  }

  function ThreeBuckets(b: int): Admission -> bool {
    (x: Admission) => x.ViaRedis? && b <= x.bucket <= b + 2
  }

  lemma {:induction false} ThreeBucketsAdmit(cfg: Config, run: seq<Sys>, b: int)
    requires cfg.rpm >= 1 && cfg.skew + cfg.latency <= MINUTE && IsRun(cfg, run)
    ensures Count(run[|run| - 1].admitted, ThreeBuckets(b)) <= 3 * cfg.rpm
  {
    var log := run[|run| - 1].admitted;
    CountSplit(log, ThreeBuckets(b), EitherBucket(b), RedisIn(b + 2));
    CountSplit(log, EitherBucket(b), RedisIn(b), RedisIn(b + 1));
    BucketAdmitsAtMostRpm(cfg, run, b);
    BucketAdmitsAtMostRpm(cfg, run, b + 1);
    BucketAdmitsAtMostRpm(cfg, run, b + 2);
  }

  /** The INCRs of a minute of one clock, that of the server, can belong to three different
      minutes of the pods' clocks, and no more: skew and latency stretch the readings behind
      them to less than two minutes. */
  lemma {:induction false} AnyServerMinuteAdmitsAtMostThrice(cfg: Config, run: seq<Sys>, a: Time)
    requires cfg.rpm >= 1 && cfg.skew + cfg.latency <= MINUTE && IsRun(cfg, run)
    ensures Count(run[|run| - 1].admitted, RedisAt(a)) <= 3 * cfg.rpm
  {
    var b := MinuteBucket(a - cfg.latency + cfg.low);
    AdmissionsKeepTheirReading(cfg, run);
    BucketSpan(a - cfg.latency + cfg.low);
    forall x | x in run[|run| - 1].admitted && RedisAt(a)(x) ensures ThreeBuckets(b)(x) {
      assert ReadingOk(cfg, run[|run| - 1], x);
    }
    CountMonotone(run[|run| - 1].admitted, RedisAt(a), ThreeBuckets(b));
    ThreeBucketsAdmit(cfg, run, b);
  }

  /** Without skew and latency an INCR runs at its reading, on the one clock of all pods. */
  lemma {:induction false} WithoutDelayAtMostTwice(cfg: Config, run: seq<Sys>, a: Time)
    requires cfg.rpm >= 1 && cfg.skew == cfg.latency == 0.0 && IsRun(cfg, run)
    ensures Count(run[|run| - 1].admitted, RedisAt(a)) <= 2 * cfg.rpm
  {
    AdmissionsKeepTheirReading(cfg, run);
    forall x | x in run[|run| - 1].admitted && RedisAt(a)(x) ensures RedisOwnClock(a + cfg.low)(x) {
      assert ReadingOk(cfg, run[|run| - 1], x);
    }
    CountMonotone(run[|run| - 1].admitted, RedisAt(a), RedisOwnClock(a + cfg.low));
    AnyMinuteAdmitsAtMostTwice(cfg, run, a + cfg.low);
  }

  /** The INCR of an admission ran within the latency after its pod had read the minute. */
  predicate ReadingOk(cfg: Config, s: Sys, x: Admission) {
    x.ViaRedis? ==>
      && x.pod in s.pods && x.wall == x.read + s.pods[x.pod] && x.read <= x.at <= x.read + cfg.latency
      && MINUTE * x.bucket as real <= x.wall < MINUTE * x.bucket as real + MINUTE
  }

  ghost predicate ReadingsOk(cfg: Config, s: Sys) {
    forall x :: x in s.admitted ==> ReadingOk(cfg, s, x)
  }

  lemma {:induction false} AdmissionsKeepTheirReading(cfg: Config, run: seq<Sys>)
    requires IsRun(cfg, run)
    ensures Inv(cfg, run[|run| - 1]) && ReadingsOk(cfg, run[|run| - 1])
  {
    if |run| > 1 {
      var s, s' := run[|run| - 2], run[|run| - 1];
      AdmissionsKeepTheirReading(cfg, run[..|run| - 1]);
      assert Step(cfg, s, s');
      var act :| Enabled(cfg, s, act) && s' == Apply(cfg, s, act);
      InvStep(cfg, s, act);
      ReadingsStep(cfg, s, act);
    }
  }

  lemma {:induction false} ReadingsStep(cfg: Config, s: Sys, a: Action)
    requires Inv(cfg, s) && Enabled(cfg, s, a)
    requires ReadingsOk(cfg, s)
    ensures ReadingsOk(cfg, Apply(cfg, s, a))
  {
    var s' := Apply(cfg, s, a);
    InvPhases(cfg, s, a);
    forall x | x in s'.admitted ensures ReadingOk(cfg, s', x) {
      if x in s.admitted {
        assert ReadingOk(cfg, s, x);
      } else if a.Incr? || a.Expire? {
        assert PhaseOk(cfg, s, s.requests[a.id]);
      }
    }
  }

  // ----- a pod that switches between Redis and its own window

  function LocalSince(pod: Pod, c: Time): Admission -> bool {
    (x: Admission) => x.ViaLocal? && x.pod == pod && x.at > c
  }

  function LocalIn(pod: Pod, a: Time): Admission -> bool {
    (x: Admission) => x.ViaLocal? && x.pod == pod && a <= x.at < a + MINUTE
  }

  /** The fallback window holds every local admission of the last minute. */
  ghost predicate LocalInv(s: Sys, pod: Pod) {
    forall c :: s.now - MINUTE <= c ==> Count(s.admitted, LocalSince(pod, c)) == |After(LocalOf(s, pod), c)|
  }

  lemma {:induction false} LocalCheckCounts(cfg: Config, s: Sys, pod: Pod, caller: Pod, c: Time)
    requires s.now - MINUTE <= c && Count(s.admitted, LocalSince(pod, c)) == |After(LocalOf(s, pod), c)|
    ensures var s' := WithLocalCheck(cfg, s, caller);
      Count(s'.admitted, LocalSince(pod, c)) == |After(LocalOf(s', pod), c)|
  {
    CountAppend(s.admitted, ViaLocal(caller, s.now), LocalSince(pod, c));
    if pod == caller {
      var l := LocalOf(s, pod);
      AfterAfter(l, s.now - MINUTE, c);
      AfterConcat(Pruned(l, s.now), [s.now], c);
    }
  }

  lemma {:induction false} LocalCheckKeepsInv(cfg: Config, s: Sys, pod: Pod, caller: Pod)
    requires LocalInv(s, pod)
    ensures LocalInv(WithLocalCheck(cfg, s, caller), pod)
  {
    var s' := WithLocalCheck(cfg, s, caller);
    forall c | s.now - MINUTE <= c
      ensures Count(s'.admitted, LocalSince(pod, c)) == |After(LocalOf(s', pod), c)|
    {
      LocalCheckCounts(cfg, s, pod, caller, c);
    }
  }

  lemma {:induction false} LocalCheckKeepsBound(cfg: Config, s: Sys, pod: Pod, caller: Pod, a: Time)
    requires LocalInv(s, pod) && Count(s.admitted, LocalIn(pod, a)) <= cfg.rpm
    ensures Count(WithLocalCheck(cfg, s, caller).admitted, LocalIn(pod, a)) <= cfg.rpm
  {
    CountAppend(s.admitted, ViaLocal(caller, s.now), LocalIn(pod, a));
    if pod == caller && a <= s.now < a + MINUTE {
      assert Count(s.admitted, LocalSince(pod, s.now - MINUTE)) == |Pruned(LocalOf(s, pod), s.now)|;
      CountMonotone(s.admitted, LocalIn(pod, a), LocalSince(pod, s.now - MINUTE));
    }
  }

  /** A step that does not end in the fallback check admits through Redis, if it admits. */
  lemma OtherStepsAdmit(cfg: Config, s: Sys, act: Action)
    requires Enabled(cfg, s, act) && !act.Fail? && !act.LocalOnly?
    ensures var s' := Apply(cfg, s, act);
      && s'.local == s.local && s.now <= s'.now
      && (s'.admitted == s.admitted
          || (|s'.admitted| == |s.admitted| + 1 && s'.admitted == s.admitted + [s'.admitted[|s.admitted|]]
              && s'.admitted[|s.admitted|].ViaRedis?))
  {
  }

  /** Such a step leaves local matters alone. */
  lemma {:induction false} OtherStepsKeepLocal(cfg: Config, s: Sys, act: Action, pod: Pod, a: Time)
    requires Enabled(cfg, s, act) && !act.Fail? && !act.LocalOnly? && LocalInv(s, pod)
    ensures LocalInv(Apply(cfg, s, act), pod)
    ensures Count(Apply(cfg, s, act).admitted, LocalIn(pod, a)) == Count(s.admitted, LocalIn(pod, a))
  {
    var s' := Apply(cfg, s, act);
    OtherStepsAdmit(cfg, s, act);
    if s'.admitted != s.admitted {
      CountAppend(s.admitted, s'.admitted[|s.admitted|], LocalIn(pod, a));
    }
    forall c | s'.now - MINUTE <= c
      ensures Count(s'.admitted, LocalSince(pod, c)) == |After(LocalOf(s', pod), c)|
    {
      if s'.admitted != s.admitted {
        CountAppend(s.admitted, s'.admitted[|s.admitted|], LocalSince(pod, c));
      }
    }
  }

  lemma {:induction false} LocalStep(cfg: Config, s: Sys, act: Action, pod: Pod, a: Time)
    requires Enabled(cfg, s, act) && LocalInv(s, pod) && Count(s.admitted, LocalIn(pod, a)) <= cfg.rpm
    ensures LocalInv(Apply(cfg, s, act), pod)
    ensures Count(Apply(cfg, s, act).admitted, LocalIn(pod, a)) <= cfg.rpm
  {
    match act
    case Fail(id, executed) =>
      var t := Failed(s, id, executed);
      assert t.now == s.now && t.admitted == s.admitted && t.local == s.local;
      assert LocalInv(t, pod);
      LocalCheckKeepsInv(cfg, t, pod, s.requests[id].pod);
      LocalCheckKeepsBound(cfg, t, pod, s.requests[id].pod, a);
    case LocalOnly(_, caller) =>
      LocalCheckKeepsInv(cfg, s, pod, caller);
      LocalCheckKeepsBound(cfg, s, pod, caller, a);
    case _ => OtherStepsKeepLocal(cfg, s, act, pod, a);
  }

  lemma {:induction false} LocalAdmitsAtMostRpm(cfg: Config, run: seq<Sys>, pod: Pod, a: Time)
    requires IsRun(cfg, run)
    ensures LocalInv(run[|run| - 1], pod)
    ensures Count(run[|run| - 1].admitted, LocalIn(pod, a)) <= cfg.rpm
  {
    var s := run[|run| - 1];
    if |run| > 1 {
      LocalAdmitsAtMostRpm(cfg, run[..|run| - 1], pod, a);
      assert Step(cfg, run[|run| - 2], s);
      var act :| Enabled(cfg, run[|run| - 2], act) && s == Apply(cfg, run[|run| - 2], act);
      LocalStep(cfg, run[|run| - 2], act, pod, a);
    }
  }

  /** A request that falls back is let in exactly when its pod has admitted fewer than `rpm`
      locally in the last minute. */
  lemma {:induction false} FallbackDeniesExactlyWhenUsedUp(cfg: Config, run: seq<Sys>, act: Action)
    requires IsRun(cfg, run) && Enabled(cfg, run[|run| - 1], act) && (act.Fail? || act.LocalOnly?)
    ensures var s := run[|run| - 1];
            var pod := if act.Fail? then s.requests[act.id].pod else act.pod;
      Apply(cfg, s, act).admitted
      == if Count(s.admitted, LocalSince(pod, s.now - 60.0)) < cfg.rpm then s.admitted + [ViaLocal(pod, s.now)] else s.admitted
  {
    var s := run[|run| - 1];
    var pod := if act.Fail? then s.requests[act.id].pod else act.pod;
    LocalAdmitsAtMostRpm(cfg, run, pod, 0.0);
    assert Count(s.admitted, LocalSince(pod, s.now - 60.0)) == |After(LocalOf(s, pod), s.now - 60.0)|;
  }

  function ByPod(pod: Pod, a: Time): Admission -> bool {
    (x: Admission) => x.pod == pod && a <= x.at < a + MINUTE
  }

  function RedisByPod(pod: Pod, a: Time): Admission -> bool {
    (x: Admission) => x.ViaRedis? && x.pod == pod && a <= x.at < a + MINUTE
  }

  lemma {:induction false} SplitByPod(cfg: Config, run: seq<Sys>, pod: Pod, a: Time)
    requires IsRun(cfg, run)
    ensures Count(run[|run| - 1].admitted, ByPod(pod, a)) <= Count(run[|run| - 1].admitted, RedisByPod(pod, a)) + cfg.rpm
  {
    CountSplit(run[|run| - 1].admitted, ByPod(pod, a), RedisByPod(pod, a), LocalIn(pod, a));
    LocalAdmitsAtMostRpm(cfg, run, pod, a);
  }

  /** One process that switches between Redis and its fallback at will admits at most four
      times the limit in any minute: three minute buckets and one sliding window. */
  lemma {:induction false} SwitchingAdmitsAtMostFourfold(cfg: Config, run: seq<Sys>, pod: Pod, a: Time)
    requires cfg.rpm >= 1 && cfg.skew + cfg.latency <= MINUTE && IsRun(cfg, run)
    ensures Count(run[|run| - 1].admitted, ByPod(pod, a)) <= 4 * cfg.rpm
  {
    SplitByPod(cfg, run, pod, a);
    CountMonotone(run[|run| - 1].admitted, RedisByPod(pod, a), RedisAt(a));
    AnyServerMinuteAdmitsAtMostThrice(cfg, run, a);
  }

  /** When every INCR runs at its reading, they are two minute buckets. */
  lemma {:induction false} SwitchingAdmitsAtMostThrice(cfg: Config, run: seq<Sys>, pod: Pod, a: Time)
    requires cfg.rpm >= 1 && cfg.latency == 0.0 && cfg.skew <= MINUTE && IsRun(cfg, run)
    ensures Count(run[|run| - 1].admitted, ByPod(pod, a)) <= 3 * cfg.rpm
  {
    var s := run[|run| - 1];
    SplitByPod(cfg, run, pod, a);
    AdmissionsKeepTheirReading(cfg, run);
    if pod in s.pods {
      forall x | x in s.admitted && RedisByPod(pod, a)(x) ensures RedisOwnClock(a + s.pods[pod])(x) {
        assert ReadingOk(cfg, s, x);
      }
      CountMonotone(s.admitted, RedisByPod(pod, a), RedisOwnClock(a + s.pods[pod]));
      AnyMinuteAdmitsAtMostTwice(cfg, run, a + s.pods[pod]);
    } else {
      forall x | x in s.admitted ensures !RedisByPod(pod, a)(x) {
        assert ReadingOk(cfg, s, x);
      }
      CountNone(s.admitted, RedisByPod(pod, a));
    }
  }

  // ----- runs that reach the bounds, and the exact conditions on skew and latency

  lemma {:induction false} Extend(cfg: Config, run: seq<Sys>, a: Action) returns (r: seq<Sys>)
    requires IsRun(cfg, run) && Enabled(cfg, run[|run| - 1], a)
    ensures IsRun(cfg, r) && r == run + [Apply(cfg, run[|run| - 1], a)]
  {
    r := run + [Apply(cfg, run[|run| - 1], a)];
    forall i | 0 <= i < |r| - 1 ensures Step(cfg, r[i], r[i + 1]) {
      if i < |run| - 1 {
        assert Step(cfg, run[i], run[i + 1]);
      }
    }
  }

  /** Requests 1 to `n` are idle. */
  predicate IdleUpTo(s: Sys, n: nat) {
    forall id :: 1 <= id <= n ==> id in s.requests && s.requests[id].Idle?
  }

  /** The phase of a request that `pod` lets read its minute at server time `read`. */
  function Reading(s: Sys, pod: Pod, read: Time): Phase
    requires pod in s.pods
  {
    MinuteRead(pod, read, read + s.pods[pod], MinuteBucket(read + s.pods[pod]))
  }

  /** Requests 1 to `n` have read their minute in `pod` at server time `read`. */
  predicate Waiting(s: Sys, pod: Pod, read: Time, n: nat)
    requires pod in s.pods
  {
    forall id :: 1 <= id <= n ==> id in s.requests && s.requests[id] == Reading(s, pod, read)
  }

  /** `s'` is `s` but for the phases of requests 1 to `n`. */
  predicate OnlyPhases(s: Sys, s': Sys, n: nat) {
    && s' == s.(requests := s'.requests) && s'.requests.Keys == s.requests.Keys
    && forall id :: id in s.requests && !(1 <= id <= n) ==> s'.requests[id] == s.requests[id]
  }

  lemma {:induction false} ReadersRun(cfg: Config, run: seq<Sys>, pod: Pod, n: nat) returns (r: seq<Sys>)
    requires IsRun(cfg, run) && pod in run[|run| - 1].pods && IdleUpTo(run[|run| - 1], n)
    ensures IsRun(cfg, r) && OnlyPhases(run[|run| - 1], r[|r| - 1], n)
    ensures Waiting(r[|r| - 1], pod, run[|run| - 1].now, n)
  {
    if n == 0 {
      r := run;
    } else {
      r := ReadersRun(cfg, run, pod, n - 1);
      r := Extend(cfg, r, ReadMinute(n, pod));
    }
  }

  /** From `s` to `s'`, at one moment, requests 1 to `n` have become idle and the admission `x`
      has been counted `n` times in a counter opened by the first of them. */
  predicate Burst(s: Sys, s': Sys, x: Admission, n: nat)
    requires x.ViaRedis?
  {
    && s'.now == s.now && s'.pods == s.pods && s'.local == s.local
    && s'.requests.Keys == s.requests.Keys
    && (forall id :: id in s.requests ==> s'.requests[id] == if 1 <= id <= n then Idle else s.requests[id])
    && s'.counters == s.counters[x.bucket := Counter(n, At(s.now + KEY_TTL))]
    && s'.admitted == s.admitted + Repeated(x, n)
  }

  lemma {:induction false} OpensMinute(cfg: Config, run: seq<Sys>, p: Phase) returns (r: seq<Sys>)
    requires IsRun(cfg, run) && cfg.rpm >= 1 && p.MinuteRead? && run[|run| - 1].now - p.read <= cfg.latency
    requires 1 in run[|run| - 1].requests && run[|run| - 1].requests[1] == p && p.bucket !in run[|run| - 1].counters
    ensures IsRun(cfg, r) && Burst(run[|run| - 1], r[|r| - 1], Admitted(p, run[|run| - 1].now), 1)
  {
    var s := run[|run| - 1];
    r := Extend(cfg, run, Incr(1));
    assert r[|r| - 1].requests == s.requests[1 := FirstInMinute(p.pod, p.read, p.wall, p.bucket, s.now)];
    r := Extend(cfg, r, Expire(1));
    assert r[|r| - 1].requests == s.requests[1 := Idle];
    assert [Admitted(p, s.now)] == Repeated(Admitted(p, s.now), 1);
  }

  lemma {:induction false} OneMoreInMinute(cfg: Config, s: Sys, run: seq<Sys>, p: Phase, n: nat) returns (r: seq<Sys>)
    requires IsRun(cfg, run) && 2 <= n <= cfg.rpm && p.MinuteRead? && s.now - p.read <= cfg.latency
    requires n in s.requests && s.requests[n] == p && Burst(s, run[|run| - 1], Admitted(p, s.now), n - 1)
    ensures IsRun(cfg, r) && Burst(s, r[|r| - 1], Admitted(p, s.now), n)
  {
    r := Extend(cfg, run, Incr(n));
    assert r[|r| - 1].requests == run[|run| - 1].requests[n := Idle];
    assert Repeated(Admitted(p, s.now), n) == Repeated(Admitted(p, s.now), n - 1) + [Admitted(p, s.now)];
  }

  /** The INCRs of requests that have read their minute at `read`, all at once. */
  lemma {:induction false} IncrsRun(cfg: Config, run: seq<Sys>, pod: Pod, read: Time, n: nat) returns (r: seq<Sys>)
    requires IsRun(cfg, run) && 1 <= n <= cfg.rpm && pod in run[|run| - 1].pods && Waiting(run[|run| - 1], pod, read, n)
    requires run[|run| - 1].now - read <= cfg.latency
    requires Reading(run[|run| - 1], pod, read).bucket !in run[|run| - 1].counters
    ensures IsRun(cfg, r)
    ensures var s := run[|run| - 1]; Burst(s, r[|r| - 1], Admitted(Reading(s, pod, read), s.now), n)
  {
    var s := run[|run| - 1];
    if n == 1 {
      r := OpensMinute(cfg, run, Reading(s, pod, read));
    } else {
      r := IncrsRun(cfg, run, pod, read, n - 1);
      r := OneMoreInMinute(cfg, s, r, Reading(s, pod, read), n);
    }
  }

  /** The whole limit of a minute used up at one moment, each INCR at its reading. */
  lemma {:induction false} BurstRun(cfg: Config, run: seq<Sys>, pod: Pod) returns (r: seq<Sys>)
    requires IsRun(cfg, run) && cfg.latency >= 0.0 && cfg.rpm >= 1
    requires pod in run[|run| - 1].pods && IdleUpTo(run[|run| - 1], cfg.rpm)
    requires Reading(run[|run| - 1], pod, run[|run| - 1].now).bucket !in run[|run| - 1].counters
    ensures IsRun(cfg, r)
    ensures var s := run[|run| - 1]; Burst(s, r[|r| - 1], Admitted(Reading(s, pod, s.now), s.now), cfg.rpm)
  {
    r := ReadersRun(cfg, run, pod, cfg.rpm);
    r := IncrsRun(cfg, r, pod, run[|run| - 1].now, cfg.rpm);
  }

  /** The same through the fallback window of a pod that has not used it before. */
  predicate LocalBurst(s: Sys, s': Sys, pod: Pod, n: nat) {
    && s'.now == s.now && s'.pods == s.pods && s'.requests == s.requests
    && LocalOf(s', pod) == Repeated(s.now, n)
    && s'.admitted == s.admitted + Repeated(ViaLocal(pod, s.now), n)
  }

  lemma {:induction false} OneMoreLocal(cfg: Config, s: Sys, run: seq<Sys>, pod: Pod, n: nat) returns (r: seq<Sys>)
    requires IsRun(cfg, run) && 1 <= n <= cfg.rpm && pod in s.pods && IdleUpTo(s, 1) && LocalBurst(s, run[|run| - 1], pod, n - 1)
    ensures IsRun(cfg, r) && LocalBurst(s, r[|r| - 1], pod, n)
  {
    var s' := run[|run| - 1];
    AfterAll(Repeated(s.now, n - 1), s.now - MINUTE);
    assert LocalNext(LocalOf(s', pod), cfg.rpm, s'.now) == Repeated(s.now, n - 1) + [s.now] == Repeated(s.now, n);
    r := Extend(cfg, run, LocalOnly(1, pod));
    var x := ViaLocal(pod, s.now);
    assert r[|r| - 1].admitted == s.admitted + Repeated(x, n - 1) + [x];
    assert Repeated(x, n) == Repeated(x, n - 1) + [x];
  }

  lemma {:induction false} LocalBurstRun(cfg: Config, run: seq<Sys>, pod: Pod, n: nat) returns (r: seq<Sys>)
    requires IsRun(cfg, run) && n <= cfg.rpm
    requires pod in run[|run| - 1].pods && IdleUpTo(run[|run| - 1], 1) && LocalOf(run[|run| - 1], pod) == []
    ensures IsRun(cfg, r) && LocalBurst(run[|run| - 1], r[|r| - 1], pod, n)
  {
    if n == 0 {
      r := run;
    } else {
      r := LocalBurstRun(cfg, run, pod, n - 1);
      r := OneMoreLocal(cfg, run[|run| - 1], r, pod, n);
    }
  }

  function Requests(n: nat): (ids: set<Request>)
    ensures forall id :: id in ids <==> 1 <= id <= n
  {
    if n == 0 then {} else Requests(n - 1) + {n}
  }

  /** Pod 0 has the slowest clock and pod 1 the fastest. */
  function Start(cfg: Config, now: Time): Sys {
    Sys(now, map[0 := cfg.low, 1 := cfg.low + cfg.skew], map[], map[], map id | id in Requests(cfg.rpm) :: Idle, multiset{}, [])
  }

  /** A state with the pods of `Start`, all of whose requests are idle. */
  predicate AtRest(cfg: Config, s: Sys) {
    s.pods == Start(cfg, 0.0).pods && s.local == map[] && IdleUpTo(s, cfg.rpm)
  }

  lemma BucketAt(wall: Time, b: int)
    requires MINUTE * b as real <= wall < MINUTE * b as real + MINUTE
    ensures MinuteBucket(wall) == b
  {
  }

  /** The slow pod uses up minute 0: `before` its end by a reading, and by INCRs that run `delay`
      later. */
  lemma {:induction false} EndOfMinuteRun(cfg: Config, before: Time, delay: Time) returns (run: seq<Sys>)
    requires cfg.rpm >= 1 && cfg.skew >= 0.0 && 0.0 <= delay <= cfg.latency && 0.0 < before <= MINUTE
    ensures IsRun(cfg, run) && AtRest(cfg, run[|run| - 1])
    ensures var s, read := run[|run| - 1], MINUTE - cfg.low - before;
      && s.now == read + delay && s.counters.Keys == {0}
      && s.admitted == Repeated(ViaRedis(0, read, MINUTE - before, 0, s.now), cfg.rpm)
  {
    var read := MINUTE - cfg.low - before;
    BucketAt(MINUTE - before, 0);
    run := [Start(cfg, read)];
    run := ReadersRun(cfg, run, 0, cfg.rpm);
    run := Extend(cfg, run, Tick(read + delay));
    run := IncrsRun(cfg, run, 0, read, cfg.rpm);
  }

  /** One more minute is used up, by `pod` at server time `now`. */
  lemma {:induction false} NextMinuteRun(cfg: Config, run: seq<Sys>, pod: Pod, now: Time) returns (r: seq<Sys>)
    requires IsRun(cfg, run) && AtRest(cfg, run[|run| - 1]) && cfg.rpm >= 1 && cfg.latency >= 0.0 && pod <= 1
    requires run[|run| - 1].now <= now
    requires MinuteBucket(now + run[|run| - 1].pods[pod]) !in run[|run| - 1].counters
    ensures IsRun(cfg, r) && AtRest(cfg, r[|r| - 1])
    ensures var s, s', wall := run[|run| - 1], r[|r| - 1], now + run[|run| - 1].pods[pod];
      && s'.now == now && s'.counters.Keys == s.counters.Keys + {MinuteBucket(wall)}
      && s'.admitted == s.admitted + Repeated(ViaRedis(pod, now, wall, MinuteBucket(wall), now), cfg.rpm)
  {
    r := Extend(cfg, run, Tick(now));
    r := BurstRun(cfg, r, pod);
  }

  lemma {:induction false} CountThree(x: Admission, y: Admission, z: Admission, n: nat, p: Admission -> bool)
    requires p(x) && p(y)
    ensures Count(Repeated(x, n) + Repeated(y, n) + Repeated(z, n), p) == if p(z) then 3 * n else 2 * n
  {
    CountConcat(Repeated(x, n) + Repeated(y, n), Repeated(z, n), p);
    CountConcat(Repeated(x, n), Repeated(y, n), p);
    CountRepeated(x, n, p);
    CountRepeated(y, n, p);
    CountRepeated(z, n, p);
  }

  /** Even with clocks that agree and INCRs that take no time, two minute buckets fall into one
      minute, and with its fallback one pod admits three times the limit in a second. */
  lemma {:induction false} SwitchingReachesThrice(cfg: Config) returns (run: seq<Sys>)
    requires cfg.rpm >= 1 && cfg.skew >= 0.0 && cfg.latency >= 0.0
    ensures IsRun(cfg, run)
    ensures Count(run[|run| - 1].admitted, RedisOwnClock(59.0)) == 2 * cfg.rpm
    ensures Count(run[|run| - 1].admitted, RedisAt(59.0 - cfg.low)) == 2 * cfg.rpm
    ensures Count(run[|run| - 1].admitted, ByPod(0, 59.0 - cfg.low)) == 3 * cfg.rpm
  {
    var a := 59.0 - cfg.low;
    run := EndOfMinuteRun(cfg, 1.0, 0.0);
    BucketAt(MINUTE, 1);
    run := NextMinuteRun(cfg, run, 0, a + 1.0);
    run := LocalBurstRun(cfg, run, 0, cfg.rpm);
    var x, y, z := ViaRedis(0, a, 59.0, 0, a), ViaRedis(0, a + 1.0, MINUTE, 1, a + 1.0), ViaLocal(0, a + 1.0);
    CountThree(x, y, z, cfg.rpm, RedisOwnClock(59.0));
    CountThree(x, y, z, cfg.rpm, RedisAt(a));
    CountThree(x, y, z, cfg.rpm, ByPod(0, a));
  }

  /** The slow pod closes minute 0 and opens minute 1, and the fast one is in minute 2 `2 * d`
      before the slow one. */
  lemma {:induction false} ThreeMinutesRun(cfg: Config, d: Time) returns (run: seq<Sys>)
    requires cfg.rpm >= 1 && cfg.skew == 4.0 * d && 0.0 < d <= 15.0 && cfg.latency >= 0.0
    ensures IsRun(cfg, run)
    ensures var open, last := MINUTE - cfg.low, 2.0 * MINUTE - cfg.low - 2.0 * d;
      run[|run| - 1].admitted
      == Repeated(ViaRedis(0, open - d, MINUTE - d, 0, open - d), cfg.rpm) + Repeated(ViaRedis(0, open, MINUTE, 1, open), cfg.rpm)
         + Repeated(ViaRedis(1, last, 2.0 * MINUTE + 2.0 * d, 2, last), cfg.rpm)
  {
    run := EndOfMinuteRun(cfg, d, 0.0);
    BucketAt(MINUTE, 1);
    run := NextMinuteRun(cfg, run, 0, MINUTE - cfg.low);
    BucketAt(2.0 * MINUTE + 2.0 * d, 2);
    run := NextMinuteRun(cfg, run, 1, 2.0 * MINUTE - cfg.low - 2.0 * d);
  }

  /** With any skew a minute of the server sees three limits through Redis alone. */
  lemma {:induction false} SkewReachesThrice(cfg: Config) returns (run: seq<Sys>, a: Time)
    requires cfg.rpm >= 1 && 0.0 < cfg.skew <= MINUTE && cfg.latency >= 0.0
    ensures IsRun(cfg, run) && Count(run[|run| - 1].admitted, RedisAt(a)) == 3 * cfg.rpm
  {
    var d := cfg.skew / 4.0;
    var open, last := MINUTE - cfg.low, 2.0 * MINUTE - cfg.low - 2.0 * d;
    a := open - d;
    run := ThreeMinutesRun(cfg, d);
    CountThree(ViaRedis(0, open - d, MINUTE - d, 0, open - d), ViaRedis(0, open, MINUTE, 1, open),
               ViaRedis(1, last, 2.0 * MINUTE + 2.0 * d, 2, last), cfg.rpm, RedisAt(a));
  }

  /** Requests of minute 0 are counted at `a`, in minute 1, just before that minute is used up;
      then minute 2 and the fallback window are. */
  lemma {:induction false} LateCountsRun(cfg: Config, d: Time) returns (run: seq<Sys>)
    requires cfg.rpm >= 1 && cfg.skew >= 0.0 && cfg.latency == 2.0 * d && 0.0 < d <= 30.0
    ensures IsRun(cfg, run)
    ensures var a, last := MINUTE - cfg.low + d, 2.0 * MINUTE - cfg.low;
      run[|run| - 1].admitted
      == Repeated(ViaRedis(0, a - 2.0 * d, MINUTE - d, 0, a), cfg.rpm) + Repeated(ViaRedis(0, a, MINUTE + d, 1, a), cfg.rpm)
         + Repeated(ViaRedis(0, last, 2.0 * MINUTE, 2, last), cfg.rpm) + Repeated(ViaLocal(0, last), cfg.rpm)
  {
    run := EndOfMinuteRun(cfg, d, 2.0 * d);
    BucketAt(MINUTE + d, 1);
    run := NextMinuteRun(cfg, run, 0, MINUTE - cfg.low + d);
    BucketAt(2.0 * MINUTE, 2);
    run := NextMinuteRun(cfg, run, 0, 2.0 * MINUTE - cfg.low);
    run := LocalBurstRun(cfg, run, 0, cfg.rpm);
  }

  /** With any latency one pod alone brings three limits through Redis into one minute, and with
      its fallback a fourth. */
  lemma {:induction false} LatencyReachesFourfold(cfg: Config) returns (run: seq<Sys>, a: Time)
    requires cfg.rpm >= 1 && cfg.skew >= 0.0 && 0.0 < cfg.latency <= MINUTE
    ensures IsRun(cfg, run)
    ensures Count(run[|run| - 1].admitted, RedisAt(a)) == 3 * cfg.rpm
    ensures Count(run[|run| - 1].admitted, ByPod(0, a)) == 4 * cfg.rpm
  {
    var d := cfg.latency / 2.0;
    var last := 2.0 * MINUTE - cfg.low;
    a := MINUTE - cfg.low + d;
    run := LateCountsRun(cfg, d);
    CountFour(ViaRedis(0, a - 2.0 * d, MINUTE - d, 0, a), ViaRedis(0, a, MINUTE + d, 1, a),
              ViaRedis(0, last, 2.0 * MINUTE, 2, last), ViaLocal(0, last), cfg.rpm, RedisAt(a), ByPod(0, a));
  }

  lemma {:induction false} CountFour(w: Admission, x: Admission, y: Admission, z: Admission, n: nat,
                                     p: Admission -> bool, q: Admission -> bool)
    requires p(w) && p(x) && p(y) && !p(z) && q(w) && q(x) && q(y) && q(z)
    ensures var log := Repeated(w, n) + Repeated(x, n) + Repeated(y, n) + Repeated(z, n);
      Count(log, p) == 3 * n && Count(log, q) == 4 * n
  {
    var log := Repeated(w, n) + Repeated(x, n) + Repeated(y, n);
    CountThree(w, x, y, n, p);
    CountThree(w, x, y, n, q);
    CountConcat(log, Repeated(z, n), p);
    CountConcat(log, Repeated(z, n), q);
    CountRepeated(z, n, p);
    CountRepeated(z, n, q);
  }

  /** No run under this skew and latency admits more than twice the limit through Redis in a
      minute of the server. */
  ghost predicate NeverMoreThanTwice(rpm: nat, skew: Time, latency: Time) {
    forall cfg: Config, run: seq<Sys>, a: Time ::
      cfg.rpm == rpm && cfg.skew == skew && cfg.latency == latency && IsRun(cfg, run) ==>
        Count(run[|run| - 1].admitted, RedisAt(a)) <= 2 * rpm
  }

  /** Twice the limit in a minute of one clock is what the pods keep exactly when their clocks
      agree and every INCR runs at its reading; otherwise three times the limit is reached. */
  lemma {:induction false} TwiceExactlyWithoutDelay(rpm: nat, skew: Time, latency: Time)
    requires rpm >= 1 && skew >= 0.0 && latency >= 0.0 && skew + latency <= MINUTE
    ensures NeverMoreThanTwice(rpm, skew, latency) <==> skew == latency == 0.0
  {
    if skew == latency == 0.0 {
      forall cfg: Config, run: seq<Sys>, a: Time | cfg.rpm == rpm && cfg.skew == skew && cfg.latency == latency && IsRun(cfg, run)
        ensures Count(run[|run| - 1].admitted, RedisAt(a)) <= 2 * rpm
      {
        WithoutDelayAtMostTwice(cfg, run, a);
      }
    } else {
      var cfg := Config(rpm, 0.0, skew, latency);
      var run, a;
      if skew > 0.0 {
        run, a := SkewReachesThrice(cfg);
      } else {
        run, a := LatencyReachesFourfold(cfg);
      }
      assert IsRun(cfg, run) && Count(run[|run| - 1].admitted, RedisAt(a)) > 2 * rpm;
    }
  }

  /** No run under this skew and latency lets one pod that switches between Redis and its
      fallback admit more than three times the limit in a minute. */
  ghost predicate NeverMoreThanThrice(rpm: nat, skew: Time, latency: Time) {
    forall cfg: Config, run: seq<Sys>, pod: Pod, a: Time ::
      cfg.rpm == rpm && cfg.skew == skew && cfg.latency == latency && IsRun(cfg, run) ==>
        Count(run[|run| - 1].admitted, ByPod(pod, a)) <= 3 * rpm
  }

  /** For a single pod skew does not matter: three times the limit is what it keeps exactly
      when every INCR runs at its reading; otherwise four times the limit is reached. */
  lemma {:induction false} ThriceExactlyWithoutLatency(rpm: nat, skew: Time, latency: Time)
    requires rpm >= 1 && skew >= 0.0 && latency >= 0.0 && skew + latency <= MINUTE
    ensures NeverMoreThanThrice(rpm, skew, latency) <==> latency == 0.0
  {
    if latency == 0.0 {
      forall cfg: Config, run: seq<Sys>, pod: Pod, a: Time
        | cfg.rpm == rpm && cfg.skew == skew && cfg.latency == latency && IsRun(cfg, run)
        ensures Count(run[|run| - 1].admitted, ByPod(pod, a)) <= 3 * rpm
      {
        SwitchingAdmitsAtMostThrice(cfg, run, pod, a);
      }
    } else {
      var cfg := Config(rpm, 0.0, skew, latency);
      var run, a := LatencyReachesFourfold(cfg);
      assert IsRun(cfg, run) && Count(run[|run| - 1].admitted, ByPod(0, a)) > 3 * rpm;
    }
  }

  /** The fast pod uses up minute 0, the slow one reads minute 0 after `wait`, and the clock
      moves on by `more`. */
  lemma {:induction false} SlowReader(cfg: Config, wait: Time, more: Time) returns (run: seq<Sys>)
    requires cfg.rpm >= 1 && 0.0 <= cfg.skew <= wait < cfg.skew + MINUTE && cfg.latency >= 0.0 && more >= 0.0
    ensures IsRun(cfg, run)
    ensures var s, start := run[|run| - 1], -cfg.low - cfg.skew;
      && s.now == start + wait + more
      && s.counters == map[0 := Counter(cfg.rpm, At(start + KEY_TTL))]
      && 1 in s.requests && s.requests[1] == MinuteRead(0, start + wait, wait - cfg.skew, 0)
      && s.admitted == Repeated(ViaRedis(1, start, 0.0, 0, start), cfg.rpm)
  {
    var start := -cfg.low - cfg.skew;
    BucketAt(wait - cfg.skew, 0);
    BucketAt(0.0, 0);
    run := [Start(cfg, start)];
    run := BurstRun(cfg, run, 1);
    run := Extend(cfg, run, Tick(start + wait));
    run := Extend(cfg, run, ReadMinute(1, 0));
    assert 1 in run[|run| - 1].requests && run[|run| - 1].requests[1] == MinuteRead(0, start + wait, wait - cfg.skew, 0);
    run := Extend(cfg, run, Tick(start + wait + more));
  }

  /** A pod whose key has run out opens its minute once more. */
  lemma {:induction false} CountsAfresh(cfg: Config, run: seq<Sys>) returns (r: seq<Sys>)
    requires IsRun(cfg, run) && cfg.rpm >= 1 && Enabled(cfg, run[|run| - 1], Incr(1))
    requires run[|run| - 1].requests[1].bucket == 0 && Enabled(cfg, run[|run| - 1], DropExpired(0))
    ensures IsRun(cfg, r) && r[|r| - 1].admitted == run[|run| - 1].admitted + [Admitted(run[|run| - 1].requests[1], run[|run| - 1].now)]
  {
    var p := run[|run| - 1].requests[1];
    r := Extend(cfg, run, DropExpired(0));
    assert 0 !in r[|r| - 1].counters;
    r := Extend(cfg, r, Incr(1));
    assert r[|r| - 1].requests[1] == FirstInMinute(p.pod, p.read, p.wall, 0, run[|run| - 1].now);
    r := Extend(cfg, r, Expire(1));
  }

  /** Whenever skew and latency together exceed a minute, any limit can be passed within one
      bucket: the fast pod uses it up, and the key runs out while the slow one is still in
      the minute. */
  lemma {:induction false} TooMuchSkewOverAdmits(cfg: Config) returns (run: seq<Sys>)
    requires cfg.rpm >= 1 && cfg.skew >= 0.0 && cfg.latency >= 0.0 && cfg.skew + cfg.latency > MINUTE
    ensures IsRun(cfg, run) && Count(run[|run| - 1].admitted, RedisIn(0)) == cfg.rpm + 1
  {
    var wait := if KEY_TTL - cfg.latency < cfg.skew then cfg.skew else KEY_TTL - cfg.latency;
    run := SlowReader(cfg, wait, if wait < KEY_TTL then KEY_TTL - wait else 0.0);
    var s := run[|run| - 1];
    var y := Admitted(s.requests[1], s.now);
    run := CountsAfresh(cfg, run);
    var start := -cfg.low - cfg.skew;
    var x := ViaRedis(1, start, 0.0, 0, start);
    CountAppend(Repeated(x, cfg.rpm), y, RedisIn(0));
    CountRepeated(x, cfg.rpm, RedisIn(0));
  }

  /** No run under this skew and latency ever passes the limit within one minute bucket. */
  ghost predicate NeverOverAdmits(rpm: nat, skew: Time, latency: Time) {
    forall cfg: Config, run: seq<Sys>, b: int ::
      cfg.rpm == rpm && cfg.skew == skew && cfg.latency == latency && IsRun(cfg, run) ==>
        Count(run[|run| - 1].admitted, RedisIn(b)) <= rpm
  }

  /** Every limit holds in every run exactly when skew and latency fit in a minute. */
  lemma {:induction false} MinuteIsTheExactMargin(rpm: nat, skew: Time, latency: Time)
    requires rpm >= 1 && skew >= 0.0 && latency >= 0.0
    ensures NeverOverAdmits(rpm, skew, latency) <==> skew + latency <= MINUTE
  {
    if skew + latency <= MINUTE {
      forall cfg: Config, run: seq<Sys>, b: int | cfg.rpm == rpm && cfg.skew == skew && cfg.latency == latency && IsRun(cfg, run)
        ensures Count(run[|run| - 1].admitted, RedisIn(b)) <= rpm
      {
        BucketAdmitsAtMostRpm(cfg, run, b);
      }
    } else {
      var cfg := Config(rpm, 0.0, skew, latency);
      var run := TooMuchSkewOverAdmits(cfg);
      assert IsRun(cfg, run) && Count(run[|run| - 1].admitted, RedisIn(0)) > rpm;
    }
  }
}
