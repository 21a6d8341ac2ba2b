/** Clients that check, dispatch and record against one key of the sliding-window
    limiter, at lock granularity (src/tiresias/auth/rate_limiter.py:65-152).

    Every operation reads the monotonic clock before it waits for the lock, so a lock
    section may run with a stale reading and the deque need not be sorted. */
module LimiterProtocol {
  import opened Counting
  import opened Timeline
  import opened RateLimiter

  type Client = nat

  datatype Config = Config(key: string, limit: int, window: Time)

  /** Where a client stands; the readings are those taken before the lock. */
  datatype Phase =
    | Idle
    | Checking(now: Time)
    | InFlight                 // allowed, and not yet asking to record
    | Recording(now: Time)
    | Querying(now: Time)
    | Cleaning(now: Time, horizon: Time)

  /** `log` is the history of every timestamp ever appended for the key. */
  datatype Sys = Sys(clock: Time, windows: Windows, clients: map<Client, Phase>, log: seq<Time>)

  datatype Action =
    | Tick(to: Time)
    | BeginCheck(id: Client)
    | LockCheck(id: Client)
    | BeginRecord(id: Client)
    | LockRecord(id: Client)
    | Abandon(id: Client)      // the dispatch failed: nothing is recorded
    | BeginCount(id: Client)
    | LockCount(id: Client)
    | BeginCleanup(id: Client, horizon: Time)
    | LockCleanup(id: Client)
    | OtherKeys(ws: Windows)   // any operation on the other keys

  predicate Enabled(cfg: Config, s: Sys, a: Action) {
    match a
    case Tick(to) => s.clock <= to
    case BeginCheck(id) => id in s.clients && s.clients[id].Idle?
    case LockCheck(id) => id in s.clients && s.clients[id].Checking?
    case BeginRecord(id) => id in s.clients && s.clients[id].InFlight?
    case LockRecord(id) => id in s.clients && s.clients[id].Recording?
    case Abandon(id) => id in s.clients && s.clients[id].InFlight?
    case BeginCount(id) => id in s.clients && s.clients[id].Idle?
    case LockCount(id) => id in s.clients && s.clients[id].Querying?
    case BeginCleanup(id, horizon) => id in s.clients && s.clients[id].Idle? && cfg.window <= horizon
    case LockCleanup(id) => id in s.clients && s.clients[id].Cleaning?
    case OtherKeys(ws) =>
      (cfg.key in ws <==> cfg.key in s.windows) && WindowOf(ws, cfg.key) == WindowOf(s.windows, cfg.key)
  }

  function Apply(cfg: Config, s: Sys, a: Action): Sys
    requires Enabled(cfg, s, a)
  {
    match a
    case Tick(to) => s.(clock := to)
    case BeginCheck(id) => s.(clients := s.clients[id := Checking(s.clock)])
    case LockCheck(id) =>
      var now := s.clients[id].now;
      var answer := CheckAnswer(s.windows, cfg.key, cfg.limit, cfg.window, now);
      s.(windows := Checked(s.windows, cfg.key, now - cfg.window),
         clients := s.clients[id := if answer.allowed then InFlight else Idle])
    case BeginRecord(id) => s.(clients := s.clients[id := Recording(s.clock)])
    case LockRecord(id) =>
      var now := s.clients[id].now;
      s.(windows := Recorded(s.windows, cfg.key, now), clients := s.clients[id := Idle], log := s.log + [now])
    case Abandon(id) => s.(clients := s.clients[id := Idle])
    case BeginCount(id) => s.(clients := s.clients[id := Querying(s.clock)])
    case LockCount(id) =>
      s.(windows := Checked(s.windows, cfg.key, s.clients[id].now - cfg.window), clients := s.clients[id := Idle])
    case BeginCleanup(id, horizon) => s.(clients := s.clients[id := Cleaning(s.clock, horizon)])
    case LockCleanup(id) =>
      s.(windows := Cleaned(s.windows, s.clients[id].now - s.clients[id].horizon), clients := s.clients[id := Idle])
    case OtherKeys(ws) => s.(windows := ws)
  }

  ghost predicate Step(cfg: Config, s: Sys, s': Sys) {
    exists a :: Enabled(cfg, s, a) && s' == Apply(cfg, s, a)
  }

  ghost predicate Init(cfg: Config, s: Sys) {
    && cfg.key !in s.windows && s.log == []
    && forall id :: id in s.clients ==> s.clients[id].Idle?
  }

  ghost predicate IsRun(cfg: Config, run: seq<Sys>) {
    && run != [] && Init(cfg, run[0])
    && forall i :: 0 <= i < |run| - 1 ==> Step(cfg, run[i], run[i + 1])
  }

  /** The clients between an allowed check and the end of their record. */
  function Holders(s: Sys): set<Client> {
    set id | id in s.clients && (s.clients[id].InFlight? || s.clients[id].Recording?)
  }

  function InSpan(a: Time, width: Time): Time -> bool {
    t => a <= t < a + width
  }

  /** The clients whose pending record can still fall into the span starting at `a`. */
  function Landing(cfg: Config, s: Sys, a: Time): set<Client> {
    set id | id in s.clients &&
      ((s.clients[id].InFlight? && s.clock < a + cfg.window) ||
       (s.clients[id].Recording? && InSpan(a, cfg.window)(s.clients[id].now)))
  }

  predicate ReadingPast(cfg: Config, clock: Time, p: Phase) {
    match p
    case Idle => true
    case InFlight => true
    case Checking(now) => now <= clock
    case Recording(now) => now <= clock
    case Querying(now) => now <= clock
    case Cleaning(now, horizon) => now <= clock && cfg.window <= horizon
  }

  /** The history is never lost from the window too early: whatever eviction dropped is
      outside every window that a later clock reading can open. */
  ghost predicate Inv(cfg: Config, s: Sys) {
    && Suffix(s.log, WindowOf(s.windows, cfg.key), s.clock - cfg.window)
    && forall id :: id in s.clients ==> ReadingPast(cfg, s.clock, s.clients[id])
  }

  lemma {:induction false} SuffixStep(cfg: Config, s: Sys, a: Action)
    requires Inv(cfg, s) && Enabled(cfg, s, a)
    ensures var s' := Apply(cfg, s, a);
      Suffix(s'.log, WindowOf(s'.windows, cfg.key), s'.clock - cfg.window)
  {
    var w, bound := WindowOf(s.windows, cfg.key), s.clock - cfg.window;
    match a
    case LockCheck(id) => EvictSuffix(s.log, w, s.clients[id].now - cfg.window, bound);
    case LockCount(id) => EvictSuffix(s.log, w, s.clients[id].now - cfg.window, bound);
    case LockCleanup(id) => EvictSuffix(s.log, w, s.clients[id].now - s.clients[id].horizon, bound);
    case LockRecord(id) =>
      var t := [s.clients[id].now];
      assert (s.log + t)[|s.log| - |w|..] == w + t;
    case Tick(_) =>
    case _ =>
      assert WindowOf(Apply(cfg, s, a).windows, cfg.key) == w;
  }

  lemma {:induction false} InvStep(cfg: Config, s: Sys, a: Action)
    requires Inv(cfg, s) && Enabled(cfg, s, a)
    ensures Inv(cfg, Apply(cfg, s, a))
  {
    SuffixStep(cfg, s, a);
    var s' := Apply(cfg, s, a);
    forall id | id in s'.clients ensures ReadingPast(cfg, s'.clock, s'.clients[id]) {
      assert id in s.clients && ReadingPast(cfg, s.clock, s.clients[id]);
    }
  }

  /** The records inside a span, plus those that may still land there, stay within the bound. */
  ghost predicate SpanBound(cfg: Config, s: Sys, a: Time, k: nat) {
    Count(s.log, InSpan(a, cfg.window)) + |Landing(cfg, s, a)| <= cfg.limit + k - 1
  }

  /** An allowed check has seen every record of a span that its own record can reach. */
  lemma {:induction false} AllowedCheckSawSpan(cfg: Config, s: Sys, now: Time, a: Time)
    requires Inv(cfg, s) && cfg.limit >= 1 && now <= s.clock < a + cfg.window
    requires CheckAnswer(s.windows, cfg.key, cfg.limit, cfg.window, now).allowed
    ensures Count(s.log, InSpan(a, cfg.window)) <= cfg.limit - 1
  {
    var w := WindowOf(s.windows, cfg.key);
    var r := Evict(w, now - cfg.window);
    var p := InSpan(a, cfg.window);
    EvictSuffix(s.log, w, now - cfg.window, s.clock - cfg.window);
    var before := s.log[..|s.log| - |r|];
    assert s.log == before + r;
    CountConcat(before, r, p);
    CountNone(before, p);
  }

  lemma {:induction false} SpanRecord(cfg: Config, s: Sys, id: Client, a: Time, k: nat)
    requires Enabled(cfg, s, LockRecord(id)) && SpanBound(cfg, s, a, k)
    ensures SpanBound(cfg, Apply(cfg, s, LockRecord(id)), a, k)
  {
    CountAppend(s.log, s.clients[id].now, InSpan(a, cfg.window));
    assert Landing(cfg, Apply(cfg, s, LockRecord(id)), a) == Landing(cfg, s, a) - {id};
  }

  lemma {:induction false} SpanCheck(cfg: Config, s: Sys, id: Client, a: Time, k: nat)
    requires Inv(cfg, s) && Enabled(cfg, s, LockCheck(id)) && cfg.limit >= 1
    requires SpanBound(cfg, s, a, k) && |Holders(Apply(cfg, s, LockCheck(id)))| <= k
    ensures SpanBound(cfg, Apply(cfg, s, LockCheck(id)), a, k)
  {
    var s' := Apply(cfg, s, LockCheck(id));
    assert ReadingPast(cfg, s.clock, s.clients[id]);
    if s'.clients[id].InFlight? && s.clock < a + cfg.window {
      AllowedCheckSawSpan(cfg, s, s.clients[id].now, a);
      SubsetSize(Landing(cfg, s', a), Holders(s'));
    } else {
      SubsetSize(Landing(cfg, s', a), Landing(cfg, s, a));
    }
  }

  /** The other steps let nobody else land in the span. */
  lemma {:induction false} SpanOther(cfg: Config, s: Sys, act: Action, a: Time, k: nat)
    requires Enabled(cfg, s, act) && !act.LockRecord? && !act.LockCheck? && SpanBound(cfg, s, a, k)
    ensures SpanBound(cfg, Apply(cfg, s, act), a, k)
  {
    SubsetSize(Landing(cfg, Apply(cfg, s, act), a), Landing(cfg, s, a));
  }

  lemma {:induction false} SpanStep(cfg: Config, s: Sys, act: Action, a: Time, k: nat)
    requires Inv(cfg, s) && Enabled(cfg, s, act) && cfg.limit >= 1
    requires SpanBound(cfg, s, a, k) && |Holders(Apply(cfg, s, act))| <= k
    ensures SpanBound(cfg, Apply(cfg, s, act), a, k)
  {
    match act
    case LockRecord(id) => SpanRecord(cfg, s, id, a, k);
    case LockCheck(id) => SpanCheck(cfg, s, id, a, k);
    case _ => SpanOther(cfg, s, act, a, k);
  }

  /** For every interleaving, a half-open span as long as the window holds at most
      `limit + k - 1` records, where no more than `k` clients are ever between an allowed
      check and its record. With one such client at a time this is the limit itself. */
  lemma {:induction false} SpanHoldsLimitPlusPending(cfg: Config, run: seq<Sys>, k: nat, a: Time)
    requires IsRun(cfg, run) && cfg.limit >= 1
    requires forall i :: 0 <= i < |run| ==> |Holders(run[i])| <= k
    ensures Inv(cfg, run[|run| - 1])
    ensures SpanBound(cfg, run[|run| - 1], a, k)
    ensures Count(run[|run| - 1].log, InSpan(a, cfg.window)) <= cfg.limit + k - 1
  {
    if |run| == 1 {
      assert Landing(cfg, run[0], a) == {};
    } else {
      var prev := run[..|run| - 1];
      SpanHoldsLimitPlusPending(cfg, prev, k, a);
      var s := prev[|prev| - 1];
      assert Step(cfg, run[|run| - 2], run[|run| - 1]);
      var act :| Enabled(cfg, s, act) && run[|run| - 1] == Apply(cfg, s, act);
      InvStep(cfg, s, act);
      SpanStep(cfg, s, act, a, k);
    }
  }

  // ----- the bound is reached

  /** The clients below `k`. */
  function Ids(k: nat): (ids: set<Client>)
    ensures |ids| == k && forall id: Client :: id in ids <==> id < k
  {
    if k == 0 then {} else Ids(k - 1) + {k - 1}
  }

  /** A run of the clients `0..k` whose clock never leaves zero. */
  ghost predicate FrozenRun(cfg: Config, run: seq<Sys>, k: nat) {
    && IsRun(cfg, run)
    && run[|run| - 1].clock == 0.0
    && forall i :: 0 <= i < |run| ==> run[i].clients.Keys == Ids(k)
  }

  lemma {:induction false} Extend(cfg: Config, run: seq<Sys>, k: nat, a: Action) returns (r: seq<Sys>)
    requires FrozenRun(cfg, run, k) && !a.Tick? && Enabled(cfg, run[|run| - 1], a)
    ensures FrozenRun(cfg, r, k) && r == run + [Apply(cfg, run[|run| - 1], a)]
  {
    var s' := Apply(cfg, run[|run| - 1], a);
    r := run + [s'];
    assert s'.clients.Keys == run[|run| - 1].clients.Keys;
    forall i | 0 <= i < |r| - 1 ensures Step(cfg, r[i], r[i + 1]) {
      if i < |run| - 1 {
        assert Step(cfg, run[i], run[i + 1]);
      }
    }
  }

  /** All the timestamps, kept or not, are zero, and none was evicted. */
  ghost predicate AllZero(cfg: Config, s: Sys, n: nat) {
    WindowOf(s.windows, cfg.key) == s.log == seq(n, _ => 0.0)
  }

  lemma {:induction false} PassCheck(cfg: Config, run: seq<Sys>, k: nat, n: nat, id: Client) returns (r: seq<Sys>)
    requires FrozenRun(cfg, run, k) && AllZero(cfg, run[|run| - 1], n) && n < cfg.limit && cfg.window > 0.0
    requires id < k && run[|run| - 1].clients[id].Idle?
    ensures FrozenRun(cfg, r, k) && AllZero(cfg, r[|r| - 1], n)
    ensures r[|r| - 1].clients == run[|run| - 1].clients[id := InFlight]
  {
    r := Extend(cfg, run, k, BeginCheck(id));
    r := Extend(cfg, r, k, LockCheck(id));
  }

  lemma {:induction false} PassRecord(cfg: Config, run: seq<Sys>, k: nat, n: nat, id: Client) returns (r: seq<Sys>)
    requires FrozenRun(cfg, run, k) && AllZero(cfg, run[|run| - 1], n)
    requires id < k && run[|run| - 1].clients[id].InFlight?
    ensures FrozenRun(cfg, r, k) && AllZero(cfg, r[|r| - 1], n + 1)
    ensures r[|r| - 1].clients == run[|run| - 1].clients[id := Idle]
  {
    r := Extend(cfg, run, k, BeginRecord(id));
    r := Extend(cfg, r, k, LockRecord(id));
    assert seq(n, _ => 0.0) + [0.0] == seq(n + 1, _ => 0.0);
  }

  lemma {:induction false} PassBoth(cfg: Config, run: seq<Sys>, k: nat, n: nat, id: Client) returns (r: seq<Sys>)
    requires FrozenRun(cfg, run, k) && AllZero(cfg, run[|run| - 1], n) && n < cfg.limit && cfg.window > 0.0
    requires id < k && run[|run| - 1].clients[id].Idle?
    ensures FrozenRun(cfg, r, k) && AllZero(cfg, r[|r| - 1], n + 1)
    ensures r[|r| - 1].clients == run[|run| - 1].clients
  {
    var checked := PassCheck(cfg, run, k, n, id);
    r := PassRecord(cfg, checked, k, n, id);
  }

  lemma {:induction false} OneByOne(cfg: Config, run: seq<Sys>, k: nat, n: nat) returns (r: seq<Sys>)
    requires FrozenRun(cfg, run, k) && AllZero(cfg, run[|run| - 1], 0) && n < cfg.limit && cfg.window > 0.0
    requires k >= 1 && run[|run| - 1].clients[0].Idle?
    ensures FrozenRun(cfg, r, k) && AllZero(cfg, r[|r| - 1], n)
    ensures r[|r| - 1].clients == run[|run| - 1].clients
  {
    r := run;
    if n > 0 {
      r := OneByOne(cfg, run, k, n - 1);
      r := PassBoth(cfg, r, k, n - 1, 0);
    }
  }

  /** The clients below `j` are in flight, the others idle. */
  ghost predicate FirstInFlight(s: Sys, k: nat, j: nat)
    requires s.clients.Keys == Ids(k)
  {
    forall id :: id in Ids(k) ==> s.clients[id] == if id < j then InFlight else Idle
  }

  lemma {:induction false} CheckNext(cfg: Config, run: seq<Sys>, k: nat, n: nat, j: nat) returns (r: seq<Sys>)
    requires FrozenRun(cfg, run, k) && AllZero(cfg, run[|run| - 1], n) && n < cfg.limit && cfg.window > 0.0
    requires j < k && FirstInFlight(run[|run| - 1], k, j)
    ensures FrozenRun(cfg, r, k) && AllZero(cfg, r[|r| - 1], n) && FirstInFlight(r[|r| - 1], k, j + 1)
  {
    r := PassCheck(cfg, run, k, n, j);
  }

  lemma {:induction false} RecordLast(cfg: Config, run: seq<Sys>, k: nat, n: nat, j: nat) returns (r: seq<Sys>)
    requires FrozenRun(cfg, run, k) && AllZero(cfg, run[|run| - 1], n)
    requires j < k && FirstInFlight(run[|run| - 1], k, j + 1)
    ensures FrozenRun(cfg, r, k) && AllZero(cfg, r[|r| - 1], n + 1) && FirstInFlight(r[|r| - 1], k, j)
  {
    r := PassRecord(cfg, run, k, n, j);
  }

  lemma {:induction false} AllCheck(cfg: Config, run: seq<Sys>, k: nat, n: nat, j: nat) returns (r: seq<Sys>)
    requires FrozenRun(cfg, run, k) && AllZero(cfg, run[|run| - 1], n) && n < cfg.limit && cfg.window > 0.0
    requires j <= k && FirstInFlight(run[|run| - 1], k, 0)
    ensures FrozenRun(cfg, r, k) && AllZero(cfg, r[|r| - 1], n) && FirstInFlight(r[|r| - 1], k, j)
  {
    r := run;
    if j > 0 {
      r := AllCheck(cfg, run, k, n, j - 1);
      r := CheckNext(cfg, r, k, n, j - 1);
    }
  }

  lemma {:induction false} AllRecord(cfg: Config, run: seq<Sys>, k: nat, n: nat, j: nat) returns (r: seq<Sys>)
    requires FrozenRun(cfg, run, k) && AllZero(cfg, run[|run| - 1], n)
    requires j <= k && FirstInFlight(run[|run| - 1], k, j)
    ensures FrozenRun(cfg, r, k) && AllZero(cfg, r[|r| - 1], n + j)
    decreases j
  {
    r := run;
    if j > 0 {
      r := RecordLast(cfg, run, k, n, j - 1);
      r := AllRecord(cfg, r, k, n + 1, j - 1);
    }
  }

  /** The bound of SpanHoldsLimitPlusPending is reached for every limit, window and
      number of clients: `limit - 1` records one after the other, then `k` clients that
      all check before any of them records. */
  lemma {:induction false} BoundIsReached(cfg: Config, k: nat) returns (run: seq<Sys>)
    requires cfg.limit >= 1 && cfg.window > 0.0 && k >= 1
    ensures IsRun(cfg, run) && forall i :: 0 <= i < |run| ==> |Holders(run[i])| <= k
    ensures Count(run[|run| - 1].log, InSpan(0.0, cfg.window)) == cfg.limit + k - 1
  {
    var s0 := Sys(0.0, map[], map id | id in Ids(k) :: Idle, []);
    assert Init(cfg, s0);
    run := OneByOne(cfg, [s0], k, cfg.limit - 1);
    run := AllCheck(cfg, run, k, cfg.limit - 1, k);
    run := AllRecord(cfg, run, k, cfg.limit - 1, k);
    CountAll(run[|run| - 1].log, InSpan(0.0, cfg.window));
    forall i | 0 <= i < |run| ensures |Holders(run[i])| <= k {
      SubsetSize(Holders(run[i]), Ids(k));
    }
  }
}
