/** Run by a single thread, the pruning limiter answers exactly like a limiter that
    never forgets a timestamp (src/tiresias/auth/rate_limiter.py:65-152). */
module LimiterRefinement {
  import opened Timeline
  import opened RateLimiter

  datatype Op =
    | Check(key: string, limit: int, now: Time)
    | Record(key: string, now: Time)
    | GetCount(key: string, now: Time)
    | Cleanup(horizon: Time, now: Time)

  datatype Answer = Verdict(result: RateLimitResult) | Number(n: nat) | Done

  /** The window length in use for each key. */
  type Lengths = string -> Time

  function PruningStep(len: Lengths, ws: Windows, op: Op): (Windows, Answer) {
    match op
    case Check(key, limit, now) =>
      (Checked(ws, key, now - len(key)), Verdict(CheckAnswer(ws, key, limit, len(key), now)))
    case Record(key, now) => (Recorded(ws, key, now), Done)
    case GetCount(key, now) =>
      (Checked(ws, key, now - len(key)), Number(CountAnswer(ws, key, len(key), now)))
    case Cleanup(horizon, now) => (Cleaned(ws, now - horizon), Done)
  }

  /** What the reference answers to a check, read off the log of the key. */
  function LogVerdict(log: seq<Time>, limit: int, window: Time, now: Time): RateLimitResult {
    var inside := After(log, now - window);
    RateLimitResult(|inside| < limit, |inside|, limit, Max(limit - |inside|, 0),
                    if inside == [] then now + window else inside[0] + window, window)
  }

  /** The reference: nothing is ever dropped, and every answer is read off the log. */
  function LogStep(len: Lengths, log: Windows, op: Op): (Windows, Answer) {
    match op
    case Check(key, limit, now) => (log, Verdict(LogVerdict(WindowOf(log, key), limit, len(key), now)))
    case Record(key, now) => (log[key := WindowOf(log, key) + [now]], Done)
    case GetCount(key, now) => (log, Number(|After(WindowOf(log, key), now - len(key))|))
    case Cleanup(_, _) => (log, Done)
  }

  function PruningRun(len: Lengths, ws: Windows, ops: seq<Op>): seq<Answer>
    decreases |ops|
  {
    if ops == [] then []
    else
      var (ws', answer) := PruningStep(len, ws, ops[0]);
      [answer] + PruningRun(len, ws', ops[1..])
  }

  function LogRun(len: Lengths, log: Windows, ops: seq<Op>): seq<Answer>
    decreases |ops|
  {
    if ops == [] then []
    else
      var (log', answer) := LogStep(len, log, ops[0]);
      [answer] + LogRun(len, log', ops[1..])
  }

  /** One clock, limits of at least one, and cleanups no shorter than any window. */
  ghost predicate Legal(len: Lengths, ops: seq<Op>, last: Time) {
    ops != [] ==>
      && last <= ops[0].now
      && (ops[0].Check? ==> ops[0].limit >= 1)
      && (ops[0].Cleanup? ==> forall k :: len(k) <= ops[0].horizon)
      && Legal(len, ops[1..], ops[0].now)
  }

  /** The deque of a key against its log: the deque is sorted, and it is the log without a
      front that no later window can contain. */
  ghost predicate KeyInv(w: seq<Time>, log: seq<Time>, last: Time, length: Time) {
    && Sorted(w) && (w != [] ==> w[|w| - 1] <= last)
    && Suffix(log, w, last - length)
  }

  ghost predicate Inv(len: Lengths, ws: Windows, log: Windows, last: Time) {
    forall k :: KeyInv(WindowOf(ws, k), WindowOf(log, k), last, len(k))
  }

  /** In a sorted window, cutting off the front is the same as filtering. */
  lemma {:induction false} SortedEvictIsAfter(w: seq<Time>, cutoff: Time)
    requires Sorted(w)
    ensures Evict(w, cutoff) == After(w, cutoff)
  {
    if w != [] {
      if w[0] <= cutoff {
        SortedEvictIsAfter(w[1..], cutoff);
      } else {
        AfterAllSorted(w, cutoff);
      }
    }
  }

  /** What the deque has lost of its log is outside every later window. */
  lemma {:induction false} AfterSuffix(log: seq<Time>, w: seq<Time>, bound: Time, cutoff: Time)
    requires Suffix(log, w, bound) && bound <= cutoff
    ensures After(log, cutoff) == After(w, cutoff)
  {
    var gone := log[..|log| - |w|];
    assert log == gone + w;
    AfterConcat(gone, w, cutoff);
    AfterNone(gone, cutoff);
  }

  /** The entries kept by an eviction are exactly the logged ones inside the window. */
  lemma {:induction false} EvictIsAfter(w: seq<Time>, log: seq<Time>, last: Time, length: Time, now: Time)
    requires KeyInv(w, log, last, length) && last <= now
    ensures Evict(w, now - length) == After(log, now - length)
  {
    AfterSuffix(log, w, last - length, now - length);
    SortedEvictIsAfter(w, now - length);
  }

  lemma {:induction false} EvictStaysSorted(w: seq<Time>, cutoff: Time)
    requires Sorted(w)
    ensures Sorted(Evict(w, cutoff))
    ensures Evict(w, cutoff) != [] ==> Evict(w, cutoff)[|Evict(w, cutoff)| - 1] == w[|w| - 1]
  {
    if w != [] && w[0] <= cutoff {
      EvictStaysSorted(w[1..], cutoff);
    }
  }

  lemma {:induction false} EvictKeepsKeyInv(w: seq<Time>, log: seq<Time>, last: Time, length: Time, now: Time, horizon: Time)
    requires KeyInv(w, log, last, length) && last <= now && length <= horizon
    ensures KeyInv(Evict(w, now - horizon), log, now, length)
    ensures KeyInv(w, log, now, length)
  {
    EvictSuffix(log, w, now - horizon, now - length);
    EvictStaysSorted(w, now - horizon);
  }

  lemma {:induction false} RecordKeepsKeyInv(w: seq<Time>, log: seq<Time>, last: Time, length: Time, now: Time)
    requires KeyInv(w, log, last, length) && last <= now
    ensures KeyInv(w + [now], log + [now], now, length)
  {
    SortedAppend(w, now);
    assert (log + [now])[|log| - |w|..] == w + [now];
  }

  /** What one operation does to the deque and to the log of one key. */
  lemma StepOnKey(len: Lengths, ws: Windows, log: Windows, op: Op, k: string)
    ensures var w, w' := WindowOf(ws, k), WindowOf(PruningStep(len, ws, op).0, k);
      if op.Record? && op.key == k then w' == w + [op.now]
      else w' == w || w' == Evict(w, op.now - (if op.Cleanup? then op.horizon else len(k)))
    ensures var l, l' := WindowOf(log, k), WindowOf(LogStep(len, log, op).0, k);
      l' == if op.Record? && op.key == k then l + [op.now] else l
  {
  }

  lemma {:induction false} KeyInvNext(w: seq<Time>, w': seq<Time>, log: seq<Time>, log': seq<Time>,
                   last: Time, length: Time, now: Time, horizon: Time)
    requires KeyInv(w, log, last, length) && last <= now && length <= horizon
    requires || (w' == w + [now] && log' == log + [now])
             || (log' == log && (w' == w || w' == Evict(w, now - horizon)))
    ensures KeyInv(w', log', now, length)
  {
    if log' == log {
      EvictKeepsKeyInv(w, log, last, length, now, horizon);
    } else {
      RecordKeepsKeyInv(w, log, last, length, now);
    }
  }

  lemma {:induction false} SameVerdict(ws: Windows, log: seq<Time>, last: Time, key: string, limit: int, window: Time, now: Time)
    requires KeyInv(WindowOf(ws, key), log, last, window) && last <= now && limit >= 1
    ensures CheckAnswer(ws, key, limit, window, now) == LogVerdict(log, limit, window, now)
  {
    EvictIsAfter(WindowOf(ws, key), log, last, window, now);
  }

  lemma {:induction false} SameCount(ws: Windows, log: seq<Time>, last: Time, key: string, window: Time, now: Time)
    requires KeyInv(WindowOf(ws, key), log, last, window) && last <= now
    ensures CountAnswer(ws, key, window, now) == |After(log, now - window)|
  {
    EvictIsAfter(WindowOf(ws, key), log, last, window, now);
  }

  lemma {:induction false} SameAnswer(len: Lengths, ws: Windows, log: Windows, last: Time, op: Op)
    requires Inv(len, ws, log, last) && last <= op.now && (op.Check? ==> op.limit >= 1)
    ensures PruningStep(len, ws, op).1 == LogStep(len, log, op).1
  {
    if op.Check? {
      SameVerdict(ws, WindowOf(log, op.key), last, op.key, op.limit, len(op.key), op.now);
    } else if op.GetCount? {
      SameCount(ws, WindowOf(log, op.key), last, op.key, len(op.key), op.now);
    }
  }

  lemma {:induction false} StepRefines(len: Lengths, ws: Windows, log: Windows, last: Time, op: Op)
    requires Inv(len, ws, log, last) && last <= op.now
    requires op.Check? ==> op.limit >= 1
    requires op.Cleanup? ==> forall k :: len(k) <= op.horizon
    ensures PruningStep(len, ws, op).1 == LogStep(len, log, op).1
    ensures Inv(len, PruningStep(len, ws, op).0, LogStep(len, log, op).0, op.now)
  {
    SameAnswer(len, ws, log, last, op);
    var ws', log' := PruningStep(len, ws, op).0, LogStep(len, log, op).0;
    forall k ensures KeyInv(WindowOf(ws', k), WindowOf(log', k), op.now, len(k)) {
      StepOnKey(len, ws, log, op, k);
      KeyInvNext(WindowOf(ws, k), WindowOf(ws', k), WindowOf(log, k), WindowOf(log', k),
                 last, len(k), op.now, if op.Cleanup? then op.horizon else len(k));
    }
  }

  lemma {:induction false} RunRefines(len: Lengths, ws: Windows, log: Windows, last: Time, ops: seq<Op>)
    requires Inv(len, ws, log, last) && Legal(len, ops, last)
    ensures PruningRun(len, ws, ops) == LogRun(len, log, ops)
    decreases |ops|
  {
    if ops != [] {
      StepRefines(len, ws, log, last, ops[0]);
      RunRefines(len, PruningStep(len, ws, ops[0]).0, LogStep(len, log, ops[0]).0, ops[0].now, ops[1..]);
    }
  }

  /** Every single-threaded history of checks, records, counts and cleanups is answered
      as if no timestamp had ever been dropped. */
  lemma {:induction false} PruningIsInvisible(len: Lengths, ops: seq<Op>, start: Time)
    requires Legal(len, ops, start)
    ensures PruningRun(len, map[], ops) == LogRun(len, map[], ops)
  {
    forall k ensures KeyInv(WindowOf(map[], k), WindowOf(map[], k), start, len(k)) {
    }
    RunRefines(len, map[], map[], start, ops);
  }

  /** With a limit below one the answer for a key depends on whether a cleanup has
      forgotten it: a key never seen is let through, an emptied one is not. This is why
      `Legal` asks for limits of at least one. */
  lemma LimitBelowOneSeesCleanup(key: string, limit: int, window: Time, now: Time)
    ensures CheckAnswer(map[], key, limit, window, now).allowed
    ensures CheckAnswer(map[key := []], key, limit, window, now).allowed <==> limit >= 1
  {
  }

  /** When a denied caller is let in again, if nothing else is recorded: at the moment the
      entry that stands `limit` places from the end leaves the window, and not before. */
  lemma {:induction false} AllowedAgainAt(w: seq<Time>, key: string, limit: int, window: Time, t: Time)
    requires Sorted(w) && 1 <= limit <= |w|
    ensures CheckAnswer(map[key := w], key, limit, window, t).allowed <==> t >= w[|w| - limit] + window
  {
    EvictLeavesFewer(w, limit, t - window);
  }

  lemma {:induction false} EvictIsNoLonger(w: seq<Time>, cutoff: Time)
    ensures |Evict(w, cutoff)| <= |w|
  {
    if w != [] && w[0] <= cutoff {
      EvictIsNoLonger(w[1..], cutoff);
    }
  }

  lemma {:induction false} EvictLeavesFewer(w: seq<Time>, limit: nat, cutoff: Time)
    requires Sorted(w) && 1 <= limit <= |w|
    ensures |Evict(w, cutoff)| < limit <==> w[|w| - limit] <= cutoff
  {
    if w[0] <= cutoff {
      if limit == |w| {
        EvictIsNoLonger(w[1..], cutoff);
      } else {
        EvictLeavesFewer(w[1..], limit, cutoff);
      }
    } else {
      SortedFirst(w, |w| - limit);
    }
  }

  /** `reset_at` is exact for a caller denied with as many entries as the limit. */
  lemma {:induction false} ResetAtIsExact(w: seq<Time>, key: string, limit: int, window: Time, now: Time, t: Time)
    requires Sorted(w) && limit >= 1 && now <= t
    requires |Evict(w, now - window)| == limit
    ensures var denied := CheckAnswer(map[key := w], key, limit, window, now);
      && !denied.allowed
      && (CheckAnswer(Checked(map[key := w], key, now - window), key, limit, window, t).allowed <==> t >= denied.resetAt)
  {
    EvictStaysSorted(w, now - window);
    AllowedAgainAt(Evict(w, now - window), key, limit, window, t);
  }
}
