/** The sliding-window limiter of src/tiresias/auth/rate_limiter.py.

    Clock readings are real numbers. The lock sections of the source are the
    methods of the class below; each takes the clock reading that its caller took
    before it waited for the lock. */
module RateLimiter {
  import opened Timeline

  type Windows = map<string, seq<Time>>

  datatype RateLimitResult = RateLimitResult(
    allowed: bool,
    currentCount: nat,
    limit: int,
    remaining: int,
    resetAt: Time,
    windowSeconds: Time)

  function Max(a: int, b: int): int {
    if a >= b then a else b
  }

  /** `w` without its longest prefix of entries at or before `cutoff`. */
  function Evict(w: seq<Time>, cutoff: Time): seq<Time> {
    if w != [] && w[0] <= cutoff then Evict(w[1..], cutoff) else w
  }

  /** Eviction cuts `w` in two: a front of expired entries and the rest, which starts
      with an entry still inside the window. */
  lemma {:induction false} EvictSplits(w: seq<Time>, cutoff: Time) returns (gone: seq<Time>)
    ensures w == gone + Evict(w, cutoff)
    ensures forall i :: 0 <= i < |gone| ==> gone[i] <= cutoff
    ensures Evict(w, cutoff) != [] ==> Evict(w, cutoff)[0] > cutoff
  {
    if w != [] && w[0] <= cutoff {
      var rest := EvictSplits(w[1..], cutoff);
      gone := [w[0]] + rest;
    } else {
      gone := [];
    }
  }

  /** The entries still kept for `key`. */
  function WindowOf(ws: Windows, key: string): seq<Time> {
    if key in ws then ws[key] else []
  }

  function Checked(ws: Windows, key: string, cutoff: Time): Windows {
    if key in ws then ws[key := Evict(ws[key], cutoff)] else ws
  }

  /** What `check` answers; a key never seen is let through whatever the limit is. */
  function CheckAnswer(ws: Windows, key: string, limit: int, window: Time, now: Time): RateLimitResult {
    if key !in ws then
      RateLimitResult(true, 0, limit, limit, now + window, window)
    else
      var w := Evict(ws[key], now - window);
      RateLimitResult(|w| < limit, |w|, limit, Max(limit - |w|, 0),
                      if w != [] then w[0] + window else now + window, window)
  }

  function CountAnswer(ws: Windows, key: string, window: Time, now: Time): nat {
    |Evict(WindowOf(ws, key), now - window)|
  }

  function Recorded(ws: Windows, key: string, now: Time): Windows {
    ws[key := WindowOf(ws, key) + [now]]
  }

  function Cleaned(ws: Windows, cutoff: Time): Windows {
    map k | k in ws && Evict(ws[k], cutoff) != [] :: Evict(ws[k], cutoff)
  }

  function Without(ws: Windows, keys: set<string>): Windows {
    map k | k in ws && k !in keys :: ws[k]
  }

  /** The state of the limiter, with one method for each section under the lock. */
  class SlidingWindowRateLimiter {
    var windows: Windows

    constructor ()
      ensures windows == map[]
    {
      windows := map[];
    }

    static method EvictLoop(w: seq<Time>, cutoff: Time) returns (r: seq<Time>)
      ensures r == Evict(w, cutoff)
    {
      r := w;
      while r != [] && r[0] <= cutoff
        invariant Evict(r, cutoff) == Evict(w, cutoff)
        decreases |r|
      {
        r := r[1..];
      }
    }

    method Check(key: string, limit: int, window: Time, now: Time) returns (r: RateLimitResult)
      modifies this
      ensures r == CheckAnswer(old(windows), key, limit, window, now)
      ensures windows == Checked(old(windows), key, now - window)
    {
      var cutoff := now - window;
      if key !in windows {
        return RateLimitResult(true, 0, limit, limit, now + window, window);
      }
      var w := EvictLoop(windows[key], cutoff);
      windows := windows[key := w];
      var count := |w|;
      var resetAt := if w != [] then w[0] + window else now + window;
      return RateLimitResult(count < limit, count, limit, Max(limit - count, 0), resetAt, window);
    }

    method Record(key: string, now: Time)
      modifies this
      ensures windows == Recorded(old(windows), key, now)
    {
      if key !in windows {
        windows := windows[key := []];
      }
      windows := windows[key := windows[key] + [now]];
    }

    method GetCount(key: string, window: Time, now: Time) returns (n: nat)
      modifies this
      ensures n == CountAnswer(old(windows), key, window, now)
      ensures windows == Checked(old(windows), key, now - window)
    {
      if key !in windows {
        return 0;
      }
      var w := EvictLoop(windows[key], now - window);
      windows := windows[key := w];
      return |w|;
    }

    /** The loop of `cleanup`: evicts from every window and collects the keys left empty. */
    static method EvictAll(ws: Windows, cutoff: Time) returns (r: Windows, emptyKeys: set<string>)
      ensures r.Keys == ws.Keys
      ensures forall k :: k in ws ==> r[k] == Evict(ws[k], cutoff)
      ensures forall k :: k in emptyKeys <==> k in ws && Evict(ws[k], cutoff) == []
    {
      r, emptyKeys := ws, {};
      var todo := ws.Keys;
      while todo != {}
        invariant todo <= ws.Keys == r.Keys
        invariant forall k :: k in todo ==> r[k] == ws[k]
        invariant forall k :: k in ws && k !in todo ==> r[k] == Evict(ws[k], cutoff)
        invariant forall k :: k in emptyKeys <==> k in ws && k !in todo && Evict(ws[k], cutoff) == []
        decreases |todo|
      {
        var key :| key in todo;
        var w := EvictLoop(r[key], cutoff);
        r := r[key := w];
        if w == [] {
          emptyKeys := emptyKeys + {key};
        }
        todo := todo - {key};
      }
    }

    /** Evicts from every window, forgets the keys left empty and returns how many those are. */
    method Cleanup(maxWindow: Time, now: Time) returns (purged: nat)
      modifies this
      ensures windows == Cleaned(old(windows), now - maxWindow)
      ensures purged == |old(windows).Keys - windows.Keys|
    {
      var evicted, emptyKeys := EvictAll(windows, now - maxWindow);
      CleanupForgets(windows, evicted, now - maxWindow, emptyKeys);
      windows, purged := Without(evicted, emptyKeys), |emptyKeys|;
    }
  }

  /** Leaving out the keys found empty is the same as cleaning. */
  lemma {:induction false} CleanupForgets(ws: Windows, evicted: Windows, cutoff: Time, emptyKeys: set<string>)
    requires evicted.Keys == ws.Keys && forall k :: k in ws ==> evicted[k] == Evict(ws[k], cutoff)
    requires forall k :: k in emptyKeys <==> k in ws && Evict(ws[k], cutoff) == []
    ensures Without(evicted, emptyKeys) == Cleaned(ws, cutoff)
    ensures |ws.Keys - Cleaned(ws, cutoff).Keys| == |emptyKeys|
  {
    assert ws.Keys - Cleaned(ws, cutoff).Keys == emptyKeys;
  }

  /** A cleanup forgets exactly the keys with no entry after the cutoff, and leaves the others a
      deque that starts after it and has lost nothing but entries before. */
  lemma {:induction false} CleanedByKey(ws: Windows, cutoff: Time, k: string)
    ensures k in Cleaned(ws, cutoff) <==> k in ws && exists i :: 0 <= i < |ws[k]| && ws[k][i] > cutoff
    ensures k in Cleaned(ws, cutoff) ==>
      && Cleaned(ws, cutoff)[k] != [] && Cleaned(ws, cutoff)[k][0] > cutoff
      && Suffix(ws[k], Cleaned(ws, cutoff)[k], cutoff)
  {
    if k in ws {
      var gone := EvictSplits(ws[k], cutoff);
      var rest := Evict(ws[k], cutoff);
      if rest != [] {
        assert ws[k][|gone|] == rest[0];
      } else {
        assert ws[k] == gone;
      }
    }
  }

  /** `w` is what is left of `log` after dropping a front of entries at or before `bound`. */
  ghost predicate Suffix(log: seq<Time>, w: seq<Time>, bound: Time) {
    && |w| <= |log| && log[|log| - |w|..] == w
    && forall i :: 0 <= i < |log| - |w| ==> log[i] <= bound
  }

  lemma {:induction false} EvictSuffix(log: seq<Time>, w: seq<Time>, cutoff: Time, bound: Time)
    requires Suffix(log, w, bound) && cutoff <= bound
    ensures Suffix(log, Evict(w, cutoff), bound)
  {
    var gone := EvictSplits(w, cutoff);
    var r := Evict(w, cutoff);
    forall i | 0 <= i < |log| - |r| ensures log[i] <= bound {
      if i >= |log| - |w| {
        assert log[i] == w[i - (|log| - |w|)] == gone[i - (|log| - |w|)];
      }
    }
  }
}
