/** Clock readings and sequences of them. */
module Timeline {
  import opened Counting

  type Time = real

  predicate Sorted(s: seq<Time>) {
    |s| <= 1 || (s[0] <= s[1] && Sorted(s[1..]))
  }

  /** The first entry of a sorted sequence is its least. */
  lemma {:induction false} SortedFirst(s: seq<Time>, i: nat)
    requires Sorted(s) && i < |s|
    ensures s[0] <= s[i]
  {
    if i > 0 {
      SortedFirst(s[1..], i - 1);
    }
  }

  lemma {:induction false} SortedAppend(s: seq<Time>, t: Time)
    requires Sorted(s) && (s != [] ==> s[|s| - 1] <= t)
    ensures Sorted(s + [t])
  {
    if |s| > 1 {
      SortedAppend(s[1..], t);
      assert (s + [t])[1..] == s[1..] + [t];
    }
  }

  /** The entries of a log after `cutoff`, in order. */
  function After(log: seq<Time>, cutoff: Time): seq<Time> {
    if log == [] then []
    else if log[0] > cutoff then [log[0]] + After(log[1..], cutoff)
    else After(log[1..], cutoff)
  }

  lemma {:induction false} AfterConcat(s: seq<Time>, t: seq<Time>, cutoff: Time)
    ensures After(s + t, cutoff) == After(s, cutoff) + After(t, cutoff)
  {
    if s == [] {
      assert s + t == t;
    } else {
      assert (s + t)[1..] == s[1..] + t;
      AfterConcat(s[1..], t, cutoff);
    }
  }

  lemma {:induction false} AfterNone(s: seq<Time>, cutoff: Time)
    requires forall i :: 0 <= i < |s| ==> s[i] <= cutoff
    ensures After(s, cutoff) == []
  {
    if s != [] {
      AfterNone(s[1..], cutoff);
    }
  }

  lemma {:induction false} AfterAll(s: seq<Time>, cutoff: Time)
    requires forall i :: 0 <= i < |s| ==> s[i] > cutoff
    ensures After(s, cutoff) == s
  {
    if s != [] {
      AfterAll(s[1..], cutoff);
    }
  }

  /** The number `After` keeps is the number of recorded timestamps inside the window. */
  lemma {:induction false} AfterCounts(log: seq<Time>, cutoff: Time)
    ensures |After(log, cutoff)| == Count(log, t => t > cutoff)
  {
    var p := (t: Time) => t > cutoff;
    if log != [] {
      assert log == [log[0]] + log[1..];
      CountConcat([log[0]], log[1..], p);
      CountAppend([], log[0], p);
      assert [] + [log[0]] == [log[0]];
      AfterCounts(log[1..], cutoff);
      CountSame(log[1..], p, t => t > cutoff);
    }
    CountSame(log, p, t => t > cutoff);
  }

  /** Filtering keeps only entries after the cutoff, all taken from the log. */
  lemma {:induction false} AfterKeeps(s: seq<Time>, cutoff: Time)
    ensures |After(s, cutoff)| <= |s|
    ensures forall i :: 0 <= i < |After(s, cutoff)| ==> After(s, cutoff)[i] > cutoff
  {
    if s != [] {
      AfterKeeps(s[1..], cutoff);
    }
  }

  lemma {:induction false} AfterShrinks(s: seq<Time>, cutoff: Time)
    ensures |After(s, cutoff)| <= |s|
  {
    AfterKeeps(s, cutoff);
  }

  /** Filtering a sorted log keeps it sorted and starts no earlier. */
  lemma {:induction false} AfterSorted(s: seq<Time>, cutoff: Time)
    requires Sorted(s)
    ensures Sorted(After(s, cutoff))
    ensures After(s, cutoff) != [] ==> s[0] <= After(s, cutoff)[0]
  {
    if s != [] {
      AfterSorted(s[1..], cutoff);
    }
  }

  /** Filtering at a cutoff and then at a later one is filtering at the later one. */
  lemma {:induction false} AfterAfter(s: seq<Time>, c: Time, d: Time)
    requires c <= d
    ensures After(After(s, c), d) == After(s, d)
  {
    if s != [] {
      AfterAfter(s[1..], c, d);
    }
  }

  /** Fewer than `limit` entries of a sorted log are after the cutoff exactly when the one
      `limit` places from the end is not. */
  lemma {:induction false} AfterLeavesFewer(s: seq<Time>, limit: nat, cutoff: Time)
    requires Sorted(s) && 1 <= limit <= |s|
    ensures |After(s, cutoff)| < limit <==> s[|s| - limit] <= cutoff
  {
    if s[0] > cutoff {
      AfterAllSorted(s, cutoff);
      SortedFirst(s, |s| - limit);
    } else if limit == |s| {
      AfterShrinks(s[1..], cutoff);
    } else {
      AfterLeavesFewer(s[1..], limit, cutoff);
    }
  }

  /** A sorted log whose first entry is after the cutoff is kept whole. */
  lemma {:induction false} AfterAllSorted(s: seq<Time>, cutoff: Time)
    requires Sorted(s) && (s != [] ==> s[0] > cutoff)
    ensures After(s, cutoff) == s
  {
    forall i | 0 <= i < |s| ensures s[i] > cutoff {
      SortedFirst(s, i);
    }
    AfterAll(s, cutoff);
  }
}
