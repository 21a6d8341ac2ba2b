/** Grouped aggregation as the analytics queries use it: what a SELECT ... GROUP BY over
    rows returns, as a map from group to totals. */
module Aggregates {
  import opened Wrappers

  /** Latencies are real numbers, money a whole number of the smallest unit. */
  datatype Totals = Totals(
    count: nat,
    errors: nat,
    latencySum: real,
    latencyMin: real,
    latencyMax: real,
    cost: int)

  function MinReal(a: real, b: real): real {
    if b < a then b else a
  }

  function MaxReal(a: real, b: real): real {
    if b > a then b else a
  }

  function Merge(a: Totals, b: Totals): Totals {
    Totals(a.count + b.count, a.errors + b.errors, a.latencySum + b.latencySum,
           MinReal(a.latencyMin, b.latencyMin), MaxReal(a.latencyMax, b.latencyMax), a.cost + b.cost)
  }

  type Groups<K(==)> = map<K, Totals>

  function AddTo<K>(m: Groups<K>, k: Option<K>, t: Totals): Groups<K> {
    match k
    case None => m
    case Some(key) => m[key := if key in m then Merge(m[key], t) else t]
  }

  /** Groups the rows that `proj` selects, adding up what `val` says each contributes. */
  function GroupBy<R, K>(rows: seq<R>, proj: R -> Option<K>, val: R -> Totals): Groups<K> {
    if rows == [] then map[]
    else
      var last := rows[|rows| - 1];
      AddTo(GroupBy(rows[..|rows| - 1], proj, val), proj(last), val(last))
  }

  lemma {:induction false} AddToCommutes<K>(m: Groups<K>, k1: Option<K>, t1: Totals, k2: Option<K>, t2: Totals)
    ensures AddTo(AddTo(m, k1, t1), k2, t2) == AddTo(AddTo(m, k2, t2), k1, t1)
  {
    if k1.Some? && k2.Some? && k1 != k2 {
      assert AddTo(AddTo(m, k1, t1), k2, t2).Keys == AddTo(AddTo(m, k2, t2), k1, t1).Keys;
    }
  }

  lemma AddToMerges<K>(m: Groups<K>, k: Option<K>, t1: Totals, t2: Totals)
    ensures AddTo(AddTo(m, k, t1), k, t2) == AddTo(m, k, Merge(t1, t2))
  {
  }

  lemma {:induction false} GroupByAppend<R, K>(rows: seq<R>, x: R, proj: R -> Option<K>, val: R -> Totals)
    ensures GroupBy(rows + [x], proj, val) == AddTo(GroupBy(rows, proj, val), proj(x), val(x))
  {
    assert (rows + [x])[..|rows|] == rows;
  }

  lemma {:induction false} GroupByPointwise<R, K>(rows: seq<R>, p: R -> Option<K>, q: R -> Option<K>, val: R -> Totals)
    requires forall i :: 0 <= i < |rows| ==> p(rows[i]) == q(rows[i])
    ensures GroupBy(rows, p, val) == GroupBy(rows, q, val)
  {
    if rows != [] {
      GroupByPointwise(rows[..|rows| - 1], p, q, val);
    }
  }

  /** Enlarging one row in place, within its group, adds the enlargement to that group. */
  lemma {:induction false} GroupByEnlarge<R, K>(rows: seq<R>, i: nat, x: R, t: Totals, proj: R -> Option<K>, val: R -> Totals)
    requires i < |rows| && proj(x) == proj(rows[i]) && val(x) == Merge(val(rows[i]), t)
    ensures GroupBy(rows[i := x], proj, val) == AddTo(GroupBy(rows, proj, val), proj(x), t)
  {
    var n := |rows| - 1;
    var before := rows[..n];
    if i == n {
      assert rows[i := x][..n] == before;
      AddToMerges(GroupBy(before, proj, val), proj(x), val(rows[i]), t);
    } else {
      assert rows[i := x][..n] == before[i := x];
      GroupByEnlarge(before, i, x, t, proj, val);
      AddToCommutes(GroupBy(before, proj, val), proj(x), t, proj(rows[n]), val(rows[n]));
    }
  }

  // ----- what a group contains, said without merging

  /** The rows that `proj` sends to the group `k`. */
  function Members<R, K(==)>(rows: seq<R>, proj: R -> Option<K>, k: K): seq<R> {
    if rows == [] then []
    else
      var last := rows[|rows| - 1];
      Members(rows[..|rows| - 1], proj, k) + if proj(last) == Some(k) then [last] else []
  }

  function SumReal<R>(rows: seq<R>, f: R -> real): real {
    if rows == [] then 0.0 else SumReal(rows[..|rows| - 1], f) + f(rows[|rows| - 1])
  }

  function SumInt<R>(rows: seq<R>, f: R -> int): int {
    if rows == [] then 0 else SumInt(rows[..|rows| - 1], f) + f(rows[|rows| - 1])
  }

  ghost predicate Extremes<R>(t: Totals, rows: seq<R>, val: R -> Totals) {
    && (forall i :: 0 <= i < |rows| ==> t.latencyMin <= val(rows[i]).latencyMin && val(rows[i]).latencyMax <= t.latencyMax)
    && (exists i :: 0 <= i < |rows| && val(rows[i]).latencyMin == t.latencyMin)
    && (exists i :: 0 <= i < |rows| && val(rows[i]).latencyMax == t.latencyMax)
  }

  function CountOf<R>(val: R -> Totals): R -> int {
    (r: R) => val(r).count
  }

  function ErrorsOf<R>(val: R -> Totals): R -> int {
    (r: R) => val(r).errors
  }

  function CostOf<R>(val: R -> Totals): R -> int {
    (r: R) => val(r).cost
  }

  function LatencyOf<R>(val: R -> Totals): R -> real {
    (r: R) => val(r).latencySum
  }

  /** `t` says of these rows how many there are, what they add up to, and their extremes. */
  ghost predicate Describes<R>(t: Totals, rows: seq<R>, val: R -> Totals) {
    && t.count == SumInt(rows, CountOf(val))
    && t.errors == SumInt(rows, ErrorsOf(val))
    && t.latencySum == SumReal(rows, LatencyOf(val))
    && t.cost == SumInt(rows, CostOf(val))
    && Extremes(t, rows, val)
  }

  lemma {:induction false} SumAppend<R>(rows: seq<R>, x: R, f: R -> int, g: R -> real)
    ensures SumInt(rows + [x], f) == SumInt(rows, f) + f(x)
    ensures SumReal(rows + [x], g) == SumReal(rows, g) + g(x)
  {
    assert (rows + [x])[..|rows|] == rows;
  }

  lemma {:induction false} ExtremesAppend<R>(t: Totals, rows: seq<R>, x: R, val: R -> Totals)
    requires Extremes(t, rows, val)
    ensures Extremes(Merge(t, val(x)), rows + [x], val)
  {
    var all := rows + [x];
    var i :| 0 <= i < |rows| && val(rows[i]).latencyMin == t.latencyMin;
    var j :| 0 <= j < |rows| && val(rows[j]).latencyMax == t.latencyMax;
    assert all[i] == rows[i] && all[j] == rows[j] && all[|rows|] == x;
    forall m | 0 <= m < |all|
      ensures Merge(t, val(x)).latencyMin <= val(all[m]).latencyMin && val(all[m]).latencyMax <= Merge(t, val(x)).latencyMax
    {
      if m < |rows| {
        assert all[m] == rows[m];
      }
    }
  }

  lemma {:induction false} DescribesAppend<R>(t: Totals, rows: seq<R>, x: R, val: R -> Totals)
    requires Describes(t, rows, val)
    ensures Describes(Merge(t, val(x)), rows + [x], val)
  {
    SumAppend(rows, x, CountOf(val), LatencyOf(val));
    SumAppend(rows, x, ErrorsOf(val), LatencyOf(val));
    SumAppend(rows, x, CostOf(val), LatencyOf(val));
    ExtremesAppend(t, rows, x, val);
  }

  lemma {:induction false} DescribesOne<R>(x: R, val: R -> Totals)
    ensures Describes(val(x), [x], val)
  {
    SumAppend([], x, CountOf(val), LatencyOf(val));
    SumAppend([], x, ErrorsOf(val), LatencyOf(val));
    SumAppend([], x, CostOf(val), LatencyOf(val));
    assert [] + [x] == [x];
    assert [x][0] == x;
  }

  /** The grouped query has a group for exactly the keys that some row is sent to, and each
      group describes exactly the rows sent to it. */
  lemma {:induction false} GroupByIsExact<R, K>(rows: seq<R>, proj: R -> Option<K>, val: R -> Totals, k: K)
    ensures k in GroupBy(rows, proj, val) <==> Members(rows, proj, k) != []
    ensures k in GroupBy(rows, proj, val) ==> Describes(GroupBy(rows, proj, val)[k], Members(rows, proj, k), val)
  {
    if rows != [] {
      var last, before := rows[|rows| - 1], rows[..|rows| - 1];
      GroupByIsExact(before, proj, val, k);
      var members := Members(before, proj, k);
      if proj(last) == Some(k) {
        assert Members(rows, proj, k) == members + [last];
        if members == [] {
          DescribesOne(last, val);
          assert members + [last] == [last];
        } else {
          DescribesAppend(GroupBy(before, proj, val)[k], members, last, val);
        }
      } else {
        assert Members(rows, proj, k) == members;
      }
    }
  }

  // ----- adding up over the groups

  /** The total of a quantity over all groups, in any order. */
  ghost function SumGroups<K>(m: Groups<K>, f: Totals -> int): int
    decreases |m|
  {
    if m == map[] then 0
    else
      var k :| k in m;
      f(m[k]) + SumGroups(m - {k}, f)
  }

  lemma {:induction false} SumGroupsRemove<K>(m: Groups<K>, k: K, f: Totals -> int)
    requires k in m
    ensures SumGroups(m, f) == f(m[k]) + SumGroups(m - {k}, f)
    decreases |m|
  {
    var k0 :| k0 in m && SumGroups(m, f) == f(m[k0]) + SumGroups(m - {k0}, f);
    if k0 != k {
      SumGroupsRemove(m - {k0}, k, f);
      SumGroupsRemove(m - {k}, k0, f);
      assert m - {k0} - {k} == m - {k} - {k0};
    }
  }

  /** A quantity that merging adds up. */
  ghost predicate Additive(f: Totals -> int) {
    forall a, b :: f(Merge(a, b)) == f(a) + f(b)
  }

  lemma {:induction false} SumGroupsAdd<K>(m: Groups<K>, k: Option<K>, t: Totals, f: Totals -> int)
    requires Additive(f)
    ensures SumGroups(AddTo(m, k, t), f) == SumGroups(m, f) + if k.Some? then f(t) else 0
  {
    if k.Some? {
      var m' := AddTo(m, k, t);
      SumGroupsRemove(m', k.value, f);
      assert m' - {k.value} == m - {k.value};
      if k.value in m {
        SumGroupsRemove(m, k.value, f);
      } else {
        assert m - {k.value} == m;
      }
    }
  }

  /** What the selected rows contribute together. */
  function SumSelected<R, K>(rows: seq<R>, proj: R -> Option<K>, val: R -> Totals, f: Totals -> int): int {
    if rows == [] then 0
    else
      var last := rows[|rows| - 1];
      SumSelected(rows[..|rows| - 1], proj, val, f) + if proj(last).Some? then f(val(last)) else 0
  }

  /** Grouping neither loses nor repeats anything: the groups add up to the rows. */
  lemma {:induction false} GroupsAddUp<R, K>(rows: seq<R>, proj: R -> Option<K>, val: R -> Totals, f: Totals -> int)
    requires Additive(f)
    ensures SumGroups(GroupBy(rows, proj, val), f) == SumSelected(rows, proj, val, f)
  {
    if rows != [] {
      var last := rows[|rows| - 1];
      GroupsAddUp(rows[..|rows| - 1], proj, val, f);
      SumGroupsAdd(GroupBy(rows[..|rows| - 1], proj, val), proj(last), val(last), f);
    }
  }
}
