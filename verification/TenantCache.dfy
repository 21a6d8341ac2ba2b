/** The tenant cache of src/tiresias/proxy/saas_auth.py:44-148: a lookup result is cached
    for a minute, counted from a clock reading taken before the awaited lookup. */
module TenantCache {
  import opened Timeline
  import opened Wrappers

  type KeyHash = string
  type RequestId = nat

  const TTL: Time := 60.0

  /** What a request is resolved to. */
  datatype Identity = Identity(tenant: string, tier: string)
  datatype Entry = Entry(identity: Identity, at: Time)
  datatype Licence = Licence(tier: string, keyHash: Option<KeyHash>)

  type Cache = map<KeyHash, Entry>

  /** The licence table, by tenant. The key hash carries no uniqueness constraint. */
  type Licences = map<string, Licence>

  predicate Holds(db: Licences, key: KeyHash, who: Identity) {
    who.tenant in db && db[who.tenant].keyHash == Some(key) && db[who.tenant].tier == who.tier
  }

  predicate Fresh(cache: Cache, key: KeyHash, now: Time) {
    key in cache && now - cache[key].at < TTL
  }

  /** What the cache answers for a key at a reading of the clock. */
  function Hit(cache: Cache, key: KeyHash, now: Time): Option<Identity> {
    if Fresh(cache, key, now) then Some(cache[key].identity) else None
  }

  function Stored(cache: Cache, key: KeyHash, who: Identity, arrived: Time): Cache {
    cache[key := Entry(who, arrived)]
  }

  /** The module-level cache. */
  class Tenants {
    var entries: Cache

    constructor ()
      ensures entries == map[]
    {
      entries := map[];
    }

    method Lookup(key: KeyHash, now: Time) returns (hit: Option<Identity>)
      ensures hit == Hit(entries, key, now)
    {
      if key in entries {
        var cached := entries[key];
        if now - cached.at < TTL {
          return Some(cached.identity);
        }
      }
      return None;
    }

    /** `arrived` is the reading taken when the request came in, however long its lookup took.
        From now on the key is answered with `who` until a minute after that reading and not
        later, also where a newer entry would have lasted longer; other keys as before. */
    method Populate(key: KeyHash, who: Identity, arrived: Time)
      modifies this
      ensures entries == Stored(old(entries), key, who, arrived)
      ensures forall t :: Hit(entries, key, t) == if t < arrived + 60.0 then Some(who) else None
      ensures forall k, t :: k != key ==> Hit(entries, k, t) == Hit(old(entries), k, t)
    {
      entries := entries[key := Entry(who, arrived)];
    }

    /** No key is answered from the cache at any time until it is stored anew. */
    method Clear()
      modifies this
      ensures entries == map[]
      ensures forall k, t :: Hit(entries, k, t).None?
    {
      entries := map[];
    }
  }

  // ----- requests, table changes and cache clears in any interleaving

  datatype Phase =
    | NotStarted
    | Pending(key: KeyHash, arrived: Time)                  // awaits the engine or the query
    | Fetched(key: KeyHash, arrived: Time, who: Identity)   // row read, session not yet closed
    | Resolved(key: KeyHash, who: Identity, at: Time, hit: bool)
    | Unauthorized
    | Unavailable

  datatype Sys = Sys(clock: Time, db: Licences, cache: Cache, requests: map<RequestId, Phase>)

  datatype Action =
    | Tick(to: Time)
    | Arrive(id: RequestId, key: KeyHash)
    | ReadRow(id: RequestId, row: Option<Identity>)
    | LookupFails(id: RequestId)
    | Store(id: RequestId)
    | ChangeTable(db: Licences)
    | ClearCache

  predicate InPhase(s: Sys, id: RequestId, pending: bool) {
    id in s.requests && if pending then s.requests[id].Pending? else s.requests[id].Fetched?
  }

  ghost predicate Enabled(s: Sys, a: Action) {
    match a
    case Tick(to) => s.clock <= to
    case Arrive(id, _) => id in s.requests && s.requests[id].NotStarted?
    case ReadRow(id, row) =>
      InPhase(s, id, true) &&
      // any of the matching rows may come first; there is a row if and only if one matches
      (match row
       case Some(who) => Holds(s.db, s.requests[id].key, who)
       case None => forall who :: !Holds(s.db, s.requests[id].key, who))
    case LookupFails(id) => id in s.requests && (s.requests[id].Pending? || s.requests[id].Fetched?)
    case Store(id) => InPhase(s, id, false)
    case ChangeTable(_) => true
    case ClearCache => true
  }

  function WithPhase(s: Sys, id: RequestId, p: Phase): Sys {
    s.(requests := s.requests[id := p])
  }

  ghost function Apply(s: Sys, a: Action): Sys
    requires Enabled(s, a)
  {
    match a
    case Tick(to) => s.(clock := to)
    case Arrive(id, key) =>
      WithPhase(s, id, match Hit(s.cache, key, s.clock)
                       case Some(who) => Resolved(key, who, s.clock, true)
                       case None => Pending(key, s.clock))
    case ReadRow(id, row) =>
      var p := s.requests[id];
      WithPhase(s, id, match row case Some(who) => Fetched(p.key, p.arrived, who) case None => Unauthorized)
    case LookupFails(id) => WithPhase(s, id, Unavailable)
    case Store(id) =>
      var p := s.requests[id];
      WithPhase(s, id, Resolved(p.key, p.who, s.clock, false)).(cache := Stored(s.cache, p.key, p.who, p.arrived))
    case ChangeTable(db) => s.(db := db)
    case ClearCache => s.(cache := map[])
  }

  ghost predicate Step(s: Sys, s': Sys) {
    exists a :: Enabled(s, a) && s' == Apply(s, a)
  }

  ghost predicate IsRun(run: seq<Sys>) {
    && run != [] && run[0].cache == map[] && (forall id :: id in run[0].requests ==> run[0].requests[id].NotStarted?)
    && forall i :: 0 <= i < |run| - 1 ==> Step(run[i], run[i + 1])
  }

  /** The table gave `who` for `key` in some state of the run at time `from` or later. */
  ghost predicate HeldSince(run: seq<Sys>, key: KeyHash, who: Identity, from: Time) {
    exists j :: 0 <= j < |run| && from <= run[j].clock && Holds(run[j].db, key, who)
  }

  /** The table gave `who` for `key` while this very request was waiting for its lookup. */
  ghost predicate HeldDuring(run: seq<Sys>, id: RequestId, key: KeyHash, who: Identity, arrived: Time) {
    exists j :: 0 <= j < |run| && id in run[j].requests && run[j].requests[id] == Pending(key, arrived)
             && arrived <= run[j].clock && Holds(run[j].db, key, who)
  }

  ghost predicate RequestInv(run: seq<Sys>, id: RequestId, p: Phase)
    requires run != []
  {
    match p
    case Pending(_, arrived) => arrived <= run[|run| - 1].clock
    case Fetched(key, arrived, who) => arrived <= run[|run| - 1].clock && HeldDuring(run, id, key, who, arrived)
    case Resolved(key, who, at, hit) =>
      && at <= run[|run| - 1].clock
      && if hit then exists from :: at - TTL < from && HeldSince(run, key, who, from)
         else exists arrived :: arrived <= at && HeldDuring(run, id, key, who, arrived)
    case _ => true
  }

  ghost predicate Inv(run: seq<Sys>)
    requires run != []
  {
    var s := run[|run| - 1];
    && (forall k :: k in s.cache ==> HeldSince(run, k, s.cache[k].identity, s.cache[k].at))
    && (forall id :: id in s.requests ==> RequestInv(run, id, s.requests[id]))
  }

  lemma {:induction false} HeldExtends(run: seq<Sys>, s: Sys)
    ensures forall k, w, from :: HeldSince(run, k, w, from) ==> HeldSince(run + [s], k, w, from)
    ensures forall id, k, w, t :: HeldDuring(run, id, k, w, t) ==> HeldDuring(run + [s], id, k, w, t)
  {
    forall k, w, from | HeldSince(run, k, w, from) ensures HeldSince(run + [s], k, w, from) {
      var j :| 0 <= j < |run| && from <= run[j].clock && Holds(run[j].db, k, w);
      assert (run + [s])[j] == run[j];
    }
    forall id, k, w, t | HeldDuring(run, id, k, w, t) ensures HeldDuring(run + [s], id, k, w, t) {
      var j :| 0 <= j < |run| && id in run[j].requests && run[j].requests[id] == Pending(k, t)
            && t <= run[j].clock && Holds(run[j].db, k, w);
      assert (run + [s])[j] == run[j];
    }
  }

  lemma {:induction false} RequestInvExtends(run: seq<Sys>, s': Sys, id: RequestId, p: Phase)
    requires run != [] && run[|run| - 1].clock <= s'.clock && RequestInv(run, id, p)
    ensures RequestInv(run + [s'], id, p)
  {
    HeldExtends(run, s');
  }

  /** The request that moves in a step keeps its promise. */
  lemma {:induction false} MovedRequest(run: seq<Sys>, a: Action, id: RequestId)
    requires run != [] && Inv(run) && Enabled(run[|run| - 1], a)
    requires a.Arrive? || a.ReadRow? || a.LookupFails? || a.Store?
    requires id == a.id
    ensures var s' := Apply(run[|run| - 1], a); RequestInv(run + [s'], id, s'.requests[id])
  {
    var s := run[|run| - 1];
    var s' := Apply(s, a);
    HeldExtends(run, s');
    assert RequestInv(run, id, s.requests[id]);
    match a
    case Arrive(_, key) =>
      if Fresh(s.cache, key, s.clock) {
        assert HeldSince(run + [s'], key, s.cache[key].identity, s.cache[key].at);
      }
    case ReadRow(_, row) =>
      if row.Some? {
        var p := s.requests[id];
        assert (run + [s'])[|run| - 1] == s;
        assert HeldDuring(run + [s'], id, p.key, row.value, p.arrived);
      }
    case Store(_) =>
      var p := s.requests[id];
      assert HeldDuring(run + [s'], id, p.key, p.who, p.arrived);
    case LookupFails(_) =>
  }

  lemma {:induction false} InvStep(run: seq<Sys>, a: Action)
    requires run != [] && Inv(run) && Enabled(run[|run| - 1], a)
    ensures Inv(run + [Apply(run[|run| - 1], a)])
  {
    var s := run[|run| - 1];
    var s' := Apply(s, a);
    HeldExtends(run, s');
    forall id | id in s'.requests ensures RequestInv(run + [s'], id, s'.requests[id]) {
      if (a.Arrive? || a.ReadRow? || a.LookupFails? || a.Store?) && a.id == id {
        MovedRequest(run, a, id);
      } else {
        RequestInvExtends(run, s', id, s.requests[id]);
      }
    }
    forall k | k in s'.cache ensures HeldSince(run + [s'], k, s'.cache[k].identity, s'.cache[k].at) {
      if a.Store? && s.requests[a.id].key == k {
        var p := s.requests[a.id];
        assert RequestInv(run, a.id, p);
        var j :| 0 <= j < |run| && a.id in run[j].requests && run[j].requests[a.id] == Pending(p.key, p.arrived)
              && p.arrived <= run[j].clock && Holds(run[j].db, p.key, p.who);
        assert (run + [s'])[j] == run[j];
      }
    }
  }

  lemma {:induction false} RunInv(run: seq<Sys>)
    requires IsRun(run)
    ensures Inv(run)
  {
    if |run| > 1 {
      var prev := run[..|run| - 1];
      RunInv(prev);
      assert Step(run[|run| - 2], run[|run| - 1]);
      var a :| Enabled(run[|run| - 2], a) && run[|run| - 1] == Apply(run[|run| - 2], a);
      InvStep(prev, a);
      assert prev + [run[|run| - 1]] == run;
    }
  }

  /** Whatever the interleaving of requests, table changes and cache clears, a request resolved
      at time t gets a tenant whose row had its key hash and its tier: for a cache hit, in a
      state later than t - 60 s; for a lookup, while the request itself waited. */
  lemma {:induction false} ResolvedIdentityWasHeld(run: seq<Sys>, id: RequestId)
    requires IsRun(run) && id in run[|run| - 1].requests && run[|run| - 1].requests[id].Resolved?
    ensures var p := run[|run| - 1].requests[id];
      exists j :: 0 <= j < |run|
        && p.who.tenant in run[j].db
        && run[j].db[p.who.tenant].keyHash == Some(p.key) && run[j].db[p.who.tenant].tier == p.who.tier
        && if p.hit then p.at - 60.0 < run[j].clock
           else && id in run[j].requests && run[j].requests[id].Pending? && run[j].requests[id].key == p.key
                && run[j].requests[id].arrived <= run[j].clock && run[j].requests[id].arrived <= p.at
  {
    RunInv(run);
    var p := run[|run| - 1].requests[id];
    assert RequestInv(run, id, p);
    if p.hit {
      var from :| p.at - TTL < from && HeldSince(run, p.key, p.who, from);
      var j :| 0 <= j < |run| && from <= run[j].clock && Holds(run[j].db, p.key, p.who);
      assert p.who.tenant in run[j].db;
    } else {
      var arrived :| arrived <= p.at && HeldDuring(run, id, p.key, p.who, arrived);
      var j :| 0 <= j < |run| && id in run[j].requests && run[j].requests[id] == Pending(p.key, arrived)
            && arrived <= run[j].clock && Holds(run[j].db, p.key, p.who);
      assert p.who.tenant in run[j].db;
    }
  }

  /** A mapping that the table did not give after `r` is not served from the cache at `r + 60`
      or later, even when a slow older lookup overwrites a newer entry. */
  lemma {:induction false} RevokedIsNotServedFromCache(run: seq<Sys>, id: RequestId, r: Time)
    requires IsRun(run) && id in run[|run| - 1].requests && run[|run| - 1].requests[id].Resolved?
    requires var p := run[|run| - 1].requests[id];
      forall j :: 0 <= j < |run| && p.who.tenant in run[j].db ==>
        (run[j].db[p.who.tenant].keyHash == Some(p.key) && run[j].db[p.who.tenant].tier == p.who.tier ==> run[j].clock <= r)
    requires run[|run| - 1].requests[id].at >= r + 60.0
    ensures !run[|run| - 1].requests[id].hit
  {
    ResolvedIdentityWasHeld(run, id);
  }

  /** After a clear every request that comes has to look its key up. */
  lemma ClearedCacheNeverHits(s: Sys, id: RequestId, key: KeyHash)
    requires Enabled(s, Arrive(id, key))
    ensures Apply(Apply(s, ClearCache), Arrive(id, key)).requests[id] == Pending(key, s.clock)
  {
  }

  /** A lookup answers 401 only when no row has the key hash, and a tenant only when one has. */
  lemma {:induction false} LookupFollowsTable(s: Sys, id: RequestId, row: Option<Identity>)
    requires Enabled(s, ReadRow(id, row))
    ensures var key, p := s.requests[id].key, Apply(s, ReadRow(id, row)).requests[id];
      && (p.Unauthorized? <==> forall t :: t in s.db ==> s.db[t].keyHash != Some(key))
      && (!p.Unauthorized? ==> p == Fetched(key, s.requests[id].arrived, p.who) && p.who.tenant in s.db
                               && s.db[p.who.tenant] == Licence(p.who.tier, Some(key)))
  {
    var key := s.requests[id].key;
    if row.None? {
      forall t | t in s.db ensures s.db[t].keyHash != Some(key) {
        assert !Holds(s.db, key, Identity(t, s.db[t].tier));
      }
    }
  }

  lemma {:induction false} Extend(run: seq<Sys>, a: Action) returns (r: seq<Sys>)
    requires IsRun(run) && Enabled(run[|run| - 1], a)
    ensures IsRun(r) && r == run + [Apply(run[|run| - 1], a)]
  {
    r := run + [Apply(run[|run| - 1], a)];
    forall i | 0 <= i < |r| - 1 ensures Step(r[i], r[i + 1]) {
      if i < |run| - 1 {
        assert Step(run[i], run[i + 1]);
      }
    }
  }

  /** At time 0, request 0 is in phase `p` of a lookup and request 1 has yet to come. */
  function AtZero(db: Licences, cache: Cache, p: Phase): Sys {
    Sys(0.0, db, cache, map[0 := p, 1 := NotStarted])
  }

  lemma {:induction false} FetchedAtZero(db: Licences, key: KeyHash, who: Identity) returns (run: seq<Sys>)
    requires Holds(db, key, who)
    ensures IsRun(run) && run[|run| - 1] == AtZero(db, map[], Fetched(key, 0.0, who))
    ensures forall j :: 0 <= j < |run| ==> run[j].clock == 0.0
  {
    run := [AtZero(db, map[], NotStarted)];
    run := Extend(run, Arrive(0, key));
    assert run[|run| - 1] == AtZero(db, map[], Pending(key, 0.0));
    run := Extend(run, ReadRow(0, Some(who)));
  }

  /** A key looked up at time 0 and revoked right after. */
  lemma {:induction false} LookedUpThenRevoked(key: KeyHash, who: Identity) returns (run: seq<Sys>)
    ensures IsRun(run)
    ensures run[|run| - 1] == AtZero(map[], map[key := Entry(who, 0.0)], Resolved(key, who, 0.0, false))
    ensures forall j :: 0 <= j < |run| ==> run[j].clock == 0.0
  {
    var db := map[who.tenant := Licence(who.tier, Some(key))];
    run := FetchedAtZero(db, key, who);
    run := Extend(run, Store(0));
    assert run[|run| - 1] == AtZero(db, map[key := Entry(who, 0.0)], Resolved(key, who, 0.0, false));
    run := Extend(run, ChangeTable(map[]));
  }

  /** The minute is used in full: at any time before 60 s a hit can still serve a mapping
      that was revoked right after it was looked up. */
  lemma {:induction false} RevokedCanBeServedForAMinute(key: KeyHash, who: Identity, t: Time) returns (run: seq<Sys>)
    requires 0.0 <= t < 60.0
    ensures IsRun(run) && run[|run| - 1].clock == t && run[|run| - 1].db == map[]
    ensures 1 in run[|run| - 1].requests && run[|run| - 1].requests[1] == Resolved(key, who, t, true)
    ensures forall j :: 0 <= j < |run| && Holds(run[j].db, key, who) ==> run[j].clock == 0.0
  {
    run := LookedUpThenRevoked(key, who);
    run := Extend(run, Tick(t));
    assert run[|run| - 1].requests[1] == NotStarted;
    run := Extend(run, Arrive(1, key));
  }
}
