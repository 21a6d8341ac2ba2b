/** The engine registry of src/tiresias/storage/engine.py: a lock-free fast path, a second
    look under an asyncio lock, creation across an await, and teardown under the same lock.

    One step is the code a task runs between two awaits. The key of a call is the tenant,
    or one fixed key for all tenants when a Postgres URL is configured. */
module EngineRegistry {
  import opened Wrappers

  type Key = string
  type Engine = nat
  type Task = nat

  datatype Phase =
    | Idle
    | Queued(key: Key)                    // missed on the fast path, waits for the lock
    | Creating(key: Key, engine: Engine)  // holds the lock, awaits the table creation
    | Got(key: Key, engine: Engine)       // get_engine has returned
    | Failed
    | CloseQueued                         // close_all_engines waits for the lock
    | Closing(left: set<Key>)             // holds the lock; the keys not yet disposed
    | Closed

  datatype Event =
    | Published(key: Key, engine: Engine)
    | Returned(task: Task, key: Key, engine: Engine)
    | Cleared

  datatype Sys = Sys(
    registry: map<Key, Engine>,
    holder: Option<Task>,
    tasks: map<Task, Phase>,
    created: nat,            // engines are numbered in the order of their creation
    disposed: set<Engine>,
    log: seq<Event>)

  datatype Action =
    | Call(t: Task, key: Key)
    | Acquire(t: Task)
    | Publish(t: Task)
    | CreationFails(t: Task)
    | CallClose(t: Task)
    | AcquireClose(t: Task)
    | Dispose(t: Task, key: Key)
    | DisposeFails(t: Task)
    | FinishClose(t: Task)

  predicate Enabled(s: Sys, a: Action) {
    && a.t in s.tasks
    && match a
       case Call(t, _) => s.tasks[t].Idle?
       case Acquire(t) => s.tasks[t].Queued? && s.holder.None?
       case Publish(t) => s.tasks[t].Creating?
       case CreationFails(t) => s.tasks[t].Creating?
       case CallClose(t) => s.tasks[t].Idle?
       case AcquireClose(t) => s.tasks[t].CloseQueued? && s.holder.None?
       case Dispose(t, key) => s.tasks[t].Closing? && key in s.tasks[t].left && key in s.registry
       case DisposeFails(t) => s.tasks[t].Closing? && s.tasks[t].left != {}
       case FinishClose(t) => s.tasks[t].Closing? && s.tasks[t].left == {}
  }

  function Move(s: Sys, t: Task, p: Phase): Sys {
    s.(tasks := s.tasks[t := p])
  }

  function Return(s: Sys, t: Task, key: Key): Sys
    requires key in s.registry
  {
    Move(s, t, Got(key, s.registry[key])).(log := s.log + [Returned(t, key, s.registry[key])])
  }

  function Apply(s: Sys, a: Action): Sys
    requires Enabled(s, a)
  {
    match a
    case Call(t, key) => if key in s.registry then Return(s, t, key) else Move(s, t, Queued(key))
    case Acquire(t) =>
      var key := s.tasks[t].key;
      if key in s.registry then Return(s, t, key)
      else Move(s, t, Creating(key, s.created)).(holder := Some(t), created := s.created + 1)
    case Publish(t) =>
      var p := s.tasks[t];
      var s' := s.(registry := s.registry[p.key := p.engine], holder := None, log := s.log + [Published(p.key, p.engine)]);
      Return(s', t, p.key)
    case CreationFails(t) => Move(s, t, Failed).(holder := None)
    case CallClose(t) => Move(s, t, CloseQueued)
    case AcquireClose(t) => Move(s, t, Closing(s.registry.Keys)).(holder := Some(t))
    case Dispose(t, key) =>
      Move(s, t, Closing(s.tasks[t].left - {key})).(disposed := s.disposed + {s.registry[key]})
    case DisposeFails(t) => Move(s, t, Failed).(holder := None)
    case FinishClose(t) => Move(s, t, Closed).(holder := None, registry := map[], log := s.log + [Cleared])
  }

  ghost predicate Step(s: Sys, s': Sys) {
    exists a :: Enabled(s, a) && s' == Apply(s, a)
  }

  ghost predicate Init(s: Sys) {
    && s.registry == map[] && s.holder == None && s.created == 0 && s.disposed == {} && s.log == []
    && forall t :: t in s.tasks ==> s.tasks[t].Idle?
  }

  ghost predicate IsRun(run: seq<Sys>) {
    && run != [] && Init(run[0])
    && forall i :: 0 <= i < |run| - 1 ==> Step(run[i], run[i + 1])
  }

  // ----- the history of publications and returns

  function ReplayEvent(m: map<Key, Engine>, e: Event): map<Key, Engine> {
    match e
    case Published(k, x) => m[k := x]
    case Returned(_, _, _) => m
    case Cleared => map[]
  }

  /** The registry that a history leaves behind. */
  function Replay(log: seq<Event>): map<Key, Engine> {
    if log == [] then map[] else ReplayEvent(Replay(log[..|log| - 1]), log[|log| - 1])
  }

  /** A key is published only while it is absent, and what is returned is registered. */
  predicate FaithfulEvent(m: map<Key, Engine>, e: Event) {
    match e
    case Published(k, _) => k !in m
    case Returned(_, k, x) => k in m && m[k] == x
    case Cleared => true
  }

  predicate Faithful(log: seq<Event>) {
    log != [] ==> Faithful(log[..|log| - 1]) && FaithfulEvent(Replay(log[..|log| - 1]), log[|log| - 1])
  }

  predicate HoldsLock(p: Phase) {
    p.Creating? || p.Closing?
  }

  ghost predicate LockInv(s: Sys) {
    && (forall t :: t in s.tasks && HoldsLock(s.tasks[t]) ==> s.holder == Some(t))
    && (s.holder.Some? ==> s.holder.value in s.tasks && HoldsLock(s.tasks[s.holder.value]))
    && (forall t :: t in s.tasks && s.tasks[t].Creating? ==> s.tasks[t].key !in s.registry)
    && (forall t :: t in s.tasks && s.tasks[t].Closing? ==> s.tasks[t].left <= s.registry.Keys)
  }

  ghost predicate Inv(s: Sys) {
    LockInv(s) && s.registry == Replay(s.log) && Faithful(s.log)
  }

  lemma {:induction false} LogAppend(log: seq<Event>, e: Event)
    ensures Replay(log + [e]) == ReplayEvent(Replay(log), e)
    ensures Faithful(log + [e]) <==> Faithful(log) && FaithfulEvent(Replay(log), e)
  {
    assert (log + [e])[..|log|] == log;
  }

  lemma LockInvStep(s: Sys, a: Action)
    requires LockInv(s) && Enabled(s, a)
    ensures LockInv(Apply(s, a))
  {
  }

  lemma {:induction false} InvStep(s: Sys, a: Action)
    requires Inv(s) && Enabled(s, a)
    ensures Inv(Apply(s, a))
  {
    LockInvStep(s, a);
    match a
    case Call(t, key) =>
      if key in s.registry {
        LogAppend(s.log, Returned(t, key, s.registry[key]));
      }
    case Acquire(t) =>
      var key := s.tasks[t].key;
      if key in s.registry {
        LogAppend(s.log, Returned(t, key, s.registry[key]));
      }
    case Publish(t) =>
      var p := s.tasks[t];
      LogAppend(s.log, Published(p.key, p.engine));
      LogAppend(s.log + [Published(p.key, p.engine)], Returned(t, p.key, p.engine));
    case FinishClose(_) => LogAppend(s.log, Cleared);
    case _ =>
  }

  lemma {:induction false} RunInv(run: seq<Sys>, i: nat)
    requires IsRun(run) && i < |run|
    ensures Inv(run[i])
  {
    if i > 0 {
      RunInv(run, i - 1);
      assert Step(run[i - 1], run[i]);
      var a :| Enabled(run[i - 1], a) && run[i] == Apply(run[i - 1], a);
      InvStep(run[i - 1], a);
    }
  }

  predicate Waits(p: Phase) {
    p.Queued? || p.CloseQueued?
  }

  /** The lock is never lost: in every reachable state in which a task waits for it, either it
      is free and that task can take it, or the task that holds it can go on. */
  lemma {:induction false} LockIsNeverLost(run: seq<Sys>, i: nat, t: Task)
    requires IsRun(run) && i < |run| && t in run[i].tasks && Waits(run[i].tasks[t])
    ensures exists a :: Enabled(run[i], a) && a.t == if run[i].holder.None? then t else run[i].holder.value
  {
    RunInv(run, i);
    var s := run[i];
    if s.holder.None? {
      var a := if s.tasks[t].Queued? then Acquire(t) else AcquireClose(t);
      assert Enabled(s, a) && a.t == t;
    } else {
      var h := s.holder.value;
      var a := if s.tasks[h].Creating? then Publish(h) else if s.tasks[h].left == {} then FinishClose(h) else DisposeFails(h);
      assert Enabled(s, a) && a.t == h;
    }
  }

  /** No teardown is completed at the positions `i..j` of a history. */
  predicate NoClear(log: seq<Event>, i: nat, j: nat)
    requires i <= j <= |log|
  {
    forall m :: i <= m < j ==> !log[m].Cleared?
  }

  lemma {:induction false} FaithfulPrefix(log: seq<Event>, n: nat)
    requires Faithful(log) && n <= |log|
    ensures Faithful(log[..n])
    decreases |log|
  {
    if n < |log| {
      FaithfulPrefix(log[..|log| - 1], n);
      assert log[..|log| - 1][..n] == log[..n];
    } else {
      assert log[..n] == log;
    }
  }

  /** What is registered stays registered until the next teardown completes. */
  lemma {:induction false} RegisteredUntilClear(log: seq<Event>, i: nat, j: nat, k: Key)
    requires Faithful(log) && i <= j <= |log| && NoClear(log, i, j)
    requires k in Replay(log[..i])
    ensures k in Replay(log[..j]) && Replay(log[..j])[k] == Replay(log[..i])[k]
    decreases j
  {
    if i < j {
      RegisteredUntilClear(log, i, j - 1, k);
      FaithfulPrefix(log, j);
      assert log[..j][..j - 1] == log[..j - 1];
    }
  }

  /** A faithful history, read at one of its events. */
  lemma {:induction false} FaithfulAt(log: seq<Event>, i: nat)
    requires Faithful(log) && i < |log|
    ensures FaithfulEvent(Replay(log[..i]), log[i])
    ensures Replay(log[..i + 1]) == ReplayEvent(Replay(log[..i]), log[i])
  {
    FaithfulPrefix(log, i + 1);
    assert log[..i + 1][..i] == log[..i];
  }

  /** Between two completed teardowns a key is published at most once, and every call that
      returns in between returns the same engine. */
  lemma {:induction false} OneEnginePerInterval(run: seq<Sys>, i: nat, j: nat)
    requires IsRun(run)
    requires i < j < |run[|run| - 1].log| && NoClear(run[|run| - 1].log, i, j)
    ensures var log := run[|run| - 1].log;
      && !(log[i].Published? && log[j].Published? && log[i].key == log[j].key)
      && (!log[i].Cleared? && log[j].Returned? && log[i].key == log[j].key ==> log[i].engine == log[j].engine)
  {
    RunInv(run, |run| - 1);
    var log := run[|run| - 1].log;
    FaithfulAt(log, i);
    FaithfulAt(log, j);
    if !log[i].Cleared? {
      RegisteredUntilClear(log, i + 1, j, log[i].key);
    }
  }

  /** A call hands out the engine that is registered for its key at that very step. */
  lemma {:induction false} ReturnsTheRegistered(run: seq<Sys>, i: nat, t: Task)
    requires IsRun(run) && i + 1 < |run|
    requires t in run[i].tasks && !run[i].tasks[t].Got? && t in run[i + 1].tasks && run[i + 1].tasks[t].Got?
    ensures var got := run[i + 1].tasks[t];
      got.key in run[i + 1].registry && run[i + 1].registry[got.key] == got.engine
  {
    assert Step(run[i], run[i + 1]);
  }

  lemma {:induction false} CloseStep(s: Sys, s': Sys, t: Task)
    requires Inv(s) && Step(s, s')
    requires t in s.tasks && s.tasks[t].Closing? && t in s'.tasks && s'.tasks[t].Closing?
    ensures s'.registry == s.registry && s'.tasks[t].left <= s.tasks[t].left
  {
    var a :| Enabled(s, a) && s' == Apply(s, a);
    assert a.Publish? || a.FinishClose? ==> a.t == t;
  }

  /** While one task iterates over the registry across its awaits, nobody changes it. */
  lemma {:induction false} RegistryStillDuringClose(run: seq<Sys>, i: nat, j: nat, t: Task)
    requires IsRun(run) && i <= j < |run|
    requires forall m :: i <= m <= j ==> t in run[m].tasks && run[m].tasks[t].Closing?
    ensures run[j].registry == run[i].registry && run[j].tasks[t].left <= run[i].tasks[t].left
    decreases j
  {
    if i < j {
      RegistryStillDuringClose(run, i, j - 1, t);
      RunInv(run, j - 1);
      assert Step(run[j - 1], run[j]);
      CloseStep(run[j - 1], run[j], t);
    }
  }

  // ----- disposal

  /** Engines are new when created, and each lives under one key. */
  ghost predicate FreshInv(s: Sys) {
    && (forall k :: k in s.registry ==> s.registry[k] < s.created)
    && (forall e :: e in s.disposed ==> e < s.created)
    && (forall t :: t in s.tasks && s.tasks[t].Creating? ==>
          s.tasks[t].engine < s.created && s.tasks[t].engine !in s.registry.Values && s.tasks[t].engine !in s.disposed)
    && (forall k, k' :: k in s.registry && k' in s.registry && s.registry[k] == s.registry[k'] ==> k == k')
  }

  lemma {:induction false} FreshInvStep(s: Sys, a: Action)
    requires LockInv(s) && FreshInv(s) && Enabled(s, a)
    ensures FreshInv(Apply(s, a))
  {
    var s' := Apply(s, a);
    if a.Publish? {
      var p := s.tasks[a.t];
      assert forall k :: k in s.registry ==> s.registry[k] in s.registry.Values;
    }
  }

  /** A teardown under way has passed `k`. */
  ghost predicate BehindClosePass(s: Sys, k: Key) {
    exists t :: t in s.tasks && s.tasks[t].Closing? && k !in s.tasks[t].left
  }

  /** Some teardown, finished or not, had passed `k` at some moment of the run, and `k` has been
      registered ever since. */
  ghost predicate PassedSince(run: seq<Sys>, k: Key) {
    exists j :: 0 <= j < |run| && BehindClosePass(run[j], k) && forall m :: j <= m < |run| ==> k in run[m].registry
  }

  lemma {:induction false} PassedSinceExtends(run: seq<Sys>, s: Sys, k: Key)
    ensures PassedSince(run + [s], k) <==> k in s.registry && (BehindClosePass(s, k) || PassedSince(run, k))
  {
    var r := run + [s];
    if PassedSince(r, k) {
      var j :| 0 <= j < |r| && BehindClosePass(r[j], k) && forall m :: j <= m < |r| ==> k in r[m].registry;
      assert r[|run|] == s;
      if j < |run| {
        assert r[j] == run[j] && forall m :: j <= m < |run| ==> r[m] == run[m];
      }
    }
    if k in s.registry && BehindClosePass(s, k) {
      assert r[|run|] == s;
    } else if k in s.registry && PassedSince(run, k) {
      var j :| 0 <= j < |run| && BehindClosePass(run[j], k) && forall m :: j <= m < |run| ==> k in run[m].registry;
      assert r[j] == run[j] && forall m :: j <= m < |r| ==> k in r[m].registry;
    }
  }

  /** Registered engines are live, except those that a teardown has passed. */
  ghost predicate LiveInv(run: seq<Sys>, s: Sys) {
    forall k :: k in s.registry ==> (s.registry[k] in s.disposed <==> PassedSince(run, k))
  }

  lemma {:induction false} LiveKey(run: seq<Sys>, s: Sys, a: Action, k: Key)
    requires LockInv(s) && FreshInv(s) && Enabled(s, a) && k in Apply(s, a).registry
    requires if k in s.registry then s.registry[k] in s.disposed <==> PassedSince(run, k) else !PassedSince(run, k)
    requires BehindClosePass(s, k) && k in s.registry ==> PassedSince(run, k)
    ensures var s' := Apply(s, a); s'.registry[k] in s'.disposed <==> PassedSince(run + [s'], k)
  {
    var s' := Apply(s, a);
    PassedSinceExtends(run, s', k);
    if BehindClosePass(s', k) {
      var t :| t in s'.tasks && s'.tasks[t].Closing? && k !in s'.tasks[t].left;
      assert k in s.registry;
      assert a == Dispose(t, k) || (s.tasks[t].Closing? && k !in s.tasks[t].left);
    }
    if a.Dispose? {
      assert s'.tasks[a.t].Closing?;
    }
  }

  lemma {:induction false} LiveInvStep(run: seq<Sys>, a: Action)
    requires run != [] && LockInv(run[|run| - 1]) && FreshInv(run[|run| - 1]) && Enabled(run[|run| - 1], a)
    requires LiveInv(run, run[|run| - 1])
    ensures LiveInv(run + [Apply(run[|run| - 1], a)], Apply(run[|run| - 1], a))
  {
    var s := run[|run| - 1];
    forall k | k in Apply(s, a).registry
      ensures Apply(s, a).registry[k] in Apply(s, a).disposed <==> PassedSince(run + [Apply(s, a)], k)
    {
      LiveKey(run, s, a, k);
    }
  }

  ghost predicate DisposalInv(run: seq<Sys>, s: Sys) {
    LockInv(s) && FreshInv(s) && LiveInv(run, s)
  }

  lemma {:induction false} DisposalInvStep(run: seq<Sys>, a: Action)
    requires run != [] && DisposalInv(run, run[|run| - 1]) && Enabled(run[|run| - 1], a)
    ensures DisposalInv(run + [Apply(run[|run| - 1], a)], Apply(run[|run| - 1], a))
  {
    LockInvStep(run[|run| - 1], a);
    FreshInvStep(run[|run| - 1], a);
    LiveInvStep(run, a);
  }

  lemma {:induction false} DisposalInvRun(run: seq<Sys>)
    requires IsRun(run)
    ensures DisposalInv(run, run[|run| - 1])
  {
    if |run| > 1 {
      var prev, s := run[..|run| - 1], run[|run| - 2];
      DisposalInvRun(prev);
      assert Step(s, run[|run| - 1]);
      var a :| Enabled(s, a) && run[|run| - 1] == Apply(s, a);
      DisposalInvStep(prev, a);
      assert prev + [run[|run| - 1]] == run;
    }
  }

  /** In every run, failing disposals included, a registered engine, and so one that a call can
      return, is already disposed if and only if a teardown has passed its key and the key has
      stayed registered ever since: the teardown is under way, or one of its disposals raised. */
  lemma {:induction false} DisposedExactlyBehindAPass(run: seq<Sys>)
    requires IsRun(run)
    ensures var s := run[|run| - 1];
      forall k :: k in s.registry ==> (s.registry[k] in s.disposed <==> PassedSince(run, k))
  {
    DisposalInvRun(run);
  }

  lemma {:induction false} Extend(run: seq<Sys>, a: Action) returns (r: seq<Sys>)
    requires IsRun(run) && Enabled(run[|run| - 1], a)
    ensures IsRun(r) && r == run + [Apply(run[|run| - 1], a)]
  {
    r := run + [Apply(run[|run| - 1], a)];
    forall i | 0 <= i < |r| - 1 ensures Step(r[i], r[i + 1]) {
      if i < |run| - 1 {
        assert Step(run[i], run[i + 1]);
      }
    }
  }

  /** A step in which no disposal fails keeps a teardown behind its keys until it clears them. */
  lemma {:induction false} CleanStepKeepsPass(s: Sys, a: Action, k: Key)
    requires LockInv(s) && Enabled(s, a) && !a.DisposeFails? && BehindClosePass(s, k) && k in Apply(s, a).registry
    ensures BehindClosePass(Apply(s, a), k)
  {
    var t :| t in s.tasks && s.tasks[t].Closing? && k !in s.tasks[t].left;
    assert t in Apply(s, a).tasks && Apply(s, a).tasks[t].Closing? && k !in Apply(s, a).tasks[t].left;
  }

  ghost predicate CleanStep(s: Sys, s': Sys) {
    exists a :: Enabled(s, a) && !a.DisposeFails? && s' == Apply(s, a)
  }

  ghost predicate CleanRun(run: seq<Sys>) {
    && run != [] && Init(run[0])
    && forall i :: 0 <= i < |run| - 1 ==> CleanStep(run[i], run[i + 1])
  }

  lemma {:induction false} CleanRunIsRun(run: seq<Sys>)
    requires CleanRun(run)
    ensures IsRun(run)
  {
    forall i | 0 <= i < |run| - 1 ensures Step(run[i], run[i + 1]) {
      assert CleanStep(run[i], run[i + 1]);
    }
  }

  lemma {:induction false} LockInvBefore(run: seq<Sys>)
    requires CleanRun(run) && |run| > 1
    ensures LockInv(run[|run| - 2])
  {
    CleanRunIsRun(run);
    RunInv(run, |run| - 2);
  }

  lemma {:induction false} PassSurvives(run: seq<Sys>, k: Key)
    requires CleanRun(run) && |run| > 1 && k in run[|run| - 1].registry && BehindClosePass(run[|run| - 2], k)
    ensures BehindClosePass(run[|run| - 1], k)
  {
    LockInvBefore(run);
    var s, s' := run[|run| - 2], run[|run| - 1];
    assert CleanStep(s, s');
    var a :| Enabled(s, a) && !a.DisposeFails? && s' == Apply(s, a);
    CleanStepKeepsPass(s, a, k);
  }

  lemma {:induction false} PassedBefore(run: seq<Sys>, k: Key)
    requires |run| > 1 && PassedSince(run, k) && !BehindClosePass(run[|run| - 1], k)
    ensures PassedSince(run[..|run| - 1], k) && k in run[|run| - 2].registry
  {
    var prev := run[..|run| - 1];
    assert prev + [run[|run| - 1]] == run;
    PassedSinceExtends(prev, run[|run| - 1], k);
    assert prev[|prev| - 1] == run[|run| - 2];
  }

  lemma {:induction false} PassedOnlyByOneUnderWay(run: seq<Sys>, k: Key)
    requires CleanRun(run) && k in run[|run| - 1].registry && PassedSince(run, k)
    ensures BehindClosePass(run[|run| - 1], k)
  {
    if |run| > 1 && !BehindClosePass(run[|run| - 1], k) {
      PassedBefore(run, k);
      PassedOnlyByOneUnderWay(run[..|run| - 1], k);
      PassSurvives(run, k);
    }
  }

  /** Where no disposal fails, it can only be a teardown under way. */
  lemma {:induction false} DisposedOnlyBehindClosePass(run: seq<Sys>)
    requires CleanRun(run)
    ensures var s := run[|run| - 1];
      forall k :: k in s.registry ==> (s.registry[k] in s.disposed <==> BehindClosePass(s, k))
  {
    CleanRunIsRun(run);
    DisposedExactlyBehindAPass(run);
    var s := run[|run| - 1];
    forall k | k in s.registry ensures s.registry[k] in s.disposed <==> BehindClosePass(s, k) {
      PassedSinceExtends(run[..|run| - 1], s, k);
      assert run[..|run| - 1] + [s] == run;
      if PassedSince(run, k) {
        PassedOnlyByOneUnderWay(run, k);
      }
    }
  }

  // ----- runs that hand out a disposed engine

  /** An idle task finds the lock free and publishes an engine for an absent key. */
  lemma {:induction false} PublishNew(run: seq<Sys>, t: Task, k: Key) returns (r: seq<Sys>)
    requires IsRun(run) && k !in run[|run| - 1].registry && run[|run| - 1].holder == None
    requires t in run[|run| - 1].tasks && run[|run| - 1].tasks[t].Idle?
    ensures IsRun(r)
    ensures var s, s' := run[|run| - 1], r[|r| - 1];
      && s'.registry == s.registry[k := s.created] && s'.created == s.created + 1
      && s'.holder == None && s'.disposed == s.disposed && s'.tasks == s.tasks[t := Got(k, s.created)]
  {
    r := Extend(run, Call(t, k));
    r := Extend(r, Acquire(t));
    r := Extend(r, Publish(t));
  }

  /** Task 2 has been handed an engine that is disposed. */
  predicate HandedDisposed(s: Sys) {
    2 in s.tasks && s.tasks[2].Got? && s.tasks[2].engine in s.disposed
  }

  /** The fast path does not look at the lock: a call made in the middle of a teardown can
      be handed an engine that has already been disposed. */
  lemma {:induction false} FastPathCanReturnDisposed(k: Key) returns (run: seq<Sys>)
    ensures IsRun(run) && HandedDisposed(run[|run| - 1])
  {
    run := [Sys(map[], None, map[0 := Idle, 1 := Idle, 2 := Idle], 0, {}, [])];
    run := PublishNew(run, 0, k);
    run := Extend(run, CallClose(1));
    run := Extend(run, AcquireClose(1));
    run := Extend(run, Dispose(1, k));
    assert run[|run| - 1].registry == map[k := 0] && 0 in run[|run| - 1].disposed;
    run := Extend(run, Call(2, k));
  }

  ghost predicate NobodyCloses(s: Sys) {
    forall t :: t in s.tasks ==> !s.tasks[t].Closing?
  }

  /** Task 1 disposes the engine of `k`, and its next disposal raises. */
  lemma {:induction false} DisposesAndRaises(run: seq<Sys>, k: Key, k2: Key) returns (r: seq<Sys>)
    requires IsRun(run) && k != k2 && k in run[|run| - 1].registry && k2 in run[|run| - 1].registry
    requires 1 in run[|run| - 1].tasks && run[|run| - 1].tasks[1].Idle? && run[|run| - 1].holder == None
    ensures IsRun(r)
    ensures var s, s' := run[|run| - 1], r[|r| - 1];
      s'.registry == s.registry && s'.disposed == s.disposed + {s.registry[k]} && s'.tasks == s.tasks[1 := Failed]
  {
    r := Extend(run, CallClose(1));
    r := Extend(r, AcquireClose(1));
    r := Extend(r, Dispose(1, k));
    assert k2 in r[|r| - 1].tasks[1].left;
    r := Extend(r, DisposeFails(1));
  }

  /** When a disposal raises, the teardown gives up before it clears the registry: what it had
      disposed stays registered, and later calls get it with no teardown under way. */
  lemma {:induction false} FailedDisposalLeavesDisposed(k: Key, k2: Key) returns (run: seq<Sys>)
    requires k != k2
    ensures IsRun(run) && HandedDisposed(run[|run| - 1]) && NobodyCloses(run[|run| - 1])
  {
    run := [Sys(map[], None, map[0 := Idle, 1 := Idle, 2 := Idle, 3 := Idle], 0, {}, [])];
    run := PublishNew(run, 0, k);
    run := PublishNew(run, 3, k2);
    run := DisposesAndRaises(run, k, k2);
    run := Extend(run, Call(2, k));
  }

  /** The engines a history has published. */
  function EverPublished(log: seq<Event>): set<Engine> {
    set i | 0 <= i < |log| && log[i].Published? :: log[i].engine
  }

  /** Nothing published is ever lost: it is registered or it has been disposed. */
  ghost predicate NoLeak(s: Sys) {
    && (forall e :: e in EverPublished(s.log) ==> e in s.disposed || e in s.registry.Values)
    && (forall t, k :: t in s.tasks && s.tasks[t].Closing? && k in s.registry && k !in s.tasks[t].left ==>
          s.registry[k] in s.disposed)
  }

  lemma {:induction false} NoLeakStep(s: Sys, a: Action)
    requires LockInv(s) && NoLeak(s) && Enabled(s, a)
    ensures NoLeak(Apply(s, a))
  {
    var s' := Apply(s, a);
    forall e | e in EverPublished(s'.log) ensures e in s'.disposed || e in s'.registry.Values {
      if e in EverPublished(s.log) {
        if e in s.registry.Values {
          var k :| k in s.registry && s.registry[k] == e;
          assert a.FinishClose? ==> e in s'.disposed;
          assert !a.FinishClose? ==> k in s'.registry && s'.registry[k] == e;
        }
      } else {
        assert a.Publish?;
        assert s'.registry[s.tasks[a.t].key] == e;
      }
    }
  }

  lemma {:induction false} NoLeakInv(s: Sys, s': Sys)
    requires LockInv(s) && NoLeak(s) && Step(s, s')
    ensures NoLeak(s')
  {
    var a :| Enabled(s, a) && s' == Apply(s, a);
    NoLeakStep(s, a);
  }

  /** In every run, failing disposals included, each engine ever published is still
      registered or has been disposed. */
  lemma {:induction false} PublishedEnginesAreNeverLost(run: seq<Sys>)
    requires IsRun(run)
    ensures NoLeak(run[|run| - 1])
  {
    if |run| > 1 {
      PublishedEnginesAreNeverLost(run[..|run| - 1]);
      RunInv(run, |run| - 2);
      assert Step(run[|run| - 2], run[|run| - 1]);
      NoLeakInv(run[|run| - 2], run[|run| - 1]);
    }
  }
}
