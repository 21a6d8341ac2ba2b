/** Provider health of src/tiresias/providers/health.py. Each call of `is_healthy` reads the
    monotonic clock for itself, and may itself change the state. */
module Health {
  import opened Counting
  import opened Timeline
  import opened Wrappers

  const ERROR_THRESHOLD := 3
  const RECOVERY: Time := 60.0

  datatype ProviderHealth = ProviderHealth(isHealthy: bool, consecutiveErrors: nat, lastErrorAt: Option<Time>)

  const HEALTHY := ProviderHealth(true, 0, None)

  type States = map<string, ProviderHealth>

  function OnError(h: ProviderHealth, now: Time): ProviderHealth {
    var n := h.consecutiveErrors + 1;
    ProviderHealth(h.isHealthy && n < ERROR_THRESHOLD, n, Some(now))
  }

  /** A query recovers a provider whose last error is a minute or more ago. */
  function OnQuery(h: ProviderHealth, now: Time): ProviderHealth {
    if !h.isHealthy && h.lastErrorAt.Some? && now - h.lastErrorAt.value >= RECOVERY
    then h.(isHealthy := true, consecutiveErrors := 0) else h
  }

  function StateOf(states: States, name: string): ProviderHealth {
    if name in states then states[name] else HEALTHY
  }

  function Queried(states: States, name: string, now: Time): States {
    states[name := OnQuery(StateOf(states, name), now)]
  }

  /** What holds of every provider in every reachable state. */
  predicate HealthInv(h: ProviderHealth) {
    && (h.isHealthy <==> h.consecutiveErrors < ERROR_THRESHOLD)
    && (!h.isHealthy ==> h.lastErrorAt.Some?)
  }

  datatype Label = Up | Down | Degraded

  /** The dashboard's label for a status row (src/tiresias/dashboard/app.py:212-219). */
  function LabelOf(isHealthy: bool, consecutiveErrors: nat): Label {
    if isHealthy then Up else if consecutiveErrors >= 3 then Down else Degraded
  }

  /** Only an unhealthy provider with fewer than three errors would be labelled degraded. */
  lemma DegradedExactlyWhen(isHealthy: bool, consecutiveErrors: nat)
    ensures LabelOf(isHealthy, consecutiveErrors) == Degraded <==> !isHealthy && consecutiveErrors < 3
    ensures LabelOf(isHealthy, consecutiveErrors) == Up <==> isHealthy
  {
  }

  datatype StatusRow = StatusRow(name: string, isHealthy: bool, consecutiveErrors: nat)

  // ----- scanning the cascade

  /** The states after the first `n` queries of a scan of `names`, one reading each. */
  function StatesAfter(states: States, names: seq<string>, times: seq<Time>, n: nat): States
    requires n <= |names| == |times|
  {
    if n == 0 then states else Queried(StatesAfter(states, names, times, n - 1), names[n - 1], times[n - 1])
  }

  /** The answer of the `i`th query of a scan. */
  predicate Answer(states: States, names: seq<string>, times: seq<Time>, i: nat)
    requires i < |names| == |times|
  {
    StateOf(StatesAfter(states, names, times, i + 1), names[i]).isHealthy
  }

  /** The row of the `i`th query of a scan: the answer, and the error count it leaves. */
  function RowAt(states: States, names: seq<string>, times: seq<Time>, i: nat): StatusRow
    requires i < |names| == |times|
  {
    StatusRow(names[i], Answer(states, names, times, i), StateOf(StatesAfter(states, names, times, i + 1), names[i]).consecutiveErrors)
  }

  /** The names among the first `n` that a scan answers with `wanted`. */
  function Picked(states: States, names: seq<string>, times: seq<Time>, wanted: bool, n: nat): seq<string>
    requires n <= |names| == |times|
  {
    if n == 0 then []
    else
      var before := Picked(states, names, times, wanted, n - 1);
      if Answer(states, names, times, n - 1) == wanted then before + [names[n - 1]] else before
  }

  /** Healthy providers by a first scan, then unhealthy ones by a second. */
  function Ordered(states: States, names: seq<string>, times1: seq<Time>, times2: seq<Time>): seq<string>
    requires |names| == |times1| == |times2|
  {
    Picked(states, names, times1, true, |names|) +
    Picked(StatesAfter(states, names, times1, |names|), names, times2, false, |names|)
  }

  class HealthTracker {
    const cascade: seq<string>
    var states: States

    predicate Valid()
      reads this
    {
      && (forall name :: name in states ==> HealthInv(states[name]))
      && (forall i :: 0 <= i < |cascade| ==> cascade[i] in states)
    }

    constructor (providers: seq<string>)
      ensures Valid() && cascade == providers
      ensures states == map name | name in providers :: HEALTHY
    {
      cascade := providers;
      states := map name | name in providers :: HEALTHY;
    }

    method RecordSuccess(name: string)
      requires Valid()
      modifies this
      ensures Valid() && states == old(states)[name := HEALTHY]
    {
      states := states[name := HEALTHY];
    }

    method RecordError(name: string, now: Time)
      requires Valid()
      modifies this
      ensures Valid() && states == old(states)[name := OnError(StateOf(old(states), name), now)]
    {
      var h := StateOf(states, name);
      h := h.(consecutiveErrors := h.consecutiveErrors + 1, lastErrorAt := Some(now));
      if h.consecutiveErrors >= ERROR_THRESHOLD {
        h := h.(isHealthy := false);
      }
      states := states[name := h];
    }

    method IsHealthy(name: string, now: Time) returns (healthy: bool)
      requires Valid()
      modifies this
      ensures Valid() && states == Queried(old(states), name, now)
      ensures healthy == StateOf(states, name).isHealthy
    {
      var h := StateOf(states, name);
      if !h.isHealthy && h.lastErrorAt.Some? {
        if now - h.lastErrorAt.value >= RECOVERY {
          h := h.(isHealthy := true, consecutiveErrors := 0);
        }
      }
      states := states[name := h];
      healthy := h.isHealthy;
    }

    /** One of the two list comprehensions over the cascade. */
    method Scan(times: seq<Time>, wanted: bool) returns (picked: seq<string>)
      requires Valid() && |times| == |cascade|
      modifies this
      ensures Valid() && states == StatesAfter(old(states), cascade, times, |cascade|)
      ensures picked == Picked(old(states), cascade, times, wanted, |cascade|)
    {
      picked := [];
      for i := 0 to |cascade|
        invariant Valid() && states == StatesAfter(old(states), cascade, times, i)
        invariant picked == Picked(old(states), cascade, times, wanted, i)
      {
        var healthy := IsHealthy(cascade[i], times[i]);
        if healthy == wanted {
          picked := picked + [cascade[i]];
        }
      }
    }

    method GetOrderedProviders(times1: seq<Time>, times2: seq<Time>) returns (order: seq<string>)
      requires Valid() && |times1| == |times2| == |cascade|
      modifies this
      ensures Valid() && order == Ordered(old(states), cascade, times1, times2)
      ensures states == StatesAfter(StatesAfter(old(states), cascade, times1, |cascade|), cascade, times2, |cascade|)
    {
      var healthy := Scan(times1, true);
      var unhealthy := Scan(times2, false);
      order := healthy + unhealthy;
    }

    method Reset()
      requires Valid()
      modifies this
      ensures Valid() && states == map name | name in old(states) :: HEALTHY
    {
      states := map name | name in states :: HEALTHY;
    }

    /** The status rows, in cascade order; the dashboard never labels one as degraded. */
    method Status(times: seq<Time>) returns (rows: seq<StatusRow>)
      requires Valid() && |times| == |cascade|
      modifies this
      ensures Valid() && states == StatesAfter(old(states), cascade, times, |cascade|)
      ensures |rows| == |cascade|
      ensures forall i :: 0 <= i < |rows| ==> rows[i] == RowAt(old(states), cascade, times, i)
      ensures forall i :: 0 <= i < |rows| ==> LabelOf(rows[i].isHealthy, rows[i].consecutiveErrors) != Degraded
    {
      rows := [];
      for i := 0 to |cascade|
        invariant Valid() && states == StatesAfter(old(states), cascade, times, i)
        invariant |rows| == i
        invariant forall j :: 0 <= j < i ==> rows[j] == RowAt(old(states), cascade, times, j)
        invariant forall j :: 0 <= j < i ==> LabelOf(rows[j].isHealthy, rows[j].consecutiveErrors) != Degraded
      {
        var healthy := IsHealthy(cascade[i], times[i]);
        var row := StatusRow(cascade[i], healthy, states[cascade[i]].consecutiveErrors);
        assert row == RowAt(old(states), cascade, times, i);
        assert HealthInv(states[cascade[i]]);
        rows := rows + [row];
      }
    }
  }

  // ----- the order of providers

  /** What a query at `t` answers. */
  predicate HealthyAt(h: ProviderHealth, t: Time) {
    h.isHealthy || (h.lastErrorAt.Some? && t - h.lastErrorAt.value >= RECOVERY)
  }

  predicate NonDecreasing(times: seq<Time>) {
    forall i, j :: 0 <= i <= j < |times| ==> times[i] <= times[j]
  }

  predicate Distinct(names: seq<string>) {
    forall i, j :: 0 <= i < j < |names| ==> names[i] != names[j]
  }

  /** During a scan a name keeps its state, up to recoveries that had come due by then. */
  lemma {:induction false} ScanOnlyRecovers(states: States, names: seq<string>, times: seq<Time>, n: nat, name: string, t: Time)
    requires n <= |names| == |times|
    requires forall i :: 0 <= i < n ==> times[i] <= t
    ensures HealthyAt(StateOf(StatesAfter(states, names, times, n), name), t) == HealthyAt(StateOf(states, name), t)
  {
    if n > 0 {
      ScanOnlyRecovers(states, names, times, n - 1, name, t);
    }
  }

  /** With non-decreasing readings every query answers from the state before the scan. */
  lemma {:induction false} AnswerIsHealthyAt(states: States, names: seq<string>, times: seq<Time>, i: nat)
    requires i < |names| == |times| && NonDecreasing(times)
    ensures Answer(states, names, times, i) == HealthyAt(StateOf(states, names[i]), times[i])
  {
    ScanOnlyRecovers(states, names, times, i, names[i], times[i]);
  }

  /** The names whose state before the scan answers `wanted` at the reading of their turn. */
  function Filtered(states: States, names: seq<string>, times: seq<Time>, wanted: bool, n: nat): seq<string>
    requires n <= |names| == |times|
  {
    if n == 0 then []
    else
      var before := Filtered(states, names, times, wanted, n - 1);
      if HealthyAt(StateOf(states, names[n - 1]), times[n - 1]) == wanted then before + [names[n - 1]] else before
  }

  lemma {:induction false} PickedIsFiltered(states: States, names: seq<string>, times: seq<Time>, wanted: bool, n: nat)
    requires n <= |names| == |times| && NonDecreasing(times)
    ensures Picked(states, names, times, wanted, n) == Filtered(states, names, times, wanted, n)
  {
    if n > 0 {
      PickedIsFiltered(states, names, times, wanted, n - 1);
      AnswerIsHealthyAt(states, names, times, n - 1);
    }
  }

  /** The second scan also answers from the state before the first one. */
  lemma {:induction false} SecondScan(states: States, names: seq<string>, times1: seq<Time>, times2: seq<Time>, n: nat)
    requires n <= |names| == |times1| == |times2| && NonDecreasing(times1 + times2)
    ensures Filtered(StatesAfter(states, names, times1, |names|), names, times2, false, n)
            == Filtered(states, names, times2, false, n)
  {
    if n > 0 {
      SecondScan(states, names, times1, times2, n - 1);
      forall i | 0 <= i < |times1| ensures times1[i] <= times2[n - 1] {
        assert (times1 + times2)[i] == times1[i] && (times1 + times2)[|times1| + n - 1] == times2[n - 1];
      }
      ScanOnlyRecovers(states, names, times1, |names|, names[n - 1], times2[n - 1]);
    }
  }

  lemma {:induction false} OrderedIsFiltered(states: States, names: seq<string>, times1: seq<Time>, times2: seq<Time>)
    requires |names| == |times1| == |times2| && NonDecreasing(times1 + times2)
    ensures Ordered(states, names, times1, times2)
            == Filtered(states, names, times1, true, |names|) + Filtered(states, names, times2, false, |names|)
  {
    var all := times1 + times2;
    assert forall i :: 0 <= i < |times1| ==> all[i] == times1[i];
    assert forall i :: 0 <= i < |times2| ==> all[|times1| + i] == times2[i];
    PickedIsFiltered(states, names, times1, true, |names|);
    PickedIsFiltered(StatesAfter(states, names, times1, |names|), names, times2, false, |names|);
    SecondScan(states, names, times1, times2, |names|);
  }

  lemma FilteredStep(states: States, names: seq<string>, times: seq<Time>, healthy: bool, n: nat)
    requires 0 < n <= |names| == |times| && healthy == HealthyAt(StateOf(states, names[n - 1]), times[n - 1])
    ensures Filtered(states, names, times, healthy, n) == Filtered(states, names, times, healthy, n - 1) + [names[n - 1]]
    ensures Filtered(states, names, times, !healthy, n) == Filtered(states, names, times, !healthy, n - 1)
  {
  }

  lemma OneMore(a: seq<string>, b: seq<string>, whole: seq<string>, x: string)
    requires multiset(a) + multiset(b) == multiset(whole)
    ensures multiset(a + [x]) + multiset(b) == multiset(whole + [x])
  {
  }

  lemma {:induction false} HalvesMakeWhole(states: States, names: seq<string>, times: seq<Time>, n: nat)
    requires n <= |names| == |times|
    ensures multiset(Filtered(states, names, times, true, n)) + multiset(Filtered(states, names, times, false, n))
            == multiset(names[..n])
  {
    if n > 0 {
      HalvesMakeWhole(states, names, times, n - 1);
      var healthy := Filtered(states, names, times, true, n - 1);
      var unhealthy := Filtered(states, names, times, false, n - 1);
      assert names[..n] == names[..n - 1] + [names[n - 1]];
      if HealthyAt(StateOf(states, names[n - 1]), times[n - 1]) {
        FilteredStep(states, names, times, true, n);
        OneMore(healthy, unhealthy, names[..n - 1], names[n - 1]);
      } else {
        FilteredStep(states, names, times, false, n);
        OneMore(unhealthy, healthy, names[..n - 1], names[n - 1]);
      }
    }
  }

  function Answering(states: States, now: Time, wanted: bool): string -> bool {
    (name: string) => HealthyAt(StateOf(states, name), now) == wanted
  }

  /** With one reading a scan keeps the names it wants in their order: each comes after as many
      names as are wanted before it. */
  lemma {:induction false} FilteredInOrder(states: States, names: seq<string>, now: Time, wanted: bool, n: nat, i: nat)
    requires i < n <= |names|
    ensures var times := seq(|names|, _ => now);
      && |Filtered(states, names, times, wanted, n)| == Count(names[..n], Answering(states, now, wanted))
      && (HealthyAt(StateOf(states, names[i]), now) == wanted ==>
            Count(names[..i], Answering(states, now, wanted)) < |Filtered(states, names, times, wanted, n)|
            && Filtered(states, names, times, wanted, n)[Count(names[..i], Answering(states, now, wanted))] == names[i])
  {
    var times, p := seq(|names|, _ => now), Answering(states, now, wanted);
    FilteredLength(states, names, now, wanted, n - 1);
    CountAppend(names[..n - 1], names[n - 1], p);
    assert names[..n] == names[..n - 1] + [names[n - 1]];
    if i < n - 1 {
      FilteredInOrder(states, names, now, wanted, n - 1, i);
    }
  }

  lemma {:induction false} FilteredLength(states: States, names: seq<string>, now: Time, wanted: bool, n: nat)
    requires n <= |names|
    ensures |Filtered(states, names, seq(|names|, _ => now), wanted, n)| == Count(names[..n], Answering(states, now, wanted))
  {
    if n > 0 {
      FilteredLength(states, names, now, wanted, n - 1);
      CountAppend(names[..n - 1], names[n - 1], Answering(states, now, wanted));
      assert names[..n] == names[..n - 1] + [names[n - 1]];
    }
  }

  /** The place of a provider in the order under one reading: a healthy one after the healthy ones
      before it in the cascade, an unhealthy one after all healthy ones and the unhealthy before it. */
  lemma {:induction false} PlaceInOrder(states: States, names: seq<string>, now: Time, i: nat)
    requires i < |names|
    ensures var times := seq(|names|, _ => now);
            var healthy, unhealthy := Answering(states, now, true), Answering(states, now, false);
            var place := if healthy(names[i]) then Count(names[..i], healthy)
                         else Count(names, healthy) + Count(names[..i], unhealthy);
      && place < |Ordered(states, names, times, times)| && Ordered(states, names, times, times)[place] == names[i]
  {
    var times := seq(|names|, _ => now);
    assert names[..|names|] == names;
    OrderedIsFiltered(states, names, times, times);
    FilteredInOrder(states, names, now, true, |names|, i);
    FilteredInOrder(states, names, now, false, |names|, i);
  }

  /** With one clock value for the whole call, the order is the stable partition of the
      cascade into healthy and unhealthy providers, and so a permutation of it. */
  lemma {:induction false} OneReadingPartitions(states: States, names: seq<string>, now: Time)
    ensures var times := seq(|names|, _ => now);
      && Ordered(states, names, times, times)
         == Filtered(states, names, times, true, |names|) + Filtered(states, names, times, false, |names|)
      && multiset(Ordered(states, names, times, times)) == multiset(names)
  {
    var times := seq(|names|, _ => now);
    OrderedIsFiltered(states, names, times, times);
    HalvesMakeWhole(states, names, times, |names|);
    assert names[..|names|] == names;
  }

  /** The recovery of the provider falls after the first look and not after the second. */
  predicate RecoversBetween(h: ProviderHealth, t1: Time, t2: Time) {
    !h.isHealthy && h.lastErrorAt.Some? && t1 < h.lastErrorAt.value + RECOVERY <= t2
  }

  function Is(name: string): string -> bool {
    (n: string) => n == name
  }

  lemma {:induction false} FilteredCount(states: States, names: seq<string>, times: seq<Time>, wanted: bool, n: nat, i: nat)
    requires n <= |names| == |times| && i < |names| && Distinct(names)
    ensures Count(Filtered(states, names, times, wanted, n), Is(names[i]))
            == if i < n && HealthyAt(StateOf(states, names[i]), times[i]) == wanted then 1 else 0
  {
    if n > 0 {
      FilteredCount(states, names, times, wanted, n - 1, i);
      if HealthyAt(StateOf(states, names[n - 1]), times[n - 1]) == wanted {
        CountAppend(Filtered(states, names, times, wanted, n - 1), names[n - 1], Is(names[i]));
      }
    }
  }

  /** With an advancing clock and a cascade without duplicates, every provider comes up once,
      except exactly those whose recovery falls between its two looks, which are left out. */
  lemma {:induction false} OmitsExactlyTheRecovering(states: States, names: seq<string>, times1: seq<Time>, times2: seq<Time>, i: nat)
    requires |names| == |times1| == |times2| && NonDecreasing(times1 + times2) && Distinct(names) && i < |names|
    ensures Count(Ordered(states, names, times1, times2), Is(names[i]))
            == if RecoversBetween(StateOf(states, names[i]), times1[i], times2[i]) then 0 else 1
  {
    OrderedIsFiltered(states, names, times1, times2);
    FilteredCount(states, names, times1, true, |names|, i);
    FilteredCount(states, names, times2, false, |names|, i);
    CountConcat(Filtered(states, names, times1, true, |names|), Filtered(states, names, times2, false, |names|), Is(names[i]));
    assert (times1 + times2)[i] == times1[i] && (times1 + times2)[|times1| + i] == times2[i];
  }

  lemma {:induction false} FilteredEmpty(states: States, names: seq<string>, times: seq<Time>, wanted: bool, n: nat)
    requires n <= |names| == |times|
    ensures Filtered(states, names, times, wanted, n) == [] <==>
      forall i :: 0 <= i < n ==> HealthyAt(StateOf(states, names[i]), times[i]) != wanted
  {
    if n > 0 {
      FilteredEmpty(states, names, times, wanted, n - 1);
    }
  }

  /** With an advancing clock nobody is left to try exactly when every provider of the cascade,
      which may list one twice, recovers between its two looks. */
  lemma {:induction false} EmptyExactlyWhenAllRecover(states: States, names: seq<string>, times1: seq<Time>, times2: seq<Time>)
    requires |names| == |times1| == |times2| && NonDecreasing(times1 + times2)
    ensures Ordered(states, names, times1, times2) == [] <==>
      forall i :: 0 <= i < |names| ==> RecoversBetween(StateOf(states, names[i]), times1[i], times2[i])
  {
    OrderedIsFiltered(states, names, times1, times2);
    FilteredEmpty(states, names, times1, true, |names|);
    FilteredEmpty(states, names, times2, false, |names|);
  }

  // ----- health as a function of the history

  datatype Event = Error(at: Time) | Success | Reset | Query(at: Time)

  function OnEvent(h: ProviderHealth, e: Event): ProviderHealth {
    match e
    case Error(at) => OnError(h, at)
    case Success => HEALTHY
    case Reset => HEALTHY
    case Query(at) => OnQuery(h, at)
  }

  function StateAfterEvents(events: seq<Event>): ProviderHealth {
    if events == [] then HEALTHY
    else OnEvent(StateAfterEvents(events[..|events| - 1]), events[|events| - 1])
  }

  /** The time of the last error event, if there is one. */
  function LastError(events: seq<Event>): Option<Time> {
    if events == [] then None
    else if events[|events| - 1].Error? then Some(events[|events| - 1].at)
    else LastError(events[..|events| - 1])
  }

  /** The errors since the last success, reset or observed recovery. */
  function ErrorsSince(events: seq<Event>): nat {
    if events == [] then 0
    else
      var before := events[..|events| - 1];
      match events[|events| - 1]
      case Error(_) => ErrorsSince(before) + 1
      case Success => 0
      case Reset => 0
      case Query(at) =>
        if ErrorsSince(before) >= 3 && LastError(before).Some? && at - LastError(before).value >= 60.0 then 0 else ErrorsSince(before)
  }

  /** In every reachable state: healthy means fewer than three errors since the last success,
      reset or observed recovery, and a query is answered from that count and the time since
      the last error alone. */
  lemma {:induction false} HealthIsAFunctionOfHistory(events: seq<Event>, now: Time)
    ensures var h := StateAfterEvents(events);
      && HealthInv(h)
      && h.consecutiveErrors == ErrorsSince(events)
      && (ErrorsSince(events) > 0 ==> LastError(events).Some? && h.lastErrorAt == LastError(events))
      && (OnQuery(h, now).isHealthy <==>
            ErrorsSince(events) < 3 || now - LastError(events).value >= 60.0)
  {
    if events != [] {
      HealthIsAFunctionOfHistory(events[..|events| - 1], now);
    }
  }

  /** A provider marked unhealthy whose recovery has come due. */
  predicate Due(h: ProviderHealth, asked: Time) {
    !h.isHealthy && h.lastErrorAt.Some? && asked - h.lastErrorAt.value >= RECOVERY
  }

  /** Looking changes what follows: whether one more error leaves a provider healthy depends
      on whether somebody asked before, exactly when its recovery was due. */
  lemma AskingChangesTheFuture(h: ProviderHealth, asked: Time, failed: Time)
    requires HealthInv(h)
    ensures OnError(OnQuery(h, asked), failed).isHealthy != OnError(h, failed).isHealthy <==> Due(h, asked)
  {
  }

  function OnEvents(h: ProviderHealth, events: seq<Event>): ProviderHealth
    decreases |events|
  {
    if events == [] then h else OnEvents(OnEvent(h, events[0]), events[1..])
  }

  /** After `events`, a query at `now` is answered differently if somebody asked before them. */
  predicate CanTell(h: ProviderHealth, asked: Time, events: seq<Event>, now: Time) {
    OnQuery(OnEvents(OnQuery(h, asked), events), now).isHealthy != OnQuery(OnEvents(h, events), now).isHealthy
  }

  /** Whatever follows, it can tell that somebody asked only if the next event is an error, and
      only if the recovery was due; and then a query right after that error can. */
  lemma {:induction false} OnlyTheNextErrorCanTell(h: ProviderHealth, asked: Time, next: Event)
    requires HealthInv(h) && (next.Query? ==> asked <= next.at)
    ensures (exists rest, now :: CanTell(h, asked, [next] + rest, now)) <==> Due(h, asked) && next.Error?
  {
    if Due(h, asked) && next.Error? {
      assert ([next] + [])[1..] == [];
      assert CanTell(h, asked, [next] + [], next.at);
    } else {
      assert OnEvent(OnQuery(h, asked), next) == OnEvent(h, next);
      forall rest, now ensures !CanTell(h, asked, [next] + rest, now) {
        assert ([next] + rest)[1..] == rest;
      }
    }
  }

  // ----- the tracker's methods, in any order

  /** One call on the tracker. None of them waits, so the calls of concurrent requests follow
      one another in some order. */
  datatype Call =
    | ErrorCall(name: string, at: Time)
    | SuccessCall(name: string)
    | QueryCall(name: string, at: Time)
    | ResetCall

  function AfterCall(states: States, call: Call): States {
    match call
    case ErrorCall(name, at) => states[name := OnError(StateOf(states, name), at)]
    case SuccessCall(name) => states[name := HEALTHY]
    case QueryCall(name, at) => Queried(states, name, at)
    case ResetCall => map name | name in states :: HEALTHY
  }

  function AfterCalls(providers: seq<string>, calls: seq<Call>): States {
    if calls == [] then map name | name in providers :: HEALTHY
    else AfterCall(AfterCalls(providers, calls[..|calls| - 1]), calls[|calls| - 1])
  }

  /** What one call means for one provider. */
  function EventFor(name: string, call: Call): Option<Event> {
    match call
    case ErrorCall(n, at) => if n == name then Some(Error(at)) else None
    case SuccessCall(n) => if n == name then Some(Success) else None
    case QueryCall(n, at) => if n == name then Some(Query(at)) else None
    case ResetCall => Some(Reset)
  }

  function EventsFor(name: string, calls: seq<Call>): seq<Event> {
    if calls == [] then []
    else
      var before := EventsFor(name, calls[..|calls| - 1]);
      var e := EventFor(name, calls[|calls| - 1]);
      if e.Some? then before + [e.value] else before
  }

  /** Over every sequence of calls, by whatever requests, the state of a provider is that of
      its own events, so HealthIsAFunctionOfHistory speaks of every reachable tracker. */
  lemma {:induction false} TrackerFollowsHistory(providers: seq<string>, calls: seq<Call>, name: string)
    ensures StateOf(AfterCalls(providers, calls), name) == StateAfterEvents(EventsFor(name, calls))
  {
    if calls != [] {
      var before := EventsFor(name, calls[..|calls| - 1]);
      TrackerFollowsHistory(providers, calls[..|calls| - 1], name);
      var e := EventFor(name, calls[|calls| - 1]);
      if e.Some? {
        assert (before + [e.value])[..|before|] == before;
      }
    }
  }

  lemma {:induction false} AfterOneMoreCall(providers: seq<string>, calls: seq<Call>, call: Call)
    ensures AfterCalls(providers, calls + [call]) == AfterCall(AfterCalls(providers, calls), call)
  {
    assert (calls + [call])[..|calls|] == calls;
  }

  /** The calls of one scan of a cascade. */
  function ScanCalls(names: seq<string>, times: seq<Time>): (calls: seq<Call>)
    requires |names| == |times|
    ensures |calls| == |names| && forall i :: 0 <= i < |calls| ==> calls[i] == QueryCall(names[i], times[i])
  {
    seq(|names|, i requires 0 <= i < |names| => QueryCall(names[i], times[i]))
  }

  /** A scan is a sequence of queries like any other. */
  lemma {:induction false} ScanIsCalls(providers: seq<string>, calls: seq<Call>, names: seq<string>, times: seq<Time>, n: nat)
    requires n <= |names| == |times|
    ensures AfterCalls(providers, calls + ScanCalls(names, times)[..n])
            == StatesAfter(AfterCalls(providers, calls), names, times, n)
  {
    var scan := ScanCalls(names, times);
    if n == 0 {
      assert calls + scan[..0] == calls;
    } else {
      ScanIsCalls(providers, calls, names, times, n - 1);
      AfterOneMoreCall(providers, calls + scan[..n - 1], scan[n - 1]);
      assert calls + scan[..n] == calls + scan[..n - 1] + [scan[n - 1]];
    }
  }
}
