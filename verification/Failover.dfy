/** The failover loop of src/tiresias/providers/router.py and the error classification it
    depends on (src/tiresias/providers/base.py:34-41, src/tiresias/providers/ollama.py:31-33). */
module Failover {
  import opened Counting
  import opened Health
  import opened Strings
  import opened Timeline
  import opened Wrappers

  /** How an attempt at a provider ends. */
  datatype Outcome =
    | TimedOut
    | RequestError
    | Response(status: int)
    | Raises               // anything else: an unknown provider, a request that cannot be built

  datatype Class = Retry | ClientError | Succeeds | Abort

  /** Ollama answers 4xx for models it does not have, so there every 4xx moves on. */
  predicate IsError(ollama: bool, status: int) {
    if ollama then status >= 400 else status >= 500 || status == 429
  }

  predicate IsClientError(status: int) {
    400 <= status < 500 && status != 429
  }

  function Classify(ollama: bool, o: Outcome): Class {
    match o
    case TimedOut => Retry
    case RequestError => Retry
    case Raises => Abort
    case Response(status) =>
      if IsError(ollama, status) then Retry
      else if IsClientError(status) then ClientError
      else Succeeds
  }

  datatype Result =
    | Answered(provider: string)
    | Rejected(provider: string, status: int)
    | Raised(provider: string)
    | Exhausted

  /** What the loop is run with: how each provider is built, how each attempt ends, and when
      its failure is recorded. */
  datatype Script = Script(isOllama: string -> bool, outcome: nat -> Outcome, at: nat -> Time)

  /** The provider named by the prefix of a model such as "ollama/llama3.1:8b", if the
      cascade has it. */
  function DetectProvider(lower: string -> string, cascade: seq<string>, model: string): Option<string> {
    if '/' in model && lower(Split(model, '/')[0]) in cascade then Some(lower(Split(model, '/')[0])) else None
  }

  function ClassAt(order: seq<string>, sc: Script, i: nat): Class
    requires i < |order|
  {
    Classify(sc.isOllama(order[i]), sc.outcome(i))
  }

  /** The attempt at which the loop leaves a list of providers, or the length of the list. */
  function StopAt(order: seq<string>, sc: Script, i: nat): (n: nat)
    requires i <= |order|
    ensures i <= n <= |order|
    ensures forall j :: i <= j < n ==> ClassAt(order, sc, j).Retry?
    ensures n < |order| ==> !ClassAt(order, sc, n).Retry?
    decreases |order| - i
  {
    if i == |order| || !ClassAt(order, sc, i).Retry? then i else StopAt(order, sc, i + 1)
  }

  /** The states once the failures of the first `n` providers of the list are recorded. */
  function AfterFailures(states: States, order: seq<string>, sc: Script, n: nat): States
    requires n <= |order|
  {
    if n == 0 then states
    else
      var before := AfterFailures(states, order, sc, n - 1);
      before[order[n - 1] := OnError(StateOf(before, order[n - 1]), sc.at(n - 1))]
  }

  /** What a list of providers comes to: exhausted when all of them move on, otherwise
      whatever the first that does not comes to. */
  function ResultOf(order: seq<string>, sc: Script): Result {
    var n := StopAt(order, sc, 0);
    if n == |order| then Exhausted
    else match ClassAt(order, sc, n)
      case ClientError => Rejected(order[n], sc.outcome(n).status)
      case Succeeds => Answered(order[n])
      case Abort => Raised(order[n])
  }

  /** How many providers of the list are tried. */
  function Attempts(order: seq<string>, sc: Script): (n: nat)
    ensures n <= |order| && (order != [] ==> n > 0)
  {
    var stop := StopAt(order, sc, 0);
    if stop < |order| then stop + 1 else stop
  }

  /** The states a list of providers leaves: every failure before the stop recorded, and a
      success if there is one. */
  function StatesLeft(states: States, order: seq<string>, sc: Script): States {
    var failed := AfterFailures(states, order, sc, StopAt(order, sc, 0));
    if ResultOf(order, sc).Answered? then failed[ResultOf(order, sc).provider := HEALTHY] else failed
  }

  /** The states once the two scans of an unpinned request have asked about everybody. */
  function StatesAsked(states: States, names: seq<string>, times1: seq<Time>, times2: seq<Time>): States
    requires |names| == |times1| == |times2|
  {
    StatesAfter(StatesAfter(states, names, times1, |names|), names, times2, |names|)
  }

  // ----- what the loop does, by the outcomes of its attempts

  /** An attempt that ends like this makes the loop go on: a timeout, a failed request, a status
      of 500 or more or 429, and at Ollama every status of 400 or more. */
  predicate MovesOn(ollama: bool, o: Outcome) {
    match o
    case TimedOut => true
    case RequestError => true
    case Response(status) => status >= 500 || status == 429 || (ollama && status >= 400)
    case Raises => false
  }

  /** Attempt `i` is the first that does not move on; with `i` the length of the list, none is. */
  ghost predicate StopsFirstAt(order: seq<string>, sc: Script, i: nat) {
    && i <= |order|
    && (forall j :: 0 <= j < i ==> MovesOn(sc.isOllama(order[j]), sc.outcome(j)))
    && (i < |order| ==> !MovesOn(sc.isOllama(order[i]), sc.outcome(i)))
  }

  lemma {:induction false} RetryIsMovesOn(order: seq<string>, sc: Script, i: nat)
    requires i < |order|
    ensures ClassAt(order, sc, i).Retry? <==> MovesOn(sc.isOllama(order[i]), sc.outcome(i))
  {
  }

  lemma {:induction false} StopFrom(order: seq<string>, sc: Script, i: nat, k: nat)
    requires StopsFirstAt(order, sc, i) && k <= i
    ensures StopAt(order, sc, k) == i
    decreases i - k
  {
    if k < |order| {
      RetryIsMovesOn(order, sc, k);
    }
    if k < i {
      StopFrom(order, sc, i, k + 1);
    }
  }

  /** The result is read off the first attempt that does not move on. */
  lemma {:induction false} ResultByOutcome(order: seq<string>, sc: Script, i: nat)
    requires StopsFirstAt(order, sc, i)
    ensures i == |order| ==> ResultOf(order, sc) == Exhausted && Attempts(order, sc) == |order|
    ensures i < |order| ==>
      && Attempts(order, sc) == i + 1
      && ResultOf(order, sc)
         == match sc.outcome(i)
            case Raises => Raised(order[i])
            case Response(status) => if status < 400 then Answered(order[i]) else Rejected(order[i], status)
            case _ => Exhausted
  {
    StopFrom(order, sc, i, 0);
  }

  /** Every failure among the first `n` attempts is on record: a provider has one more consecutive
      error for each, the last of them dated by its own attempt. */
  lemma {:induction false} FailuresOnRecord(states: States, order: seq<string>, sc: Script, n: nat, name: string)
    requires n <= |order|
    ensures var h := StateOf(AfterFailures(states, order, sc, n), name);
      && h.consecutiveErrors == StateOf(states, name).consecutiveErrors + Count(order[..n], Is(name))
      && (forall i :: 0 <= i < n && order[i] == name && name !in order[i + 1..n] ==> h.lastErrorAt == Some(sc.at(i)))
      && (name !in order[..n] ==> h == StateOf(states, name))
  {
    if n > 0 {
      FailuresOnRecord(states, order, sc, n - 1, name);
      CountAppend(order[..n - 1], order[n - 1], Is(name));
      assert order[..n] == order[..n - 1] + [order[n - 1]];
      forall i | 0 <= i < n && order[i] == name && name !in order[i + 1..n]
        ensures StateOf(AfterFailures(states, order, sc, n), name).lastErrorAt == Some(sc.at(i))
      {
        if i < n - 1 {
          assert order[i + 1..n] == order[i + 1..n - 1] + [order[n - 1]];
        }
      }
    }
  }

  /** The tracker after the loop: a provider that answered is as new, and every other has the
      errors of its attempts that moved on, and no others. */
  lemma {:induction false} TrackerByOutcome(states: States, order: seq<string>, sc: Script, i: nat, name: string)
    requires StopsFirstAt(order, sc, i)
    ensures var h := StateOf(StatesLeft(states, order, sc), name);
      if i < |order| && sc.outcome(i).Response? && sc.outcome(i).status < 400 && name == order[i] then h == HEALTHY
      else
        && h.consecutiveErrors == StateOf(states, name).consecutiveErrors + Count(order[..i], Is(name))
        && (forall j :: 0 <= j < i && order[j] == name && name !in order[j + 1..i] ==> h.lastErrorAt == Some(sc.at(j)))
        && (name !in order[..i] ==> h == StateOf(states, name))
  {
    ResultByOutcome(order, sc, i);
    StopFrom(order, sc, i, 0);
    FailuresOnRecord(states, order, sc, i, name);
  }

  /** A model name pins the provider before its first slash, lower-cased, if the cascade has it. */
  lemma {:induction false} PinIsThePrefix(lower: string -> string, cascade: seq<string>, prefix: string, rest: string)
    requires '/' !in prefix
    ensures DetectProvider(lower, cascade, prefix + "/" + rest)
            == if lower(prefix) in cascade then Some(lower(prefix)) else None
    ensures DetectProvider(lower, cascade, prefix) == None
  {
    SplitFirst(prefix, rest, '/');
    assert (prefix + "/" + rest)[|prefix|] == '/';
  }

  /** The loop touches nobody but the providers it has attempted. */
  lemma {:induction false} OthersUntouched(states: States, order: seq<string>, sc: Script, n: nat, name: string)
    requires n <= |order| && name !in order[..n]
    ensures StateOf(AfterFailures(states, order, sc, n), name) == StateOf(states, name)
  {
    if n > 0 {
      assert order[..n] == order[..n - 1] + [order[n - 1]];
      OthersUntouched(states, order, sc, n - 1, name);
    }
  }

  class ProviderRouter {
    const cascade: seq<string>
    const health: HealthTracker
    const lower: string -> string

    constructor (health: HealthTracker, lower: string -> string)
      ensures this.cascade == health.cascade && this.health == health && this.lower == lower
    {
      this.cascade, this.health, this.lower := health.cascade, health, lower;
    }

    /** The list the loop walks: the pinned provider alone (an empty name pins nothing),
        otherwise the cascade in the order of its health. */
    method ChooseOrder(model: string, times1: seq<Time>, times2: seq<Time>) returns (order: seq<string>, pinned: bool)
      requires health.Valid() && |times1| == |times2| == |health.cascade|
      modifies health
      ensures health.Valid()
      ensures pinned <==> DetectProvider(lower, cascade, model).Some? && DetectProvider(lower, cascade, model) != Some("")
      ensures pinned ==> order == [DetectProvider(lower, cascade, model).value] && health.states == old(health.states)
      ensures !pinned ==> order == Ordered(old(health.states), health.cascade, times1, times2)
      ensures !pinned ==> health.states == StatesAsked(old(health.states), health.cascade, times1, times2)
    {
      var detected := DetectProvider(lower, cascade, model);
      pinned := detected.Some? && detected.value != "";
      if pinned {
        order := [detected.value];
      } else {
        order := health.GetOrderedProviders(times1, times2);
      }
    }

    /** A whole request: the order is chosen, then its providers are tried. */
    method Execute(model: string, times1: seq<Time>, times2: seq<Time>, sc: Script) returns (r: Result)
      requires health.Valid() && |times1| == |times2| == |health.cascade|
      modifies health
      ensures health.Valid()
      ensures var pin := DetectProvider(lower, cascade, model);
        if pin.Some? && pin.value != "" then
          && r == ResultOf([pin.value], sc)
          && health.states == StatesLeft(old(health.states), [pin.value], sc)
          && forall name :: name != pin.value ==> StateOf(health.states, name) == StateOf(old(health.states), name)
        else
          var order := Ordered(old(health.states), health.cascade, times1, times2);
          && r == ResultOf(order, sc)
          && health.states == StatesLeft(StatesAsked(old(health.states), health.cascade, times1, times2), order, sc)
    {
      var order, pinned := ChooseOrder(model, times1, times2);
      ghost var chosen := health.states;
      var attempts;
      r, attempts := TryProviders(order, sc);
      if pinned {
        forall name | name != order[0] ensures StateOf(health.states, name) == StateOf(chosen, name) {
          OthersUntouched(chosen, order, sc, StopAt(order, sc, 0), name);
        }
      }
    }

    /** The loop over the chosen providers: in order, up to the first outcome that does not
        move on; every failed attempt is recorded as an error, and only a success as one. */
    method TryProviders(order: seq<string>, sc: Script) returns (r: Result, attempts: nat)
      requires health.Valid()
      modifies health
      ensures health.Valid()
      ensures r == ResultOf(order, sc)
      ensures r == Exhausted <==> forall i :: 0 <= i < |order| ==> ClassAt(order, sc, i).Retry?
      ensures attempts == Attempts(order, sc)
      ensures health.states == StatesLeft(old(health.states), order, sc)
    {
      ghost var stop := StopAt(order, sc, 0);
      attempts := 0;
      while attempts < |order|
        invariant attempts <= stop && health.Valid()
        invariant StopAt(order, sc, attempts) == stop
        invariant health.states == AfterFailures(old(health.states), order, sc, attempts)
      {
        var name := order[attempts];
        var outcome := sc.outcome(attempts);
        match Classify(sc.isOllama(name), outcome) {
          case Abort =>
            return Raised(name), attempts + 1;
          case Retry =>
            health.RecordError(name, sc.at(attempts));
            attempts := attempts + 1;
          case ClientError =>
            return Rejected(name, outcome.status), attempts + 1;
          case Succeeds =>
            health.RecordSuccess(name);
            return Answered(name), attempts + 1;
        }
      }
      r := Exhausted;
    }
  }

  /** Every status is exactly one of: move on, report to the caller, success; for Ollama
      nothing is ever reported to the caller. */
  lemma StatusIsClassifiedOnce(ollama: bool, status: int)
    ensures !ollama ==> !(IsError(ollama, status) && IsClientError(status))
    ensures ollama && IsClientError(status) ==> IsError(ollama, status)
    ensures Classify(ollama, Response(status)).Succeeds? <==> status < 400
    ensures Classify(ollama, Response(status)).ClientError? <==> !ollama && 400 <= status < 500 && status != 429
  {
  }

  /** A request that pins no provider is reported as exhausted without a single attempt exactly
      when every provider of the cascade recovers between the two looks of the ordering. */
  lemma {:induction false} ExhaustedWithoutAttempt(states: States, cascade: seq<string>, times1: seq<Time>, times2: seq<Time>, sc: Script)
    requires |cascade| == |times1| == |times2| && NonDecreasing(times1 + times2)
    ensures var order := Ordered(states, cascade, times1, times2);
      ResultOf(order, sc) == Exhausted && Attempts(order, sc) == 0 <==>
        forall i :: 0 <= i < |cascade| ==> RecoversBetween(StateOf(states, cascade[i]), times1[i], times2[i])
  {
    EmptyExactlyWhenAllRecover(states, cascade, times1, times2);
  }

  /** It can happen to any cascade: everybody's third error at time 0, the first look at 59 s and
      the second at 60 s. */
  lemma {:induction false} RecoveryCanEmptyTheOrder(cascade: seq<string>, sc: Script)
    ensures var down := map name | name in cascade :: OnError(OnError(OnError(HEALTHY, 0.0), 0.0), 0.0);
            var order := Ordered(down, cascade, Repeated(59.0, |cascade|), Repeated(60.0, |cascade|));
      order == [] && ResultOf(order, sc) == Exhausted
  {
    var down := map name | name in cascade :: OnError(OnError(OnError(HEALTHY, 0.0), 0.0), 0.0);
    ExhaustedWithoutAttempt(down, cascade, Repeated(59.0, |cascade|), Repeated(60.0, |cascade|), sc);
  }
}
