/** The policy decision point of src/tiresias/auth/pdp.py over the SOP policies of
    src/tiresias/policy/sop_policy.py. */
module Pdp {
  import opened Counting
  import opened Datetimes
  import opened RateSpecs
  import opened Strings
  import opened Wrappers

  const SECOND: int := 1_000_000
  const MINUTES_PER_DAY: int := 1440

  datatype Rule = Rule(
    sopId: string,
    allowedActions: seq<string>,
    requiresApproval: bool,
    rateLimit: string,        // empty for none
    timeWindow: string,       // empty for none
    maxSpend: Option<real>)

  datatype Policy = Policy(rules: seq<Rule>, defaultAction: string)

  datatype Request = Request(identity: string, tenant: string, sopId: string, action: string)

  /** The readings of the clock during one evaluation, and the estimated cost. */
  datatype Call = Call(req: Request, estimatedCost: real, windowAt: Instant, checkAt: Instant, recordAt: Instant)

  datatype Verdict = Grant | Deny | QueueForApproval
  datatype EventType = SopCheck | SopGrant | SopDeny
  datatype Event = Event(id: nat, kind: EventType)
  datatype Decision = Decision(verdict: Verdict, auditRef: nat, approvalId: Option<nat>)

  // ----- matching

  predicate Matches(r: Rule, sopId: string, action: string) {
    r.sopId == sopId && action in r.allowedActions
  }

  function FirstMatch(rules: seq<Rule>, sopId: string, action: string): Option<Rule> {
    if rules == [] then None
    else if Matches(rules[0], sopId, action) then Some(rules[0])
    else FirstMatch(rules[1..], sopId, action)
  }

  /** The rule found is the first of the matching ones, and none is found only if none matches. */
  lemma {:induction false} FirstMatchIsFirst(rules: seq<Rule>, sopId: string, action: string)
    ensures match FirstMatch(rules, sopId, action)
      case None => forall i :: 0 <= i < |rules| ==> !Matches(rules[i], sopId, action)
      case Some(r) => exists i :: 0 <= i < |rules| && rules[i] == r && Matches(r, sopId, action)
                               && forall j :: 0 <= j < i ==> !Matches(rules[j], sopId, action)
  {
    if rules != [] && !Matches(rules[0], sopId, action) {
      FirstMatchIsFirst(rules[1..], sopId, action);
      var found := FirstMatch(rules[1..], sopId, action);
      if found.Some? {
        var i :| 0 <= i < |rules[1..]| && rules[1..][i] == found.value
              && forall j :: 0 <= j < i ==> !Matches(rules[1..][j], sopId, action);
        assert rules[i + 1] == found.value;
        forall j | 0 <= j < i + 1 ensures !Matches(rules[j], sopId, action) {
          if j > 0 {
            assert rules[j] == rules[1..][j - 1];
          }
        }
      }
    }
  }

  // ----- the time window

  /** Minutes since midnight of an "HH:MM" text, if it has two parts that read as numbers. */
  function ParseClock(parseInt: string -> Option<int>, text: string): Option<int> {
    var parts := Split(text, ':');
    if |parts| == 2 && parseInt(parts[0]).Some? && parseInt(parts[1]).Some?
    then Some(parseInt(parts[0]).value * 60 + parseInt(parts[1]).value)
    else None
  }

  function MinuteOfDay(t: Instant): int {
    t % DAY / (60 * SECOND)
  }

  predicate InWindow(start: int, end: int, current: int) {
    if start <= end then start <= current <= end else current >= start || current <= end
  }

  /** A window that cannot be read lets everything through. */
  predicate TimeAllows(parseInt: string -> Option<int>, window: string, now: Instant) {
    var parts := Split(window, '-');
    if |parts| != 2 then true
    else
      var start, end := ParseClock(parseInt, parts[0]), ParseClock(parseInt, parts[1]);
      start.Some? && end.Some? ==> InWindow(start.value, end.value, MinuteOfDay(now))
  }

  /** For times of day, the window is the cyclic interval from start to end: going round the
      clock from start, the current minute comes no later than the end. */
  lemma WindowIsCyclic(start: int, end: int, now: Instant)
    requires 0 <= start < MINUTES_PER_DAY && 0 <= end < MINUTES_PER_DAY
    ensures 0 <= MinuteOfDay(now) < MINUTES_PER_DAY
    ensures InWindow(start, end, MinuteOfDay(now))
            <==> (MinuteOfDay(now) - start) % MINUTES_PER_DAY <= (end - start) % MINUTES_PER_DAY
  {
  }

  /** A reading of integers that is right on digits; on other texts it may do as it likes. */
  ghost predicate ReadsDigits(parseInt: string -> Option<int>) {
    forall s :: s != "" && AllDigits(s) ==> parseInt(s) == Some(Decimal(s))
  }

  predicate IsTimeOfDay(hours: string, minutes: string) {
    hours != "" && AllDigits(hours) && Decimal(hours) < 24 && minutes != "" && AllDigits(minutes) && Decimal(minutes) < 60
  }

  function MinutesAt(hours: string, minutes: string): nat
    requires IsTimeOfDay(hours, minutes)
  {
    60 * Decimal(hours) + Decimal(minutes)
  }

  lemma {:induction false} ClockIsRead(parseInt: string -> Option<int>, hours: string, minutes: string)
    requires ReadsDigits(parseInt) && IsTimeOfDay(hours, minutes)
    ensures ParseClock(parseInt, hours + ":" + minutes) == Some(MinutesAt(hours, minutes))
  {
    SplitFirst(hours, minutes, ':');
    SplitFree(minutes, ':');
  }

  /** A window written as "HH:MM-HH:MM" lets a call through exactly inside that cyclic interval. */
  lemma {:induction false} WrittenWindowIsCyclic(parseInt: string -> Option<int>, h1: string, m1: string, h2: string, m2: string, now: Instant)
    requires ReadsDigits(parseInt) && IsTimeOfDay(h1, m1) && IsTimeOfDay(h2, m2)
    ensures var start, end := MinutesAt(h1, m1), MinutesAt(h2, m2);
      TimeAllows(parseInt, h1 + ":" + m1 + "-" + (h2 + ":" + m2), now)
      <==> (MinuteOfDay(now) - start) % MINUTES_PER_DAY <= (end - start) % MINUTES_PER_DAY
  {
    SplitFirst(h1 + ":" + m1, h2 + ":" + m2, '-');
    SplitFree(h2 + ":" + m2, '-');
    ClockIsRead(parseInt, h1, m1);
    ClockIsRead(parseInt, h2, m2);
    WindowIsCyclic(MinutesAt(h1, m1), MinutesAt(h2, m2), now);
  }

  // ----- the decision

  type Log = map<string, seq<Instant>>

  function LogKey(r: Request): string {
    r.identity + ":" + r.sopId + ":" + r.action
  }

  function EntriesOf(log: Log, key: string): seq<Instant> {
    if key in log then log[key] else []
  }

  function NotBefore(since: Instant): Instant -> bool {
    (t: Instant) => t >= since
  }

  predicate RateAllows(spec: string, entries: seq<Instant>, now: Instant) {
    match ParsePdp(spec)
    case None => true
    case Some(rate) => Count(entries, NotBefore(now - rate.seconds * SECOND)) < rate.count
  }

  predicate SpendAllows(r: Rule, cost: real) {
    r.maxSpend.Some? ==> cost <= r.maxSpend.value
  }

  /** The rule lets the call pass: inside its window, under its rate, within its spend. */
  predicate Passes(parseInt: string -> Option<int>, r: Rule, entries: seq<Instant>, c: Call) {
    && (r.timeWindow != "" ==> TimeAllows(parseInt, r.timeWindow, c.windowAt))
    && (r.rateLimit != "" ==> RateAllows(r.rateLimit, entries, c.checkAt))
    && SpendAllows(r, c.estimatedCost)
  }

  function VerdictOf(parseInt: string -> Option<int>, p: Policy, entries: seq<Instant>, c: Call): Verdict {
    match FirstMatch(p.rules, c.req.sopId, c.req.action)
    case None => if p.defaultAction == "queue_for_approval" then QueueForApproval else Deny
    case Some(r) =>
      if !Passes(parseInt, r, entries, c) then Deny
      else if r.requiresApproval then QueueForApproval
      else Grant
  }

  /** A grant, with the rate its rule imposed. */
  datatype Granted = Granted(req: Request, rate: Option<Rate>, at: Instant)

  function RateOf(p: Policy, req: Request): Option<Rate> {
    match FirstMatch(p.rules, req.sopId, req.action)
    case None => None
    case Some(r) => if r.rateLimit == "" then None else ParsePdp(r.rateLimit)
  }

  /** The execution log that a history of grants leaves under one joined key. */
  function LoggedUnder(history: seq<Granted>, key: string): seq<Instant> {
    if history == [] then []
    else
      var last := history[|history| - 1];
      var before := LoggedUnder(history[..|history| - 1], key);
      if LogKey(last.req) == key then before + [last.at] else before
  }

  function Extended(entries: seq<Instant>, grown: bool, at: Instant): seq<Instant> {
    if grown then entries + [at] else entries
  }

  lemma {:induction false} LoggedAppend(history: seq<Granted>, g: Granted, key: string)
    ensures LoggedUnder(history + [g], key) == Extended(LoggedUnder(history, key), LogKey(g.req) == key, g.at)
  {
    assert (history + [g])[..|history|] == history;
  }

  /** An in-memory execution log, whose lists are created when first looked at. */
  class ExecutionLog {
    var log: Log

    constructor ()
      ensures log == map[]
    {
      log := map[];
    }

    function Entries(key: string): seq<Instant>
      reads this
    {
      EntriesOf(log, key)
    }

    method Record(key: string, now: Instant)
      modifies this
      ensures log == old(log)[key := old(Entries(key)) + [now]]
    {
      log := log[key := Entries(key) + [now]];
    }

    method CountSince(key: string, since: Instant) returns (n: nat)
      modifies this
      ensures n == Count(old(Entries(key)), NotBefore(since))
      ensures log == old(log)[key := old(Entries(key))]
    {
      log := log[key := Entries(key)];
      var entries := log[key];
      n := 0;
      for i := 0 to |entries|
        invariant n == Count(entries[..i], NotBefore(since))
        invariant log == old(log)[key := old(Entries(key))]
      {
        assert entries[..i + 1][..i] == entries[..i];
        if entries[i] >= since {
          n := n + 1;
        }
      }
      assert entries[..|entries|] == entries;
    }
  }

  /** What the policy loader gives for an identity and a tenant. */
  type Policies = (string, string) -> Policy

  /** The history of grants of one decision point, for a fixed set of policies. */
  function GrantsOf(parseInt: string -> Option<int>, policies: Policies, calls: seq<Call>): seq<Granted> {
    if calls == [] then []
    else
      var c := calls[|calls| - 1];
      var before := GrantsOf(parseInt, policies, calls[..|calls| - 1]);
      var p := policies(c.req.identity, c.req.tenant);
      if VerdictOf(parseInt, p, LoggedUnder(before, LogKey(c.req)), c) == Grant
      then before + [Granted(c.req, RateOf(p, c.req), c.recordAt)] else before
  }

  lemma {:induction false} GrantsAppend(parseInt: string -> Option<int>, policies: Policies, calls: seq<Call>, c: Call)
    ensures var before, p := GrantsOf(parseInt, policies, calls), policies(c.req.identity, c.req.tenant);
      GrantsOf(parseInt, policies, calls + [c])
      == if VerdictOf(parseInt, p, LoggedUnder(before, LogKey(c.req)), c) == Grant
         then before + [Granted(c.req, RateOf(p, c.req), c.recordAt)] else before
  {
    assert (calls + [c])[..|calls|] == calls;
  }

  /** A denial, and a call that no rule matches, is logged as sop_deny; a call queued by a
      rule is logged as sop_grant. */
  function OutcomeEvent(p: Policy, c: Call, v: Verdict): EventType {
    if v == Deny || FirstMatch(p.rules, c.req.sopId, c.req.action).None? then SopDeny else SopGrant
  }

  /** One decision point. Event and approval ids are drawn from a counter that stands for
      the generator of unique ids. */
  class PolicyDecisionPoint {
    const executions: ExecutionLog
    const parseInt: string -> Option<int>
    const policies: Policies
    var audit: seq<Event>
    var nextId: nat
    ghost var calls: seq<Call>   // every call of this instance

    /** The grants of its calls. */
    ghost function Grants(): seq<Granted>
      reads this
    {
      GrantsOf(parseInt, policies, calls)
    }

    /** The execution log is exactly the history of grants. */
    ghost predicate Valid()
      reads this, executions
    {
      forall k :: executions.Entries(k) == LoggedUnder(Grants(), k)
    }

    constructor (parseInt: string -> Option<int>, policies: Policies)
      ensures Valid() && audit == [] && nextId == 0 && calls == [] && fresh(executions)
      ensures this.parseInt == parseInt && this.policies == policies
    {
      this.parseInt, this.policies, audit, nextId, calls := parseInt, policies, [], 0, [];
      executions := new ExecutionLog();
    }

    method LogEvent(kind: EventType) returns (id: nat)
      modifies this`audit, this`nextId
      ensures id == old(nextId) && nextId == old(nextId) + 1
      ensures audit == old(audit) + [Event(id, kind)]
    {
      id := nextId;
      nextId := nextId + 1;
      audit := audit + [Event(id, kind)];
    }

    method CheckRateLimit(key: string, spec: string, now: Instant) returns (ok: bool)
      modifies executions
      ensures ok == RateAllows(spec, old(executions.Entries(key)), now)
      ensures forall k :: executions.Entries(k) == old(executions.Entries(k))
    {
      var parsed := ParsePdp(spec);
      if parsed.None? {
        return true;
      }
      var n := executions.CountSince(key, now - parsed.value.seconds * SECOND);
      ok := n < parsed.value.count;
    }

    /** The three condition checks of a matched rule, in order; the rate is not looked at
        outside the window. */
    method CheckConditions(r: Rule, c: Call) returns (ok: bool)
      modifies executions
      ensures ok == Passes(parseInt, r, old(executions.Entries(LogKey(c.req))), c)
      ensures forall k :: executions.Entries(k) == old(executions.Entries(k))
    {
      if r.timeWindow != "" && !TimeAllows(parseInt, r.timeWindow, c.windowAt) {
        return false;
      }
      if r.rateLimit != "" {
        var within := CheckRateLimit(LogKey(c.req), r.rateLimit, c.checkAt);
        if !within {
          return false;
        }
      }
      if r.maxSpend.Some? && c.estimatedCost > r.maxSpend.value {
        return false;
      }
      ok := true;
    }

    /** Evaluates one call against a policy: the verdict is the one defined above; exactly
        one sop_check event and then one grant or deny event are logged, the second being the
        audit reference; an approval id is given exactly to a queued call; and only a grant
        adds to the execution log. */
    method Decide(p: Policy, c: Call) returns (d: Decision)
      modifies this`audit, this`nextId, executions
      ensures d.verdict == VerdictOf(parseInt, p, old(executions.Entries(LogKey(c.req))), c)
      ensures audit == old(audit) + [Event(old(nextId), SopCheck)] + [Event(d.auditRef, OutcomeEvent(p, c, d.verdict))]
      ensures d.auditRef > old(nextId) && nextId == d.auditRef + 1
      ensures d.approvalId.Some? <==> d.verdict == QueueForApproval
      ensures d.approvalId.Some? ==> old(nextId) < d.approvalId.value < d.auditRef
      ensures forall k :: executions.Entries(k)
                          == Extended(old(executions.Entries(k)), d.verdict == Grant && k == LogKey(c.req), c.recordAt)
    {
      var first := LogEvent(SopCheck);
      var found := FirstMatch(p.rules, c.req.sopId, c.req.action);
      var approval: Option<nat> := None;
      if found.None? {
        if p.defaultAction == "queue_for_approval" {
          approval, nextId := Some(nextId), nextId + 1;
        }
        var ref := LogEvent(SopDeny);
        return Decision(if approval.Some? then QueueForApproval else Deny, ref, approval);
      }
      var ok := CheckConditions(found.value, c);
      if !ok {
        var ref := LogEvent(SopDeny);
        return Decision(Deny, ref, None);
      }
      if found.value.requiresApproval {
        approval, nextId := Some(nextId), nextId + 1;
      }
      var ref := LogEvent(SopGrant);
      if approval.Some? {
        return Decision(QueueForApproval, ref, approval);
      }
      label BeforeRecord:
      executions.Record(LogKey(c.req), c.recordAt);
      forall k ensures executions.Entries(k) == Extended(old(executions.Entries(k)), k == LogKey(c.req), c.recordAt) {
        assert old@BeforeRecord(executions.Entries(k)) == old(executions.Entries(k));
      }
      d := Decision(Grant, ref, None);
    }

    /** Evaluates one call against the policy the loader has for it. Whatever the calls so far,
        the execution log stays the log of their grants. */
    method Evaluate(c: Call) returns (d: Decision)
      requires Valid()
      modifies this, executions
      ensures Valid() && calls == old(calls) + [c]
      ensures d.verdict == VerdictOf(parseInt, policies(c.req.identity, c.req.tenant),
                                     LoggedUnder(old(Grants()), LogKey(c.req)), c)
      ensures Grants() == if d.verdict == Grant
        then old(Grants()) + [Granted(c.req, RateOf(policies(c.req.identity, c.req.tenant), c.req), c.recordAt)] else old(Grants())
      ensures audit == old(audit) + [Event(old(nextId), SopCheck)]
                       + [Event(d.auditRef, OutcomeEvent(policies(c.req.identity, c.req.tenant), c, d.verdict))]
    {
      d := Decide(policies(c.req.identity, c.req.tenant), c);
      GrantsAppend(parseInt, policies, calls, c);
      calls := calls + [c];
      forall k ensures executions.Entries(k) == LoggedUnder(Grants(), k) {
        LoggedAppend(old(Grants()), Granted(c.req, RateOf(policies(c.req.identity, c.req.tenant), c.req), c.recordAt), k);
        assert old(executions.Entries(k)) == LoggedUnder(old(Grants()), k);
      }
    }
  }

  /** A call is granted exactly when the first matching rule passes every test and asks for
      no approval. */
  lemma {:induction false} GrantedExactlyWhen(parseInt: string -> Option<int>, p: Policy, entries: seq<Instant>, c: Call)
    ensures VerdictOf(parseInt, p, entries, c) == Grant <==>
      exists i :: 0 <= i < |p.rules| && Matches(p.rules[i], c.req.sopId, c.req.action)
        && (forall j :: 0 <= j < i ==> !Matches(p.rules[j], c.req.sopId, c.req.action))
        && Passes(parseInt, p.rules[i], entries, c) && !p.rules[i].requiresApproval
  {
    FirstMatchIsFirst(p.rules, c.req.sopId, c.req.action);
  }

  // ----- the verdict spelt out

  /** A window of the day as written in a rule, by its four numbers in digits. */
  datatype DayWindow = DayWindow(h1: string, m1: string, h2: string, m2: string)

  /** The rule sets this window of the day, or none that can be read. */
  predicate SetsWindow(parseInt: string -> Option<int>, r: Rule, w: Option<DayWindow>) {
    match w
    case None =>
      var parts := Split(r.timeWindow, '-');
      r.timeWindow == "" || |parts| != 2 || ParseClock(parseInt, parts[0]).None? || ParseClock(parseInt, parts[1]).None?
    case Some(d) =>
      && IsTimeOfDay(d.h1, d.m1) && IsTimeOfDay(d.h2, d.m2)
      && r.timeWindow == d.h1 + ":" + d.m1 + "-" + (d.h2 + ":" + d.m2)
  }

  /** The rule sets this limit, in digits and by the name of its period, or none that can be read. */
  predicate SetsRate(r: Rule, rate: Option<(string, string)>) {
    match rate
    case None => r.rateLimit == "" || ParsePdp(r.rateLimit).None?
    case Some(l) => l.0 != "" && AllDigits(l.0) && l.1 in {"minute", "hour", "day"} && r.rateLimit == l.0 + "/" + l.1
  }

  /** The microseconds of a period. */
  function PeriodOf(name: string): int {
    if name == "minute" then 60_000_000 else if name == "hour" then 3_600_000_000 else 86_400_000_000
  }

  /** Going round the clock from the start of the window, the minute of `now` comes after its end. */
  predicate OutsideWindow(w: DayWindow, now: Instant)
    requires IsTimeOfDay(w.h1, w.m1) && IsTimeOfDay(w.h2, w.m2)
  {
    var start, end := 60 * Decimal(w.h1) + Decimal(w.m1), 60 * Decimal(w.h2) + Decimal(w.m2);
    (now / 60_000_000 % 1440 - start) % 1440 > (end - start) % 1440
  }

  lemma {:induction false} MinuteOfDayIs(now: Instant)
    ensures MinuteOfDay(now) == now / 60_000_000 % 1440
  {
    var m := now / 60_000_000;
    var d := m / 1440;
    assert now == 60_000_000 * m + now % 60_000_000 && m == 1440 * d + m % 1440;
    assert now == DAY * d + (60_000_000 * (m % 1440) + now % 60_000_000);
    assert now % DAY == 60_000_000 * (m % 1440) + now % 60_000_000;
  }

  lemma {:induction false} WindowSpelt(parseInt: string -> Option<int>, r: Rule, w: Option<DayWindow>, now: Instant)
    requires ReadsDigits(parseInt) && SetsWindow(parseInt, r, w)
    ensures (r.timeWindow != "" ==> TimeAllows(parseInt, r.timeWindow, now)) <==> (w.Some? ==> !OutsideWindow(w.value, now))
  {
    if w.Some? {
      WrittenWindowIsCyclic(parseInt, w.value.h1, w.value.m1, w.value.h2, w.value.m2, now);
      MinuteOfDayIs(now);
    }
  }

  lemma {:induction false} RateSpelt(r: Rule, rate: Option<(string, string)>, entries: seq<Instant>, now: Instant)
    requires SetsRate(r, rate)
    ensures (r.rateLimit != "" ==> RateAllows(r.rateLimit, entries, now))
            <==> (rate.Some? ==> Count(entries, NotBefore(now - PeriodOf(rate.value.1))) < Decimal(rate.value.0))
  {
    if rate.Some? {
      PeriodsInSeconds(rate.value.0);
      ParsersDifferOnSecondsOnly(r.rateLimit);
    }
  }

  /** The first rule of the policy that matches the call. */
  ghost predicate IsFirstMatch(p: Policy, c: Call, i: nat) {
    && i < |p.rules| && p.rules[i].sopId == c.req.sopId && c.req.action in p.rules[i].allowedActions
    && forall j :: 0 <= j < i ==> !(p.rules[j].sopId == c.req.sopId && c.req.action in p.rules[j].allowedActions)
  }

  /** What stops a call under its rule: it comes outside the window, its rate is used up, or it
      costs too much. */
  predicate Stopped(parseInt: string -> Option<int>, r: Rule, w: Option<DayWindow>, rate: Option<(string, string)>, entries: seq<Instant>, c: Call)
    requires SetsWindow(parseInt, r, w) && SetsRate(r, rate)
  {
    || (w.Some? && OutsideWindow(w.value, c.windowAt))
    || (rate.Some? && Count(entries, NotBefore(c.checkAt - PeriodOf(rate.value.1))) >= Decimal(rate.value.0))
    || (r.maxSpend.Some? && c.estimatedCost > r.maxSpend.value)
  }

  /** The verdict in full. With a matching rule the first one decides: the call is denied if it
      comes outside the window, has used up the rate or costs too much, and otherwise queued if
      the rule asks for approval and granted if not. What cannot be read stops nothing. */
  lemma {:induction false} VerdictInFull(parseInt: string -> Option<int>, p: Policy, entries: seq<Instant>, c: Call, i: nat,
                                         w: Option<DayWindow>, rate: Option<(string, string)>)
    requires ReadsDigits(parseInt) && IsFirstMatch(p, c, i) && SetsWindow(parseInt, p.rules[i], w) && SetsRate(p.rules[i], rate)
    ensures var v := VerdictOf(parseInt, p, entries, c);
      && v == (if Stopped(parseInt, p.rules[i], w, rate, entries, c) then Deny
               else if p.rules[i].requiresApproval then QueueForApproval else Grant)
      && OutcomeEvent(p, c, v) == if v == Deny then SopDeny else SopGrant
  {
    FirstMatchIs(p, c, i);
    WindowSpelt(parseInt, p.rules[i], w, c.windowAt);
    RateSpelt(p.rules[i], rate, entries, c.checkAt);
  }

  lemma {:induction false} FirstMatchIs(p: Policy, c: Call, i: nat)
    requires IsFirstMatch(p, c, i)
    ensures FirstMatch(p.rules, c.req.sopId, c.req.action) == Some(p.rules[i])
  {
    FirstMatchIsFirst(p.rules, c.req.sopId, c.req.action);
    assert Matches(p.rules[i], c.req.sopId, c.req.action);
    var found := FirstMatch(p.rules, c.req.sopId, c.req.action);
    if found.Some? {
      var k :| 0 <= k < |p.rules| && p.rules[k] == found.value && Matches(found.value, c.req.sopId, c.req.action)
            && forall j :: 0 <= j < k ==> !Matches(p.rules[j], c.req.sopId, c.req.action);
      assert k == i;
    }
  }

  /** With no matching rule the call is queued if the policy's default says so, and otherwise
      denied; either way the event is a denial. */
  lemma {:induction false} VerdictWithoutRule(parseInt: string -> Option<int>, p: Policy, entries: seq<Instant>, c: Call)
    requires forall i :: 0 <= i < |p.rules| ==> !(p.rules[i].sopId == c.req.sopId && c.req.action in p.rules[i].allowedActions)
    ensures VerdictOf(parseInt, p, entries, c) == if p.defaultAction == "queue_for_approval" then QueueForApproval else Deny
    ensures OutcomeEvent(p, c, VerdictOf(parseInt, p, entries, c)) == SopDeny
  {
    FirstMatchIsFirst(p.rules, c.req.sopId, c.req.action);
    assert forall i :: 0 <= i < |p.rules| ==> !Matches(p.rules[i], c.req.sopId, c.req.action);
  }

  // ----- the joined keys of the execution log

  /** A joined key splits back into the pieces of its three parts; so two requests share one
      exactly when these agree, which without colons in the parts means the same parts. */
  lemma {:induction false} JoinedKeysCollideExactlyWhen(r: Request, q: Request)
    ensures LogKey(r) == LogKey(q) <==>
      Split(r.identity, ':') + Split(r.sopId, ':') + Split(r.action, ':')
      == Split(q.identity, ':') + Split(q.sopId, ':') + Split(q.action, ':')
  {
    KeySplits(r);
    KeySplits(q);
    JoinOfSplit(LogKey(r), ':');
    JoinOfSplit(LogKey(q), ':');
  }

  lemma {:induction false} KeySplits(r: Request)
    ensures Split(LogKey(r), ':') == Split(r.identity, ':') + Split(r.sopId, ':') + Split(r.action, ':')
  {
    var rest := r.sopId + ":" + r.action;
    assert LogKey(r) == r.identity + ":" + rest;
    SplitBetween(r.identity, rest, ':');
    SplitBetween(r.sopId, r.action, ':');
  }

  // ----- the rate over every sequence of calls

  /** The grants made under one joined key and one rate, in a closed span as long as the
      window of that rate. */
  function GrantsIn(key: string, rate: Rate, a: Instant): Granted -> bool {
    (g: Granted) => LogKey(g.req) == key && g.rate == Some(rate) && a <= g.at <= a + rate.seconds * SECOND
  }

  function GrantsSince(key: string, since: Instant): Granted -> bool {
    (g: Granted) => LogKey(g.req) == key && g.at >= since
  }

  lemma {:induction false} LoggedCount(history: seq<Granted>, key: string, since: Instant)
    ensures Count(LoggedUnder(history, key), NotBefore(since)) == Count(history, GrantsSince(key, since))
  {
    if history != [] {
      var last, before := history[|history| - 1], history[..|history| - 1];
      LoggedCount(before, key, since);
      if LogKey(last.req) == key {
        CountAppend(LoggedUnder(before, key), last.at, NotBefore(since));
      }
    }
  }

  /** A grant under a rate was checked against every earlier grant of its key in a span that
      it completes. */
  lemma {:induction false} GrantSawTheSpan(parseInt: string -> Option<int>, p: Policy, history: seq<Granted>, c: Call, rate: Rate, a: Instant)
    requires VerdictOf(parseInt, p, LoggedUnder(history, LogKey(c.req)), c) == Grant && RateOf(p, c.req) == Some(rate)
    requires c.checkAt <= a + rate.seconds * SECOND
    ensures Count(history, GrantsIn(LogKey(c.req), rate, a)) < rate.count
  {
    var key, since := LogKey(c.req), c.checkAt - rate.seconds * SECOND;
    LoggedCount(history, key, since);
    CountMonotone(history, GrantsIn(key, rate, a), GrantsSince(key, since));
  }

  /** Over every sequence of calls on one decision point, no closed span as long as a rate's
      window holds more grants under that rate than it allows, counted per joined key: so
      also per identity, procedure and action, and also where joined keys collide. All that
      is asked of the clock is that a call records no earlier than it checked. */
  lemma {:induction false} RateHoldsInEverySpan(parseInt: string -> Option<int>, policies: Policies, calls: seq<Call>,
                                               key: string, rate: Rate, a: Instant)
    requires forall i :: 0 <= i < |calls| ==> calls[i].checkAt <= calls[i].recordAt
    ensures Count(GrantsOf(parseInt, policies, calls), GrantsIn(key, rate, a)) <= rate.count
  {
    if calls != [] {
      var c, prior := calls[|calls| - 1], calls[..|calls| - 1];
      RateHoldsInEverySpan(parseInt, policies, prior, key, rate, a);
      var before, p := GrantsOf(parseInt, policies, prior), policies(c.req.identity, c.req.tenant);
      var g := Granted(c.req, RateOf(p, c.req), c.recordAt);
      CountAppend(before, g, GrantsIn(key, rate, a));
      if GrantsIn(key, rate, a)(g) && VerdictOf(parseInt, p, LoggedUnder(before, key), c) == Grant {
        GrantSawTheSpan(parseInt, p, before, c, rate, a);
      }
    }
  }

  function ForRequest(req: Request, rate: Rate, a: Instant): Granted -> bool {
    (g: Granted) => g.req == req && a <= g.at <= a + rate.seconds * SECOND
  }

  lemma {:induction false} GrantsCarryTheirRate(parseInt: string -> Option<int>, policies: Policies, calls: seq<Call>)
    ensures forall g :: g in GrantsOf(parseInt, policies, calls) ==> g.rate == RateOf(policies(g.req.identity, g.req.tenant), g.req)
  {
    if calls != [] {
      GrantsCarryTheirRate(parseInt, policies, calls[..|calls| - 1]);
    }
  }

  /** In the terms of a rule: the grants of one request in such a span are at most `max_count`. */
  lemma {:induction false} RequestStaysWithinItsRate(parseInt: string -> Option<int>, policies: Policies, calls: seq<Call>, req: Request, a: Instant)
    requires forall i :: 0 <= i < |calls| ==> calls[i].checkAt <= calls[i].recordAt
    requires RateOf(policies(req.identity, req.tenant), req).Some?
    ensures var rate := RateOf(policies(req.identity, req.tenant), req).value;
      Count(GrantsOf(parseInt, policies, calls), ForRequest(req, rate, a)) <= rate.count
  {
    var rate := RateOf(policies(req.identity, req.tenant), req).value;
    RateHoldsInEverySpan(parseInt, policies, calls, LogKey(req), rate, a);
    GrantsCarryTheirRate(parseInt, policies, calls);
    CountMonotone(GrantsOf(parseInt, policies, calls), ForRequest(req, rate, a), GrantsIn(LogKey(req), rate, a));
  }

  /** The grants of one identity, procedure and action under one rate, in whatever tenant. */
  function ForAction(req: Request, rate: Rate, a: Instant): Granted -> bool {
    (g: Granted) =>
      && g.req.identity == req.identity && g.req.sopId == req.sopId && g.req.action == req.action
      && g.rate == Some(rate) && a <= g.at <= a + rate.seconds * SECOND
  }

  /** The joined key leaves the tenant out: one identity that does the same under the same rate
      in several tenants has one budget for all of them together. */
  lemma {:induction false} TenantsShareTheRate(parseInt: string -> Option<int>, policies: Policies, calls: seq<Call>,
                                               req: Request, rate: Rate, a: Instant)
    requires forall i :: 0 <= i < |calls| ==> calls[i].checkAt <= calls[i].recordAt
    ensures Count(GrantsOf(parseInt, policies, calls), ForAction(req, rate, a)) <= rate.count
  {
    RateHoldsInEverySpan(parseInt, policies, calls, LogKey(req), rate, a);
    CountMonotone(GrantsOf(parseInt, policies, calls), ForAction(req, rate, a), GrantsIn(LogKey(req), rate, a));
  }

  /** Nothing but its rate limit stands in the way of the call. */
  predicate OnlyRateDecides(parseInt: string -> Option<int>, p: Policy, c: Call) {
    var found := FirstMatch(p.rules, c.req.sopId, c.req.action);
    && found.Some? && found.value.rateLimit != ""
    && (found.value.timeWindow != "" ==> TimeAllows(parseInt, found.value.timeWindow, c.windowAt))
    && SpendAllows(found.value, c.estimatedCost) && !found.value.requiresApproval
  }

  function ByTenant(key: string, since: Instant, tenant: string): Granted -> bool {
    (g: Granted) => LogKey(g.req) == key && g.at >= since && g.req.tenant == tenant
  }

  function ByOthers(key: string, since: Instant, tenant: string): Granted -> bool {
    (g: Granted) => LogKey(g.req) == key && g.at >= since && g.req.tenant != tenant
  }

  lemma RateDecides(parseInt: string -> Option<int>, p: Policy, entries: seq<Instant>, c: Call, rate: Rate)
    requires OnlyRateDecides(parseInt, p, c) && RateOf(p, c.req) == Some(rate)
    ensures var used := Count(entries, NotBefore(c.checkAt - rate.seconds * SECOND));
      VerdictOf(parseInt, p, entries, c) == if used < rate.count then Grant else Deny
  {
  }

  /** What is logged under a key since some time, by tenant. */
  lemma {:induction false} LoggedByTenant(history: seq<Granted>, key: string, since: Instant, tenant: string)
    ensures Count(LoggedUnder(history, key), NotBefore(since))
            == Count(history, ByTenant(key, since, tenant)) + Count(history, ByOthers(key, since, tenant))
  {
    LoggedCount(history, key, since);
    CountSplit(history, GrantsSince(key, since), ByTenant(key, since, tenant), ByOthers(key, since, tenant));
  }

  /** After any history of grants, such a call is denied exactly when those under its joined key,
      in its own tenant and in all others together, have used up the rate. */
  lemma {:induction false} DeniedExactlyWhenUsedUp(parseInt: string -> Option<int>, p: Policy, history: seq<Granted>, c: Call, rate: Rate)
    requires OnlyRateDecides(parseInt, p, c) && RateOf(p, c.req) == Some(rate)
    ensures var key, since := LogKey(c.req), c.checkAt - rate.seconds * SECOND;
            var own, others := ByTenant(key, since, c.req.tenant), ByOthers(key, since, c.req.tenant);
      VerdictOf(parseInt, p, LoggedUnder(history, key), c) == Deny <==> Count(history, own) + Count(history, others) >= rate.count
  {
    LoggedByTenant(history, LogKey(c.req), c.checkAt - rate.seconds * SECOND, c.req.tenant);
    RateDecides(parseInt, p, LoggedUnder(history, LogKey(c.req)), c, rate);
  }

  lemma {:induction false} FirstIsGranted(parseInt: string -> Option<int>, policies: Policies, c: Call, rate: Rate)
    requires OnlyRateDecides(parseInt, policies(c.req.identity, c.req.tenant), c) && rate.count >= 1
    requires RateOf(policies(c.req.identity, c.req.tenant), c.req) == Some(rate)
    ensures GrantsOf(parseInt, policies, [c]) == [Granted(c.req, Some(rate), c.recordAt)]
  {
    RateDecides(parseInt, policies(c.req.identity, c.req.tenant), [], c, rate);
    GrantsAppend(parseInt, policies, [], c);
    assert [] + [c] == [c];
  }

  lemma {:induction false} SecondIsDenied(parseInt: string -> Option<int>, p: Policy, grant: Granted, d: Call, rate: Rate)
    requires OnlyRateDecides(parseInt, p, d) && RateOf(p, d.req) == Some(rate) && rate.count == 1
    requires LogKey(grant.req) == LogKey(d.req) && d.checkAt - rate.seconds * SECOND <= grant.at
    ensures VerdictOf(parseInt, p, LoggedUnder([grant], LogKey(d.req)), d) == Deny
  {
    LoggedAppend([], grant, LogKey(d.req));
    assert [] + [grant] == [grant] && [] + [grant.at] == [grant.at];
    CountAppend([], grant.at, NotBefore(d.checkAt - rate.seconds * SECOND));
    RateDecides(parseInt, p, [grant.at], d, rate);
  }

  /** So one tenant uses up the budget of another: where both have a limit of one, and nothing else
      stands in the way, a grant in the first has the same request denied in the second for as
      long as the window lasts, though the second has had no grant at all. */
  lemma {:induction false} AnotherTenantUsesUpTheRate(parseInt: string -> Option<int>, policies: Policies, p: Policy,
                                                      c: Call, d: Call, rate: Rate)
    requires d.req == c.req.(tenant := d.req.tenant) && d.req.tenant != c.req.tenant
    requires policies(c.req.identity, c.req.tenant) == policies(c.req.identity, d.req.tenant) == p
    requires OnlyRateDecides(parseInt, p, c) && OnlyRateDecides(parseInt, p, d)
    requires RateOf(p, c.req) == RateOf(p, d.req) == Some(rate) && rate.count == 1
    requires d.checkAt - rate.seconds * SECOND <= c.recordAt
    ensures GrantsOf(parseInt, policies, [c]) == [Granted(c.req, Some(rate), c.recordAt)]
    ensures GrantsOf(parseInt, policies, [c, d]) == GrantsOf(parseInt, policies, [c])
  {
    FirstIsGranted(parseInt, policies, c, rate);
    SecondIsDenied(parseInt, p, Granted(c.req, Some(rate), c.recordAt), d, rate);
    GrantsAppend(parseInt, policies, [c], d);
    assert [c] + [d] == [c, d];
  }

  /** Such a policy: one rule, once a day. */
  function OnceADay(sopId: string, action: string): Policy {
    Policy([Rule(sopId, [action], false, "1/day", "", None)], "deny")
  }

  lemma {:induction false} OnceADayIsRead()
    ensures ParsePdp("1/day") == Some(Rate(1, 86400))
  {
    assert Digits(1) == "1" && "1" + "/" + "day" == "1/day";
    ParseOfFormat(1, "day");
    ParsersDifferOnSecondsOnly("1/day");
  }

  lemma {:induction false} OnceADayLimitsToOne(parseInt: string -> Option<int>, c: Call)
    ensures var p := OnceADay(c.req.sopId, c.req.action);
      OnlyRateDecides(parseInt, p, c) && RateOf(p, c.req) == Some(Rate(1, 86400))
  {
    var p := OnceADay(c.req.sopId, c.req.action);
    assert FirstMatch(p.rules, c.req.sopId, c.req.action) == Some(p.rules[0]);
    OnceADayIsRead();
  }
}
