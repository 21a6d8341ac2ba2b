/** The single-pane analytics of src/tiresias/analytics/unified.py: totals read from the
    logs beside figures read from buckets, each query with its own `since`. */
module UnifiedAnalytics {
  import opened Aggregates
  import opened Counting
  import opened Datetimes
  import opened EndpointBuckets
  import opened Retention
  import opened Wrappers

  datatype ModelKey = ModelKey(model: string, provider: string)
  datatype ErrorKey = ErrorKey(httpMethod: string, pattern: string, status: int)

  datatype Unified = Unified(
    llmRequests: nat,
    llmTokens: int,
    llmCost: int,
    byModel: Groups<ModelKey>,
    apiRequests: nat,
    apiErrors: nat,
    apiCost: int,
    endpoints: Groups<Endpoint>,
    errorBreakdown: Groups<ErrorKey>,
    totalRequests: nat,
    totalCost: int)

  /** The audit rows the LLM queries see: recent and not soft-deleted. */
  function LiveSince(tenant: string, since: Instant): AuditRow -> bool {
    (r: AuditRow) => r.tenant == tenant && r.createdAt >= since && r.deletedAt.None?
  }

  function ApiSince(tenant: string, since: Instant): ApiRow -> bool {
    (r: ApiRow) => r.tenant == tenant && r.createdAt >= since
  }

  function ApiErrorSince(tenant: string, since: Instant): ApiRow -> bool {
    (r: ApiRow) => r.tenant == tenant && r.createdAt >= since && IsErrorStatus(r.status)
  }

  /** The sum of `f` over the rows that satisfy `p`, like a filtered aggregate query. */
  function SumWhere<R>(rows: seq<R>, p: R -> bool, f: R -> int): int {
    if rows == [] then 0
    else SumWhere(rows[..|rows| - 1], p, f) + if p(rows[|rows| - 1]) then f(rows[|rows| - 1]) else 0
  }

  function ModelOf(tenant: string, since: Instant): AuditRow -> Option<ModelKey> {
    (r: AuditRow) => if LiveSince(tenant, since)(r) then Some(ModelKey(r.model, r.provider)) else None
  }

  function ErrorOf(tenant: string, since: Instant): ApiRow -> Option<ErrorKey> {
    (r: ApiRow) =>
      if ApiErrorSince(tenant, since)(r) then Some(ErrorKey(r.httpMethod, r.pattern, r.status)) else None
  }

  function OneTurn(): AuditRow -> Totals {
    (r: AuditRow) => Totals(1, 0, 0.0, 0.0, 0.0, r.cost)
  }

  function AuditCost(): AuditRow -> int {
    (r: AuditRow) => r.cost
  }

  function AuditTokens(): AuditRow -> int {
    (r: AuditRow) => r.tokens
  }

  function ApiCost(): ApiRow -> int {
    (r: ApiRow) => r.cost
  }

  /** What the queries find, in the order in which they run; each is awaited, and meanwhile
      more turns and calls may be recorded. */
  datatype Seen = Seen(
    llm: seq<AuditRow>,          // by the LLM totals
    models: seq<AuditRow>,       // by the model breakdown
    calls: seq<ApiRow>,          // by the API totals
    errors: seq<ApiRow>,         // by the API error count
    buckets: seq<Bucket>,        // by the endpoint metrics
    breakdown: seq<ApiRow>)      // by the error breakdown

  /** The payload. `since0` is the cutoff of the function's own queries, `since1` that of
      the endpoint metrics and `since2` that of the error breakdown: each reads the clock
      for itself. */
  function GetUnifiedAnalytics(seen: Seen, tenant: string, since0: Instant, since1: Instant, since2: Instant): Unified {
    var llmRequests := Count(seen.llm, LiveSince(tenant, since0));
    var llmCost := SumWhere(seen.llm, LiveSince(tenant, since0), AuditCost());
    var apiRequests := Count(seen.calls, ApiSince(tenant, since0));
    var apiCost := SumWhere(seen.calls, ApiSince(tenant, since0), ApiCost());
    Unified(
      llmRequests,
      SumWhere(seen.llm, LiveSince(tenant, since0), AuditTokens()),
      llmCost,
      GroupBy(seen.models, ModelOf(tenant, since0), OneTurn()),
      apiRequests,
      Count(seen.errors, ApiErrorSince(tenant, since0)),
      apiCost,
      EndpointGroups(seen.buckets, tenant, since1, None),
      GroupBy(seen.breakdown, ErrorOf(tenant, since2), SingleOf()),
      llmRequests + apiRequests,
      llmCost + apiCost)
  }

  /** Of empty tables everything is zero. */
  lemma NothingSeen(tenant: string, since0: Instant, since1: Instant, since2: Instant)
    ensures GetUnifiedAnalytics(Seen([], [], [], [], [], []), tenant, since0, since1, since2)
            == Unified(0, 0, 0, map[], 0, 0, 0, map[], map[], 0, 0)
  {
  }

  /** One more turn adds itself once to the LLM figures, the breakdown by its model and the totals,
      if it is the tenant's, recent and not deleted; otherwise it changes nothing. */
  lemma {:induction false} EachTurnCountsOnce(seen: Seen, r: AuditRow, tenant: string, since0: Instant, since1: Instant, since2: Instant)
    ensures var u := GetUnifiedAnalytics(seen, tenant, since0, since1, since2);
            var more := seen.(llm := seen.llm + [r], models := seen.models + [r]);
      GetUnifiedAnalytics(more, tenant, since0, since1, since2)
      == if r.tenant != tenant || r.createdAt < since0 || r.deletedAt.Some? then u
         else u.(llmRequests := u.llmRequests + 1, llmTokens := u.llmTokens + r.tokens, llmCost := u.llmCost + r.cost,
                 byModel := AddTo(u.byModel, Some(ModelKey(r.model, r.provider)), Totals(1, 0, 0.0, 0.0, 0.0, r.cost)),
                 totalRequests := u.totalRequests + 1, totalCost := u.totalCost + r.cost)
  {
    CountAppend(seen.llm, r, LiveSince(tenant, since0));
    SumWhereAppend(seen.llm, r, LiveSince(tenant, since0), AuditCost());
    SumWhereAppend(seen.llm, r, LiveSince(tenant, since0), AuditTokens());
    GroupByAppend(seen.models, r, ModelOf(tenant, since0), OneTurn());
  }

  /** The endpoint figures with one more call of the tenant: its endpoint gains it if its hour is
      recent. */
  function EndpointsAfter(groups: Groups<Endpoint>, r: ApiRow, since: Instant): Groups<Endpoint> {
    if r.createdAt < CeilHour(since) then groups
    else AddTo(groups, Some(Endpoint(r.httpMethod, r.pattern, r.service)),
               Totals(1, if r.status >= 400 then 1 else 0, r.latency, r.latency, r.latency, r.cost))
  }

  /** The error breakdown with one more call of the tenant, if it is recent and failed. */
  function BreakdownAfter(groups: Groups<ErrorKey>, r: ApiRow, since: Instant): Groups<ErrorKey> {
    if r.createdAt < since || r.status < 400 then groups
    else AddTo(groups, Some(ErrorKey(r.httpMethod, r.pattern, r.status)), Single(r))
  }

  /** One more call, if it is the tenant's, adds itself once to the API figures, the totals and its
      endpoint, each if it is recent, and to the error figures if its status is 400 or more. */
  lemma {:induction false} EachCallCountsOnce(seen: Seen, r: ApiRow, tenant: string, since0: Instant, since1: Instant, since2: Instant)
    ensures var u := GetUnifiedAnalytics(seen, tenant, since0, since1, since2);
            var u' := GetUnifiedAnalytics(seen.(calls := seen.calls + [r], errors := seen.errors + [r],
                                                buckets := Upserted(seen.buckets, r), breakdown := seen.breakdown + [r]),
                                          tenant, since0, since1, since2);
            var mine := r.tenant == tenant;
            var n, cost := if mine && r.createdAt >= since0 then 1 else 0, if mine && r.createdAt >= since0 then r.cost else 0;
      && u'.apiRequests == u.apiRequests + n && u'.totalRequests == u.totalRequests + n
      && u'.apiCost == u.apiCost + cost && u'.totalCost == u.totalCost + cost
      && u'.apiErrors == u.apiErrors + (if r.status >= 400 then n else 0)
      && u'.endpoints == (if mine then EndpointsAfter(u.endpoints, r, since1) else u.endpoints)
      && u'.errorBreakdown == (if mine then BreakdownAfter(u.errorBreakdown, r, since2) else u.errorBreakdown)
      && u'.llmRequests == u.llmRequests && u'.llmTokens == u.llmTokens && u'.llmCost == u.llmCost && u'.byModel == u.byModel
  {
    CallsWithCall(seen.calls, r, tenant, since0);
    ErrorsWithCall(seen.errors, r, tenant, since0);
    EndpointsWithCall(seen.buckets, r, tenant, since1);
    BreakdownWithCall(seen.breakdown, r, tenant, since2);
  }

  lemma {:induction false} CallsWithCall(log: seq<ApiRow>, r: ApiRow, tenant: string, since: Instant)
    ensures var p, counts := ApiSince(tenant, since), r.tenant == tenant && r.createdAt >= since;
      && Count(log + [r], p) == Count(log, p) + (if counts then 1 else 0)
      && SumWhere(log + [r], p, ApiCost()) == SumWhere(log, p, ApiCost()) + (if counts then r.cost else 0)
  {
    CountAppend(log, r, ApiSince(tenant, since));
    SumWhereAppend(log, r, ApiSince(tenant, since), ApiCost());
  }

  lemma {:induction false} ErrorsWithCall(log: seq<ApiRow>, r: ApiRow, tenant: string, since: Instant)
    ensures Count(log + [r], ApiErrorSince(tenant, since))
            == Count(log, ApiErrorSince(tenant, since))
               + (if r.tenant == tenant && r.createdAt >= since && r.status >= 400 then 1 else 0)
  {
    CountAppend(log, r, ApiErrorSince(tenant, since));
  }

  lemma {:induction false} EndpointsWithCall(bs: seq<Bucket>, r: ApiRow, tenant: string, since: Instant)
    ensures EndpointGroups(Upserted(bs, r), tenant, since, None)
            == if r.tenant == tenant then EndpointsAfter(EndpointGroups(bs, tenant, since, None), r, since)
               else EndpointGroups(bs, tenant, since, None)
  {
    UpsertAddsRow(bs, r, EndpointOf(tenant, since, None));
    HourFilter(r.createdAt, since);
    assert EndpointOf(tenant, since, None)(KeyOf(r))
           == if r.tenant != tenant || r.createdAt < CeilHour(since) then None
              else Some(Endpoint(r.httpMethod, r.pattern, r.service));
  }

  lemma {:induction false} BreakdownWithCall(log: seq<ApiRow>, r: ApiRow, tenant: string, since: Instant)
    ensures GroupBy(log + [r], ErrorOf(tenant, since), SingleOf())
            == if r.tenant == tenant then BreakdownAfter(GroupBy(log, ErrorOf(tenant, since), SingleOf()), r, since)
               else GroupBy(log, ErrorOf(tenant, since), SingleOf())
  {
    GroupByAppend(log, r, ErrorOf(tenant, since), SingleOf());
    assert SingleOf()(r) == Single(r);
    assert ApiErrorSince(tenant, since)(r) == (r.tenant == tenant && r.createdAt >= since && r.status >= 400);
    assert ErrorOf(tenant, since)(r)
           == if r.tenant != tenant || r.createdAt < since || r.status < 400 then None
              else Some(ErrorKey(r.httpMethod, r.pattern, r.status));
  }

  lemma {:induction false} SumWhereAppend<R>(rows: seq<R>, x: R, p: R -> bool, f: R -> int)
    ensures SumWhere(rows + [x], p, f) == SumWhere(rows, p, f) + if p(x) then f(x) else 0
  {
    assert (rows + [x])[..|rows|] == rows;
  }

  /** The rows recorded between two queries. */
  function Later<R>(before: seq<R>, after: seq<R>): seq<R>
    requires before <= after
  {
    after[|before|..]
  }

  lemma {:induction false} SumWhereConcat<R>(rows: seq<R>, more: seq<R>, p: R -> bool, f: R -> int)
    ensures SumWhere(rows + more, p, f) == SumWhere(rows, p, f) + SumWhere(more, p, f)
  {
    if more == [] {
      assert rows + more == rows;
    } else {
      assert (rows + more)[..|rows + more| - 1] == rows + more[..|more| - 1];
      SumWhereConcat(rows, more[..|more| - 1], p, f);
    }
  }

  lemma {:induction false} MoreRows<R>(before: seq<R>, after: seq<R>, p: R -> bool, f: R -> int)
    requires before <= after
    ensures Count(after, p) == Count(before, p) + Count(Later(before, after), p)
    ensures SumWhere(after, p, f) == SumWhere(before, p, f) + SumWhere(Later(before, after), p, f)
  {
    assert after == before + Later(before, after);
    CountConcat(before, Later(before, after), p);
    SumWhereConcat(before, Later(before, after), p, f);
  }

  lemma {:induction false} SelectedIsCount<R, K>(rows: seq<R>, proj: R -> Option<K>, val: R -> Totals, p: R -> bool)
    requires forall r :: proj(r).Some? <==> p(r)
    requires forall r :: val(r).count == 1
    ensures SumGroups(GroupBy(rows, proj, val), CountTotal()) == Count(rows, p)
  {
    GroupsAddUp(rows, proj, val, CountTotal());
    if rows != [] {
      SelectedIsCount(rows[..|rows| - 1], proj, val, p);
      GroupsAddUp(rows[..|rows| - 1], proj, val, CountTotal());
    }
  }

  lemma {:induction false} SelectedIsCost<R, K>(rows: seq<R>, proj: R -> Option<K>, val: R -> Totals, p: R -> bool, f: R -> int)
    requires forall r :: proj(r).Some? <==> p(r)
    requires forall r :: val(r).cost == f(r)
    ensures SumGroups(GroupBy(rows, proj, val), CostTotal()) == SumWhere(rows, p, f)
  {
    GroupsAddUp(rows, proj, val, CostTotal());
    if rows != [] {
      SelectedIsCost(rows[..|rows| - 1], proj, val, p, f);
      GroupsAddUp(rows[..|rows| - 1], proj, val, CostTotal());
    }
  }

  /** The per-model breakdown adds up to the LLM totals, in requests and in money, and to the
      turns recorded between the two queries. */
  lemma {:induction false} ByModelAddsUp(seen: Seen, tenant: string, since0: Instant, since1: Instant, since2: Instant)
    requires seen.llm <= seen.models
    ensures var u := GetUnifiedAnalytics(seen, tenant, since0, since1, since2);
            var more := Later(seen.llm, seen.models);
      && SumGroups(u.byModel, CountTotal()) == u.llmRequests + Count(more, LiveSince(tenant, since0))
      && SumGroups(u.byModel, CostTotal()) == u.llmCost + SumWhere(more, LiveSince(tenant, since0), AuditCost())
  {
    SelectedIsCount(seen.models, ModelOf(tenant, since0), OneTurn(), LiveSince(tenant, since0));
    SelectedIsCost(seen.models, ModelOf(tenant, since0), OneTurn(), LiveSince(tenant, since0), AuditCost());
    MoreRows(seen.llm, seen.models, LiveSince(tenant, since0), AuditCost());
  }

  function ApiBetween(tenant: string, from: Instant, to: Instant): ApiRow -> bool {
    (r: ApiRow) => r.tenant == tenant && from <= r.createdAt < to
  }

  function ApiErrorBetween(tenant: string, from: Instant, to: Instant): ApiRow -> bool {
    (r: ApiRow) => r.tenant == tenant && from <= r.createdAt < to && IsErrorStatus(r.status)
  }

  /** The error breakdown falls short of the error total by the errors between the two clock
      readings, and has in excess those recorded between the two queries; with one reading and
      nothing recorded in between it matches. */
  lemma {:induction false} ErrorBreakdownAddsUp(seen: Seen, tenant: string, since0: Instant, since1: Instant, since2: Instant)
    requires since0 <= since2 && seen.errors <= seen.breakdown
    ensures var u := GetUnifiedAnalytics(seen, tenant, since0, since1, since2);
      && SumGroups(u.errorBreakdown, CountTotal())
         == u.apiErrors - Count(seen.errors, ApiErrorBetween(tenant, since0, since2))
            + Count(Later(seen.errors, seen.breakdown), ApiErrorSince(tenant, since2))
      && (since0 == since2 && seen.errors == seen.breakdown ==> SumGroups(u.errorBreakdown, CountTotal()) == u.apiErrors)
  {
    SelectedIsCount(seen.breakdown, ErrorOf(tenant, since2), SingleOf(), ApiErrorSince(tenant, since2));
    MoreRows(seen.errors, seen.breakdown, ApiErrorSince(tenant, since2), ApiCost());
    CountSplit(seen.errors, ApiErrorSince(tenant, since0), ApiErrorSince(tenant, since2), ApiErrorBetween(tenant, since0, since2));
    if since0 == since2 {
      CountNone(seen.errors, ApiErrorBetween(tenant, since0, since2));
    }
  }

  lemma {:induction false} SumWhereSplit<R>(rows: seq<R>, p: R -> bool, q: R -> bool, r: R -> bool, f: R -> int)
    requires forall x :: x in rows ==> p(x) == (q(x) || r(x)) && !(q(x) && r(x))
    ensures SumWhere(rows, p, f) == SumWhere(rows, q, f) + SumWhere(rows, r, f)
  {
    if rows != [] {
      SumWhereSplit(rows[..|rows| - 1], p, q, r, f);
    }
  }

  /** What the totals of `before` have and the endpoint figures of `after` have not: the calls
      between the cutoff of the totals and the first full hour of the endpoint query. */
  function Missing(tenant: string, since0: Instant, since1: Instant): ApiRow -> bool {
    ApiBetween(tenant, since0, CeilHour(since1))
  }

  lemma {:induction false} FullHoursOf(log: seq<ApiRow>, tenant: string, since0: Instant, since1: Instant)
    requires since0 <= since1
    ensures var missing := Missing(tenant, since0, since1);
      && Count(log, ApiSince(tenant, CeilHour(since1))) == Count(log, ApiSince(tenant, since0)) - Count(log, missing)
      && SumWhere(log, ApiSince(tenant, CeilHour(since1)), ApiCost())
         == SumWhere(log, ApiSince(tenant, since0), ApiCost()) - SumWhere(log, missing, ApiCost())
  {
    var hour := CeilHour(since1);
    HourFilter(since1, since1);
    CountSplit(log, ApiSince(tenant, since0), ApiSince(tenant, hour), ApiBetween(tenant, since0, hour));
    SumWhereSplit(log, ApiSince(tenant, since0), ApiSince(tenant, hour), ApiBetween(tenant, since0, hour), ApiCost());
  }

  /** The endpoint figures fall short of the API totals by exactly the calls between the
      cutoff of the totals and the first full hour of the endpoint query, which with one shared
      `since` is the part of the hour that it cuts; and they have in excess the calls recorded
      between the two queries. */
  lemma {:induction false} EndpointShortfall(seen: Seen, later: seq<ApiRow>, tenant: string,
                                             since0: Instant, since1: Instant, since2: Instant)
    requires since0 <= since1 && seen.calls <= later && seen.buckets == BucketsOf(later)
    ensures var u := GetUnifiedAnalytics(seen, tenant, since0, since1, since2);
            var missing, more := Missing(tenant, since0, since1), Later(seen.calls, later);
            var full := ApiSince(tenant, CeilHour(since1));
      && SumGroups(u.endpoints, CountTotal()) == u.apiRequests - Count(seen.calls, missing) + Count(more, full)
      && SumGroups(u.endpoints, CostTotal())
         == u.apiCost - SumWhere(seen.calls, missing, ApiCost()) + SumWhere(more, full, ApiCost())
  {
    var hour := CeilHour(since1);
    EndpointQueryReadsFullHours(later, tenant, since1, None);
    SelectedIsCount(later, LogEndpointOf(tenant, hour, None), SingleOf(), ApiSince(tenant, hour));
    SelectedIsCost(later, LogEndpointOf(tenant, hour, None), SingleOf(), ApiSince(tenant, hour), ApiCost());
    MoreRows(seen.calls, later, ApiSince(tenant, hour), ApiCost());
    FullHoursOf(seen.calls, tenant, since0, since1);
  }

  /** The same for the list of endpoints as it is returned. */
  lemma {:induction false} EndpointListShortfall(seen: Seen, later: seq<ApiRow>, tenant: string,
                                                 since0: Instant, since1: Instant, since2: Instant, out: seq<EndpointMetrics>)
    requires since0 <= since1 && seen.calls <= later && seen.buckets == BucketsOf(later)
    requires Reports(out, GetUnifiedAnalytics(seen, tenant, since0, since1, since2).endpoints)
    ensures var u := GetUnifiedAnalytics(seen, tenant, since0, since1, since2);
            var missing, more := Missing(tenant, since0, since1), Later(seen.calls, later);
            var full := ApiSince(tenant, CeilHour(since1));
      && SumRequests(out) == u.apiRequests - Count(seen.calls, missing) + Count(more, full)
      && SumCosts(out) == u.apiCost - SumWhere(seen.calls, missing, ApiCost()) + SumWhere(more, full, ApiCost())
  {
    EndpointShortfall(seen, later, tenant, since0, since1, since2);
    ReportsAddUp(out, GetUnifiedAnalytics(seen, tenant, since0, since1, since2).endpoints);
  }

  // ----- the LLM error count, read from usage buckets

  /** A usage bucket, and a turn, as contributions to an aggregate. */
  function UsageTotals(u: Usage): Totals {
    Totals(u.requests, u.errors, 0.0, 0.0, 0.0, u.cost)
  }

  function TurnTotals(t: Turn): Totals {
    Totals(if t.isError then 0 else 1, if t.isError then 1 else 0, 0.0, 0.0, 0.0, t.cost)
  }

  function UsageSince(usage: UsageTable, tenant: string, since: Instant): Groups<UsageKey> {
    map k | k in usage && k.tenant == tenant && k.hour >= since :: UsageTotals(usage[k])
  }

  function ErrorTotal(): Totals -> int {
    (t: Totals) => t.errors
  }

  /** The sum of error counts over the tenant's buckets from `since` on. */
  ghost function LlmErrors(usage: UsageTable, tenant: string, since: Instant): int {
    SumGroups(UsageSince(usage, tenant, since), ErrorTotal())
  }

  function ErrorTurnSince(tenant: string, since: Instant): Turn -> bool {
    (t: Turn) => t.tenant == tenant && t.isError && t.at >= since
  }

  function Selected(k: UsageKey, tenant: string, since: Instant): Option<UsageKey> {
    if k.tenant == tenant && k.hour >= since then Some(k) else None
  }

  lemma {:induction false} AddTurnAddsToGroup(usage: UsageTable, t: Turn, tenant: string, since: Instant)
    ensures UsageSince(AddTurn(usage, t), tenant, since)
            == AddTo(UsageSince(usage, tenant, since), Selected(TurnKey(t), tenant, since), TurnTotals(t))
  {
    var k, before, after := TurnKey(t), UsageSince(usage, tenant, since), UsageSince(AddTurn(usage, t), tenant, since);
    if Selected(k, tenant, since).Some? {
      assert after.Keys == before.Keys + {k};
      assert after[k] == if k in before then Merge(before[k], TurnTotals(t)) else TurnTotals(t);
    }
  }

  lemma {:induction false} AddTurnAddsErrors(usage: UsageTable, turns: seq<Turn>, t: Turn, tenant: string, since: Instant)
    requires LlmErrors(usage, tenant, since) == Count(turns, ErrorTurnSince(tenant, CeilHour(since)))
    ensures LlmErrors(AddTurn(usage, t), tenant, since) == Count(turns + [t], ErrorTurnSince(tenant, CeilHour(since)))
  {
    HourFilter(t.at, since);
    AddTurnAddsToGroup(usage, t, tenant, since);
    SumGroupsAdd(UsageSince(usage, tenant, since), Selected(TurnKey(t), tenant, since), TurnTotals(t), ErrorTotal());
    CountAppend(turns, t, ErrorTurnSince(tenant, CeilHour(since)));
  }

  /** The buckets and turns after a step: one more turn, a purge up to the cutoff, or no change. */
  lemma UsageAfterStep(cfg: Config, s: Sys, s': Sys)
    requires UsageClock(cfg, s) && Step(cfg, s, s')
    ensures || (s'.turns != s.turns && |s'.turns| == |s.turns| + 1 && s'.turns == s.turns + [s'.turns[|s.turns|]]
                && s'.usage == AddTurn(s.usage, s'.turns[|s.turns|]) && s'.usageCutoff == s.usageCutoff)
            || (s'.turns == s.turns && s'.usage == PurgeUsage(s.usage, s'.usageCutoff) && s'.usageCutoff >= s.usageCutoff)
            || (s'.turns == s.turns && s'.usage == s.usage && s'.usageCutoff == s.usageCutoff)
  {
  }

  lemma {:induction false} ErrorsStep(cfg: Config, s: Sys, s': Sys, tenant: string, since: Instant)
    requires UsageClock(cfg, s) && Step(cfg, s, s') && since >= s'.usageCutoff
    requires since >= s.usageCutoff ==> LlmErrors(s.usage, tenant, since) == Count(s.turns, ErrorTurnSince(tenant, CeilHour(since)))
    ensures LlmErrors(s'.usage, tenant, since) == Count(s'.turns, ErrorTurnSince(tenant, CeilHour(since)))
  {
    UsageAfterStep(cfg, s, s');
    if s'.turns != s.turns {
      AddTurnAddsErrors(s.usage, s.turns, s'.turns[|s.turns|], tenant, since);
    } else {
      assert UsageSince(s'.usage, tenant, since) == UsageSince(s.usage, tenant, since);
    }
  }

  /** In every reachable state, and whatever the purges have done to audit rows, the LLM error
      count is the number of failed turns since the first full hour, as long as the window
      does not reach back before the last usage cutoff. */
  lemma {:induction false} LlmErrorsAreTheHistory(cfg: Config, run: seq<Sys>, i: nat, tenant: string, since: Instant)
    requires IsRun(cfg, run) && i < |run| && since >= run[i].usageCutoff
    ensures LlmErrors(run[i].usage, tenant, since) == Count(run[i].turns, ErrorTurnSince(tenant, CeilHour(since)))
  {
    if i > 0 {
      assert Step(cfg, run[i - 1], run[i]);
      RecentUsageIsExact(cfg, run, i - 1, UsageKey(tenant, since));
      if since >= run[i - 1].usageCutoff {
        LlmErrorsAreTheHistory(cfg, run, i - 1, tenant, since);
      }
      ErrorsStep(cfg, run[i - 1], run[i], tenant, since);
    }
  }
}
