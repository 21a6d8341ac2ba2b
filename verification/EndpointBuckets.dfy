/** The call log of the generic proxy and the hourly endpoint buckets kept beside it
    (src/tiresias/proxy/generic.py:51-153), and the query that reads the buckets in place
    of the log (src/tiresias/analytics/api_telemetry.py:13-79). */
module EndpointBuckets {
  import opened Aggregates
  import opened Counting
  import opened Datetimes
  import opened Wrappers

  datatype ApiRow = ApiRow(
    tenant: string,
    service: Option<string>,
    httpMethod: string,
    path: string,
    pattern: string,
    status: int,
    latency: real,
    requestSize: nat,
    responseSize: nat,
    cost: int,
    createdAt: Instant)

  datatype BucketKey = BucketKey(tenant: string, service: Option<string>, httpMethod: string, pattern: string, hour: Instant)
  datatype Bucket = Bucket(key: BucketKey, totals: Totals)
  datatype Endpoint = Endpoint(httpMethod: string, pattern: string, service: Option<string>)

  function IsErrorStatus(status: int): bool {
    status >= 400
  }

  function KeyOf(r: ApiRow): BucketKey {
    BucketKey(r.tenant, r.service, r.httpMethod, r.pattern, BucketHour(r.createdAt))
  }

  /** Two calls go to one bucket exactly when they are to one endpoint in one clock hour. */
  lemma {:induction false} SameBucketExactlyWhen(r: ApiRow, q: ApiRow)
    ensures KeyOf(r) == KeyOf(q) <==>
      && r.tenant == q.tenant && r.service == q.service && r.httpMethod == q.httpMethod && r.pattern == q.pattern
      && r.createdAt / 3_600_000_000 == q.createdAt / 3_600_000_000
  {
    SameBucketHour(r.createdAt, q.createdAt);
  }

  /** What one call contributes to any aggregate. */
  function Single(r: ApiRow): Totals {
    Totals(1, if IsErrorStatus(r.status) then 1 else 0, r.latency, r.latency, r.latency, r.cost)
  }

  /** The position of the bucket with this key, or the number of buckets. */
  function Find(bs: seq<Bucket>, key: BucketKey): (i: nat)
    ensures i <= |bs| && (i < |bs| ==> bs[i].key == key)
    ensures forall j :: 0 <= j < i ==> bs[j].key != key
  {
    if bs == [] then 0
    else if bs[0].key == key then 0
    else Find(bs[1..], key) + 1
  }

  function Upserted(bs: seq<Bucket>, r: ApiRow): seq<Bucket> {
    var i := Find(bs, KeyOf(r));
    if i < |bs| then bs[i := Bucket(KeyOf(r), Merge(bs[i].totals, Single(r)))]
    else bs + [Bucket(KeyOf(r), Single(r))]
  }

  /** The buckets that a log should have. */
  function BucketsOf(log: seq<ApiRow>): seq<Bucket> {
    if log == [] then [] else Upserted(BucketsOf(log[..|log| - 1]), log[|log| - 1])
  }

  /** The two tables that a recorded call writes in one transaction. */
  class ApiTelemetry {
    var log: seq<ApiRow>
    var buckets: seq<Bucket>

    ghost predicate Valid()
      reads this
    {
      buckets == BucketsOf(log)
    }

    constructor ()
      ensures Valid() && log == []
    {
      log, buckets := [], [];
    }

    method RecordApiCall(r: ApiRow)
      requires Valid()
      modifies this
      ensures Valid() && log == old(log) + [r]
    {
      log := log + [r];
      UpsertEndpointBucket(KeyOf(r), r.latency, IsErrorStatus(r.status), r.cost, r);
      assert log[..|log| - 1] == old(log);
    }

    /** Finds or creates the bucket of `key`, then updates its fields one by one. */
    method UpsertEndpointBucket(key: BucketKey, latency: real, isError: bool, cost: int, ghost r: ApiRow)
      requires key == KeyOf(r) && latency == r.latency && isError == IsErrorStatus(r.status) && cost == r.cost
      modifies this`buckets
      ensures buckets == Upserted(old(buckets), r)
    {
      var i := 0;
      while i < |buckets| && buckets[i].key != key
        invariant 0 <= i <= |buckets|
        invariant forall j :: 0 <= j < i ==> buckets[j].key != key
      {
        i := i + 1;
      }
      assert i == Find(buckets, key);
      var t;
      if i == |buckets| {
        t := Totals(0, 0, 0.0, latency, latency, 0);
        buckets := buckets + [Bucket(key, t)];
      } else {
        t := buckets[i].totals;
        if latency < t.latencyMin {
          t := t.(latencyMin := latency);
        }
        if latency > t.latencyMax {
          t := t.(latencyMax := latency);
        }
      }
      t := t.(count := t.count + 1, latencySum := t.latencySum + latency, cost := t.cost + cost);
      if isError {
        t := t.(errors := t.errors + 1);
      }
      buckets := buckets[i := Bucket(key, t)];
    }
  }

  // ----- the buckets refine the log under every grouping of bucket keys

  function OfBucket<K>(proj: BucketKey -> Option<K>): Bucket -> Option<K> {
    (b: Bucket) => proj(b.key)
  }

  function TotalsOf(): Bucket -> Totals {
    (b: Bucket) => b.totals
  }

  function OfRow<K>(proj: BucketKey -> Option<K>): ApiRow -> Option<K> {
    (r: ApiRow) => proj(KeyOf(r))
  }

  function SingleOf(): ApiRow -> Totals {
    (r: ApiRow) => Single(r)
  }

  lemma {:induction false} UpsertAddsRow<K>(bs: seq<Bucket>, r: ApiRow, proj: BucketKey -> Option<K>)
    ensures GroupBy(Upserted(bs, r), OfBucket(proj), TotalsOf())
            == AddTo(GroupBy(bs, OfBucket(proj), TotalsOf()), proj(KeyOf(r)), Single(r))
  {
    var i := Find(bs, KeyOf(r));
    if i < |bs| {
      GroupByEnlarge(bs, i, Bucket(KeyOf(r), Merge(bs[i].totals, Single(r))), Single(r), OfBucket(proj), TotalsOf());
    } else {
      GroupByAppend(bs, Bucket(KeyOf(r), Single(r)), OfBucket(proj), TotalsOf());
    }
  }

  /** Whatever is grouped by a function of the bucket key comes out of the buckets exactly
      as it comes out of the log, after any sequence of recorded calls. */
  lemma {:induction false} BucketsRefineLog<K>(log: seq<ApiRow>, proj: BucketKey -> Option<K>)
    ensures GroupBy(BucketsOf(log), OfBucket(proj), TotalsOf()) == GroupBy(log, OfRow(proj), SingleOf())
  {
    if log != [] {
      var before := log[..|log| - 1];
      BucketsRefineLog(before, proj);
      UpsertAddsRow(BucketsOf(before), log[|log| - 1], proj);
    }
  }

  /** No two buckets have the same key. */
  lemma {:induction false} KeysDistinct(log: seq<ApiRow>)
    ensures forall i, j :: 0 <= i < j < |BucketsOf(log)| ==> BucketsOf(log)[i].key != BucketsOf(log)[j].key
  {
    if log != [] {
      KeysDistinct(log[..|log| - 1]);
    }
  }

  function Itself(): BucketKey -> Option<BucketKey> {
    (k: BucketKey) => Some(k)
  }

  lemma {:induction false} DistinctBucketsAreGroups(bs: seq<Bucket>, i: nat)
    requires i < |bs| && forall i, j :: 0 <= i < j < |bs| ==> bs[i].key != bs[j].key
    ensures bs[i].key in GroupBy(bs, OfBucket(Itself()), TotalsOf())
    ensures GroupBy(bs, OfBucket(Itself()), TotalsOf())[bs[i].key] == bs[i].totals
  {
    var n := |bs| - 1;
    if i < n {
      DistinctBucketsAreGroups(bs[..n], i);
    } else {
      GroupByIsExact(bs[..n], OfBucket(Itself()), TotalsOf(), bs[n].key);
      MembersNone(bs[..n], bs[n].key);
    }
  }

  lemma {:induction false} MembersNone(bs: seq<Bucket>, key: BucketKey)
    requires forall i :: 0 <= i < |bs| ==> bs[i].key != key
    ensures Members(bs, OfBucket(Itself()), key) == []
  {
    if bs != [] {
      MembersNone(bs[..|bs| - 1], key);
    }
  }

  /** Each bucket is the count, errors, latency sum, extremes and cost of exactly the log
      rows with its key. */
  lemma {:induction false} BucketDescribesItsRows(log: seq<ApiRow>, i: nat)
    requires i < |BucketsOf(log)|
    ensures var b := BucketsOf(log)[i];
      Describes(b.totals, Members(log, OfRow(Itself()), b.key), SingleOf())
  {
    KeysDistinct(log);
    DistinctBucketsAreGroups(BucketsOf(log), i);
    BucketsRefineLog(log, Itself());
    GroupByIsExact(log, OfRow(Itself()), SingleOf(), BucketsOf(log)[i].key);
  }

  // ----- the hour-granular query

  /** The endpoint of a bucket, if the query of get_endpoint_metrics selects it. */
  function EndpointOf(tenant: string, since: Instant, service: Option<string>): BucketKey -> Option<Endpoint> {
    (k: BucketKey) =>
      if k.tenant == tenant && k.hour >= since && (service.Some? ==> k.service == service)
      then Some(Endpoint(k.httpMethod, k.pattern, k.service)) else None
  }

  /** The same for a log row, by its own timestamp. */
  function LogEndpointOf(tenant: string, since: Instant, service: Option<string>): ApiRow -> Option<Endpoint> {
    (r: ApiRow) =>
      if r.tenant == tenant && r.createdAt >= since && (service.Some? ==> r.service == service)
      then Some(Endpoint(r.httpMethod, r.pattern, r.service)) else None
  }

  function EndpointGroups(bs: seq<Bucket>, tenant: string, since: Instant, service: Option<string>): Groups<Endpoint> {
    GroupBy(bs, OfBucket(EndpointOf(tenant, since, service)), TotalsOf())
  }

  function LogEndpointGroups(log: seq<ApiRow>, tenant: string, since: Instant, service: Option<string>): Groups<Endpoint> {
    GroupBy(log, LogEndpointOf(tenant, since, service), SingleOf())
  }

  /** The endpoint query over the buckets answers as the log would from the next full hour
      on: the rows of the hour that `since` cuts are missing, and nothing else is. */
  lemma {:induction false} EndpointQueryReadsFullHours(log: seq<ApiRow>, tenant: string, since: Instant, service: Option<string>)
    ensures EndpointGroups(BucketsOf(log), tenant, since, service)
            == LogEndpointGroups(log, tenant, CeilHour(since), service)
  {
    BucketsRefineLog(log, EndpointOf(tenant, since, service));
    forall i | 0 <= i < |log|
      ensures OfRow(EndpointOf(tenant, since, service))(log[i]) == LogEndpointOf(tenant, CeilHour(since), service)(log[i])
    {
      var r := log[i];
      HourFilter(r.createdAt, since);
      assert OfRow(EndpointOf(tenant, since, service))(r) == EndpointOf(tenant, since, service)(KeyOf(r));
    }
    GroupByPointwise(log, OfRow(EndpointOf(tenant, since, service)), LogEndpointOf(tenant, CeilHour(since), service), SingleOf());
  }

  /** One row of the answer; the averages are those of a group that is never empty. */
  datatype EndpointMetrics = EndpointMetrics(
    endpoint: Endpoint,
    requestCount: nat,
    errorCount: nat,
    errorRate: real,
    latencyAvg: real,
    latencyMin: real,
    latencyMax: real,
    costTotal: int)

  function MetricsRow(e: Endpoint, t: Totals): EndpointMetrics {
    EndpointMetrics(e, t.count, t.errors,
                    if t.count > 0 then t.errors as real / t.count as real else 0.0,
                    if t.count > 0 then t.latencySum / t.count as real else 0.0,
                    t.latencyMin, t.latencyMax, t.cost)
  }

  function CountTotal(): Totals -> int {
    (t: Totals) => t.count
  }

  function CostTotal(): Totals -> int {
    (t: Totals) => t.cost
  }

  /** A row of the grouped query. */
  datatype QueryRow = QueryRow(endpoint: Endpoint, totals: Totals)

  /** The rows are the groups, each once, in some order: what a database may answer. */
  ghost predicate RowsAre(rows: seq<QueryRow>, groups: Groups<Endpoint>) {
    && |rows| == |groups|
    && (forall i :: 0 <= i < |rows| ==> rows[i].endpoint in groups && groups[rows[i].endpoint] == rows[i].totals)
    && (forall i, j :: 0 <= i < j < |rows| ==> rows[i].endpoint != rows[j].endpoint)
  }

  /** The metrics list is made from the groups, each once, in some order. */
  ghost predicate Reports(out: seq<EndpointMetrics>, groups: Groups<Endpoint>) {
    && |out| == |groups|
    && (forall i :: 0 <= i < |out| ==> out[i].endpoint in groups && out[i] == MetricsRow(out[i].endpoint, groups[out[i].endpoint]))
    && (forall i, j :: 0 <= i < j < |out| ==> out[i].endpoint != out[j].endpoint)
  }

  /** The loop of get_endpoint_metrics over the rows that the database answered. */
  method GetEndpointMetrics(rows: seq<QueryRow>, ghost groups: Groups<Endpoint>) returns (out: seq<EndpointMetrics>)
    requires RowsAre(rows, groups)
    ensures Reports(out, groups)
  {
    out := [];
    for i := 0 to |rows|
      invariant |out| == i
      invariant forall j :: 0 <= j < i ==> out[j] == MetricsRow(rows[j].endpoint, rows[j].totals)
    {
      var t := rows[i].totals;
      var average := if t.count > 0 then t.latencySum / t.count as real else 0.0;
      var errorRate := if t.count > 0 then t.errors as real / t.count as real else 0.0;
      out := out + [EndpointMetrics(rows[i].endpoint, t.count, t.errors, errorRate, average, t.latencyMin, t.latencyMax, t.cost)];
    }
  }

  function SumRequests(out: seq<EndpointMetrics>): nat {
    if out == [] then 0 else SumRequests(out[..|out| - 1]) + out[|out| - 1].requestCount
  }

  function SumCosts(out: seq<EndpointMetrics>): int {
    if out == [] then 0 else SumCosts(out[..|out| - 1]) + out[|out| - 1].costTotal
  }

  /** The request counts and the costs of the list add up to those of the groups. */
  lemma {:induction false} ReportsAddUp(out: seq<EndpointMetrics>, groups: Groups<Endpoint>)
    requires Reports(out, groups)
    ensures SumRequests(out) == SumGroups(groups, CountTotal())
    ensures SumCosts(out) == SumGroups(groups, CostTotal())
  {
    if out != [] {
      var e := out[|out| - 1].endpoint;
      SumGroupsRemove(groups, e, CountTotal());
      SumGroupsRemove(groups, e, CostTotal());
      ReportsAddUp(out[..|out| - 1], groups - {e});
    }
  }

  // ----- the metrics list against the log

  function Failed(): ApiRow -> bool {
    (r: ApiRow) => r.status >= 400
  }

  function LatencyMs(): ApiRow -> real {
    (r: ApiRow) => r.latency
  }

  function CostUnits(): ApiRow -> int {
    (r: ApiRow) => r.cost
  }

  /** What a group of calls adds up to, in the terms of the calls themselves. */
  lemma {:induction false} SingleAddsUp(rows: seq<ApiRow>)
    ensures SumInt(rows, CountOf(SingleOf())) == |rows|
    ensures SumInt(rows, ErrorsOf(SingleOf())) == Count(rows, Failed())
    ensures SumReal(rows, LatencyOf(SingleOf())) == SumReal(rows, LatencyMs())
    ensures SumInt(rows, CostOf(SingleOf())) == SumInt(rows, CostUnits())
  {
    if rows != [] {
      SingleAddsUp(rows[..|rows| - 1]);
    }
  }

  /** One row of the answer says of these calls how many there are and how many failed, their
      share, the mean and the extremes of their latencies, and their cost. */
  ghost predicate Summarises(m: EndpointMetrics, rows: seq<ApiRow>) {
    && m.requestCount == |rows| > 0
    && m.errorCount == Count(rows, Failed())
    && m.errorRate == Count(rows, Failed()) as real / |rows| as real
    && m.latencyAvg == SumReal(rows, LatencyMs()) / |rows| as real
    && (forall i :: 0 <= i < |rows| ==> m.latencyMin <= rows[i].latency <= m.latencyMax)
    && (exists i :: 0 <= i < |rows| && rows[i].latency == m.latencyMin)
    && (exists i :: 0 <= i < |rows| && rows[i].latency == m.latencyMax)
    && m.costTotal == SumInt(rows, CostUnits())
  }

  /** What the totals of a group say of its calls. */
  lemma {:induction false} TotalsOfRows(t: Totals, rows: seq<ApiRow>)
    requires Describes(t, rows, SingleOf())
    ensures t.count == |rows| && t.errors == Count(rows, Failed())
    ensures t.latencySum == SumReal(rows, LatencyMs()) && t.cost == SumInt(rows, CostUnits())
  {
    SingleAddsUp(rows);
  }

  lemma {:induction false} DescribedIsSummarised(e: Endpoint, t: Totals, rows: seq<ApiRow>)
    requires rows != [] && Describes(t, rows, SingleOf())
    ensures Summarises(MetricsRow(e, t), rows)
  {
    TotalsOfRows(t, rows);
    ExtremesOfLatency(t, rows);
  }

  lemma {:induction false} ExtremesOfLatency(t: Totals, rows: seq<ApiRow>)
    requires Extremes(t, rows, SingleOf())
    ensures forall i :: 0 <= i < |rows| ==> t.latencyMin <= rows[i].latency <= t.latencyMax
    ensures exists i :: 0 <= i < |rows| && rows[i].latency == t.latencyMin
    ensures exists i :: 0 <= i < |rows| && rows[i].latency == t.latencyMax
  {
    assert forall i :: 0 <= i < |rows| ==> SingleOf()(rows[i]).latencyMin == rows[i].latency == SingleOf()(rows[i]).latencyMax;
  }

  /** Every row of the list that get_endpoint_metrics makes from the buckets summarises exactly
      the logged calls to its endpoint from the first full hour on. */
  lemma {:induction false} MetricsAreTheLog(log: seq<ApiRow>, tenant: string, since: Instant, service: Option<string>,
                                            out: seq<EndpointMetrics>, i: nat)
    requires Reports(out, EndpointGroups(BucketsOf(log), tenant, since, service)) && i < |out|
    ensures Summarises(out[i], Members(log, LogEndpointOf(tenant, CeilHour(since), service), out[i].endpoint))
  {
    var e := out[i].endpoint;
    EndpointQueryReadsFullHours(log, tenant, since, service);
    GroupByIsExact(log, LogEndpointOf(tenant, CeilHour(since), service), SingleOf(), e);
    DescribedIsSummarised(e, LogEndpointGroups(log, tenant, CeilHour(since), service)[e],
                          Members(log, LogEndpointOf(tenant, CeilHour(since), service), e));
  }

  function EndpointsOf(out: seq<EndpointMetrics>): set<Endpoint> {
    set i | 0 <= i < |out| :: out[i].endpoint
  }

  lemma {:induction false} DistinctEndpoints(out: seq<EndpointMetrics>)
    requires forall i, j :: 0 <= i < j < |out| ==> out[i].endpoint != out[j].endpoint
    ensures |EndpointsOf(out)| == |out|
  {
    if out != [] {
      var n := |out| - 1;
      DistinctEndpoints(out[..n]);
      assert EndpointsOf(out) == EndpointsOf(out[..n]) + {out[n].endpoint};
    }
  }

  lemma {:induction false} EqualSizes<T>(a: set<T>, b: set<T>)
    requires a <= b && |a| == |b|
    ensures a == b
  {
    assert b == a + (b - a);
  }

  lemma {:induction false} ReportsAll(out: seq<EndpointMetrics>, groups: Groups<Endpoint>)
    requires Reports(out, groups)
    ensures EndpointsOf(out) == groups.Keys
  {
    DistinctEndpoints(out);
    EqualSizes(EndpointsOf(out), groups.Keys);
  }

  /** And every endpoint with such a call has its row. */
  lemma {:induction false} EveryCallIsReported(log: seq<ApiRow>, tenant: string, since: Instant, service: Option<string>,
                                               out: seq<EndpointMetrics>, r: ApiRow)
    requires Reports(out, EndpointGroups(BucketsOf(log), tenant, since, service))
    requires r in log && r.tenant == tenant && r.createdAt >= CeilHour(since) && (service.Some? ==> r.service == service)
    ensures exists i :: 0 <= i < |out| && out[i].endpoint == Endpoint(r.httpMethod, r.pattern, r.service)
  {
    var e, proj := Endpoint(r.httpMethod, r.pattern, r.service), LogEndpointOf(tenant, CeilHour(since), service);
    ReportsAll(out, EndpointGroups(BucketsOf(log), tenant, since, service));
    assert e in LogEndpointGroups(log, tenant, CeilHour(since), service) by {
      MemberOf(log, proj, e, r);
      GroupByIsExact(log, proj, SingleOf(), e);
    }
    EndpointQueryReadsFullHours(log, tenant, since, service);
    assert e in EndpointsOf(out);
  }

  lemma {:induction false} MemberOf(log: seq<ApiRow>, proj: ApiRow -> Option<Endpoint>, e: Endpoint, r: ApiRow)
    requires r in log && proj(r) == Some(e)
    ensures r in Members(log, proj, e)
  {
    if r != log[|log| - 1] {
      MemberOf(log[..|log| - 1], proj, e, r);
    }
  }
}
