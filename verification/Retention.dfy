/** The life of audit rows and usage buckets: recording a turn
    (src/tiresias/proxy/interceptor.py:58-160) and the retention purge
    (src/tiresias/storage/retention.py:22-95), each one transaction. */
module Retention {
  import opened Aggregates
  import opened Counting
  import opened Datetimes
  import opened Wrappers

  const GRACE: int := 7 * DAY

  type RowId = nat
  type Blob = seq<int>

  datatype AuditRow = AuditRow(
    tenant: string,
    prompt: Option<Blob>,
    completion: Option<Blob>,
    model: string,
    provider: string,
    tokens: int,
    cost: int,
    requestHash: string,
    responseHash: string,
    createdAt: Instant,
    deletedAt: Option<Instant>)

  datatype UsageKey = UsageKey(tenant: string, hour: Instant)
  datatype Usage = Usage(tokens: int, requests: nat, cost: int, errors: nat)

  /** A turn as the accounting sees it. */
  datatype Turn = Turn(tenant: string, at: Instant, tokens: int, cost: int, isError: bool)

  datatype PurgeCounts = PurgeCounts(softDeleted: nat, hardDeleted: nat, usagePurged: nat)

  type Audit = map<RowId, AuditRow>
  type UsageTable = map<UsageKey, Usage>

  function TurnKey(t: Turn): UsageKey {
    UsageKey(t.tenant, BucketHour(t.at))
  }

  /** Two turns go to one bucket exactly when they are of one tenant and in one clock hour. */
  lemma {:induction false} SameUsageBucketExactlyWhen(t: Turn, u: Turn)
    ensures TurnKey(t) == TurnKey(u) <==> t.tenant == u.tenant && t.at / 3_600_000_000 == u.at / 3_600_000_000
  {
    SameBucketHour(t.at, u.at);
  }

  function Lookup(usage: UsageTable, k: UsageKey): Option<Usage> {
    if k in usage then Some(usage[k]) else None
  }

  /** A bucket, absent or not, with one more turn in it. */
  function Bump(bucket: Option<Usage>, t: Turn): Usage {
    var u := if bucket.Some? then bucket.value else Usage(0, 0, 0, 0);
    Usage(u.tokens + t.tokens, u.requests + (if t.isError then 0 else 1),
          u.cost + t.cost, u.errors + (if t.isError then 1 else 0))
  }

  function AddTurn(usage: UsageTable, t: Turn): UsageTable {
    usage[TurnKey(t) := Bump(Lookup(usage, TurnKey(t)), t)]
  }

  predicate Expired(r: AuditRow, softCutoff: Instant) {
    r.createdAt < softCutoff && r.deletedAt.None?
  }

  predicate Forgotten(r: AuditRow, hardCutoff: Instant) {
    r.deletedAt.Some? && r.deletedAt.value < hardCutoff
  }

  function Erased(r: AuditRow, now: Instant): AuditRow {
    r.(prompt := None, completion := None, deletedAt := Some(now))
  }

  /** The same row but for payload and deletion mark. */
  predicate SameRecord(r: AuditRow, q: AuditRow) {
    r == q.(prompt := r.prompt, completion := r.completion, deletedAt := r.deletedAt)
  }

  function SoftDelete(audit: Audit, now: Instant, retention: int): Audit {
    map id | id in audit :: if Expired(audit[id], now - retention) then Erased(audit[id], now) else audit[id]
  }

  function HardDelete(audit: Audit, now: Instant): Audit {
    map id | id in audit && !Forgotten(audit[id], now - GRACE) :: audit[id]
  }

  function PurgeUsage(usage: UsageTable, cutoff: Instant): UsageTable {
    map k | k in usage && k.hour >= cutoff :: usage[k]
  }

  /** The audit table after both audit phases of a purge. */
  function Purged(audit: Audit, now: Instant, retention: int): Audit {
    HardDelete(SoftDelete(audit, now, retention), now)
  }

  function ExpiredIds(audit: Audit, softCutoff: Instant): set<RowId> {
    set id | id in audit && Expired(audit[id], softCutoff)
  }

  /** The rows that are not the same in two states of the table. */
  function Changed(before: Audit, after: Audit): set<RowId> {
    set id | id in before && id in after && before[id] != after[id]
  }

  lemma KeysSplit<T>(all: set<T>, gone: set<T>, kept: set<T>)
    requires all == gone + kept && gone !! kept
    ensures |all| == |gone| + |kept|
  {
  }

  /** One tenant database. */
  class TenantDatabase {
    var audit: Audit
    var usage: UsageTable

    constructor ()
      ensures audit == map[] && usage == map[]
    {
      audit, usage := map[], map[];
    }

    method UpsertUsageBucket(tenant: string, hour: Instant, tokens: int, cost: int, isError: bool, ghost at: Instant)
      requires hour == BucketHour(at)
      modifies this`usage
      ensures usage == AddTurn(old(usage), Turn(tenant, at, tokens, cost, isError))
    {
      var key := UsageKey(tenant, hour);
      var bucket := Usage(0, 0, 0, 0);
      if key in usage {
        bucket := usage[key];
      }
      bucket := bucket.(tokens := bucket.tokens + tokens, cost := bucket.cost + cost);
      if isError {
        bucket := bucket.(errors := bucket.errors + 1);
      } else {
        bucket := bucket.(requests := bucket.requests + 1);
      }
      usage := usage[key := bucket];
    }

    method RecordTurn(id: RowId, row: AuditRow)
      requires row.deletedAt.None? && row.prompt.Some? && row.completion.Some?
      modifies this
      ensures audit == old(audit)[id := row]
      ensures usage == AddTurn(old(usage), Turn(row.tenant, row.createdAt, row.tokens, row.cost, false))
    {
      audit := audit[id := row];
      UpsertUsageBucket(row.tenant, BucketHour(row.createdAt), row.tokens, row.cost, false, row.createdAt);
    }

    method RecordErrorTurn(tenant: string, now: Instant)
      modifies this
      ensures audit == old(audit)
      ensures usage == AddTurn(old(usage), Turn(tenant, now, 0, 0, true))
    {
      UpsertUsageBucket(tenant, BucketHour(now), 0, 0, true, now);
    }

    /** No row comes or goes; the live ones past their retention lose their payload and are
        marked, and the row count is the number of rows that are not what they were. */
    method SoftDeletePhase(now: Instant, retention: int) returns (rowcount: nat)
      modifies this`audit
      ensures audit == SoftDelete(old(audit), now, retention)
      ensures audit.Keys == old(audit).Keys
      ensures forall id :: id in old(audit) ==>
        if old(audit)[id].deletedAt.None? && old(audit)[id].createdAt + retention < now then
          && audit[id].prompt.None? && audit[id].completion.None? && audit[id].deletedAt == Some(now)
          && SameRecord(audit[id], old(audit)[id])
        else audit[id] == old(audit)[id]
      ensures rowcount == |Changed(old(audit), audit)| == |ExpiredIds(old(audit), now - retention)|
    {
      var expired := ExpiredIds(audit, now - retention);
      var updated := SoftDelete(audit, now, retention);
      assert Changed(audit, updated) == expired;
      audit := updated;
      rowcount := |expired|;
    }

    method HardDeletePhase(now: Instant) returns (rowcount: nat)
      modifies this`audit
      ensures audit == HardDelete(old(audit), now)
      ensures |old(audit)| == |audit| + rowcount
    {
      var gone := set id | id in audit && Forgotten(audit[id], now - GRACE);
      var kept := HardDelete(audit, now);
      KeysSplit(audit.Keys, gone, kept.Keys);
      audit := kept;
      rowcount := |gone|;
    }

    method UsagePhase(cutoff: Instant) returns (rowcount: nat)
      modifies this`usage
      ensures usage == PurgeUsage(old(usage), cutoff)
      ensures |old(usage)| == |usage| + rowcount
    {
      var gone := set k | k in usage && k.hour < cutoff;
      var kept := PurgeUsage(usage, cutoff);
      KeysSplit(usage.Keys, gone, kept.Keys);
      usage := kept;
      rowcount := |gone|;
    }

    /** The three phases, in order; the counts are the row counts of the three statements.
        Soft deletion keeps every row, so the rows lost are those deleted for good. */
    method RunRetentionPurge(now: Instant, retentionDays: int, usageRetentionDays: int) returns (counts: PurgeCounts)
      modifies this
      ensures audit == Purged(old(audit), now, retentionDays * DAY)
      ensures usage == PurgeUsage(old(usage), now - usageRetentionDays * DAY)
      ensures |old(audit)| == |audit| + counts.hardDeleted
      ensures |old(usage)| == |usage| + counts.usagePurged
      ensures counts.softDeleted == |ExpiredIds(old(audit), now - retentionDays * DAY)|
    {
      var softDeleted := SoftDeletePhase(now, retentionDays * DAY);
      assert audit.Keys == old(audit).Keys;
      var hardDeleted := HardDeletePhase(now);
      var usagePurged := UsagePhase(now - usageRetentionDays * DAY);
      counts := PurgeCounts(softDeleted, hardDeleted, usagePurged);
    }
  }

  /** What a purge does to one row: it goes for good when it was marked more than seven days
      ago, it loses its payload and is marked now when it is live and past its retention, and
      otherwise it stays as it is. */
  lemma PurgeByRow(audit: Audit, now: Instant, retention: int, id: RowId)
    requires id in audit
    ensures var r := audit[id];
      && (id in Purged(audit, now, retention) <==> !(r.deletedAt.Some? && r.deletedAt.value + 7 * 86_400_000_000 < now))
      && (id in Purged(audit, now, retention) ==>
            var expired := r.deletedAt.None? && r.createdAt + retention < now;
            Purged(audit, now, retention)[id]
            == (if expired then r.(prompt := None, completion := None, deletedAt := Some(now)) else r))
  {
  }

  /** What a purge does to one usage bucket: it stays, as it is, exactly if its hour began no
      longer than the retention ago. */
  lemma PurgeByBucket(usage: UsageTable, now: Instant, usageRetentionDays: int, k: UsageKey)
    ensures var purged := PurgeUsage(usage, now - usageRetentionDays * DAY);
      && (k in purged <==> k in usage && now - k.hour <= usageRetentionDays * 86_400_000_000)
      && (k in purged ==> purged[k] == usage[k])
  {
  }

  /** A second purge at the same instant changes nothing, whatever the retention is. */
  lemma {:induction false} PurgeIsIdempotent(audit: Audit, usage: UsageTable, now: Instant, retention: int, usageRetention: int)
    ensures Purged(Purged(audit, now, retention), now, retention) == Purged(audit, now, retention)
    ensures PurgeUsage(PurgeUsage(usage, now - usageRetention), now - usageRetention) == PurgeUsage(usage, now - usageRetention)
  {
    var once := Purged(audit, now, retention);
    assert SoftDelete(once, now, retention) == once;
    assert HardDelete(once, now) == once;
  }

  // ----- every run of turns and purges

  datatype Config = Config(retention: int, usageRetention: int)

  /** `inserted` and `turns` are the full history; `usageCutoff` is the cutoff of the last
      purge. */
  datatype Sys = Sys(
    now: Instant,
    lastPurge: Instant,
    usageCutoff: Instant,
    audit: Audit,
    usage: UsageTable,
    inserted: Audit,
    turns: seq<Turn>)

  datatype Action =
    | Tick(to: Instant)
    | RecordTurn(id: RowId, row: AuditRow)
    | RecordErrorTurn(tenant: string)
    | Purge

  predicate Enabled(s: Sys, a: Action) {
    match a
    case Tick(to) => s.now <= to
    case RecordTurn(id, row) =>
      id !in s.inserted && row.createdAt == s.now && row.deletedAt.None? && row.prompt.Some? && row.completion.Some?
    case RecordErrorTurn(_) => true
    case Purge => true
  }

  function WithTurn(s: Sys, t: Turn): Sys {
    s.(usage := AddTurn(s.usage, t), turns := s.turns + [t])
  }

  function Apply(cfg: Config, s: Sys, a: Action): Sys
    requires Enabled(s, a)
  {
    match a
    case Tick(to) => s.(now := to)
    case RecordTurn(id, row) =>
      WithTurn(s, Turn(row.tenant, s.now, row.tokens, row.cost, false)).(audit := s.audit[id := row], inserted := s.inserted[id := row])
    case RecordErrorTurn(tenant) => WithTurn(s, Turn(tenant, s.now, 0, 0, true))
    case Purge =>
      var cutoff := s.now - cfg.usageRetention;
      s.(lastPurge := s.now, usageCutoff := cutoff,
         audit := Purged(s.audit, s.now, cfg.retention), usage := PurgeUsage(s.usage, cutoff))
  }

  ghost predicate Step(cfg: Config, s: Sys, s': Sys) {
    exists a :: Enabled(s, a) && s' == Apply(cfg, s, a)
  }

  ghost predicate Init(cfg: Config, s: Sys) {
    && s.lastPurge == s.now && s.usageCutoff == s.now - cfg.usageRetention
    && s.audit == s.inserted == map[] && s.usage == map[] && s.turns == []
  }

  ghost predicate IsRun(cfg: Config, run: seq<Sys>) {
    && run != [] && Init(cfg, run[0])
    && forall i :: 0 <= i < |run| - 1 ==> Step(cfg, run[i], run[i + 1])
  }

  /** A stored row against the row as inserted: nothing but the payload is ever lost, it is
      lost exactly by soft deletion, and no sooner than the retention allows. */
  predicate RowInv(cfg: Config, now: Instant, r: AuditRow, original: AuditRow) {
    && SameRecord(r, original) && original.createdAt <= now
    && original.prompt.Some? && original.completion.Some?
    && match r.deletedAt
       case None => r.prompt == original.prompt && r.completion == original.completion
       case Some(d) => r.prompt.None? && r.completion.None? && r.createdAt + cfg.retention < d <= now
  }

  predicate AuditInvAt(cfg: Config, s: Sys, id: RowId)
    requires id in s.inserted
  {
    if id in s.audit then RowInv(cfg, s.now, s.audit[id], s.inserted[id])
    else s.inserted[id].createdAt + cfg.retention + GRACE < s.now
  }

  ghost predicate AuditInv(cfg: Config, s: Sys) {
    && s.audit.Keys <= s.inserted.Keys
    && forall id :: id in s.inserted ==> AuditInvAt(cfg, s, id)
  }

  lemma {:induction false} AuditInvStep(cfg: Config, s: Sys, a: Action)
    requires AuditInv(cfg, s) && Enabled(s, a)
    ensures AuditInv(cfg, Apply(cfg, s, a))
  {
    var s' := Apply(cfg, s, a);
    forall id | id in s'.inserted ensures AuditInvAt(cfg, s', id) {
      if id in s.inserted {
        assert AuditInvAt(cfg, s, id);
      }
    }
  }

  lemma {:induction false} StepAuditInv(cfg: Config, s: Sys, s': Sys)
    requires AuditInv(cfg, s) && Step(cfg, s, s')
    ensures AuditInv(cfg, s')
  {
    var a :| Enabled(s, a) && s' == Apply(cfg, s, a);
    AuditInvStep(cfg, s, a);
  }

  /** In every reachable state a payload is gone exactly when its row is marked deleted, the
      rest of the row is as inserted, no payload goes before age R and no row before age
      R + 7 days. */
  lemma {:induction false} RowsLiveTheirLife(cfg: Config, run: seq<Sys>, i: nat)
    requires IsRun(cfg, run) && i < |run|
    ensures AuditInv(cfg, run[i])
  {
    if i > 0 {
      RowsLiveTheirLife(cfg, run, i - 1);
      assert Step(cfg, run[i - 1], run[i]);
      StepAuditInv(cfg, run[i - 1], run[i]);
    }
  }

  /** How far a row has come. */
  function Stage(s: Sys, id: RowId): nat {
    if id !in s.inserted then 0
    else if id !in s.audit then 3
    else if s.audit[id].deletedAt.Some? then 2
    else 1
  }

  lemma {:induction false} StageStep(cfg: Config, s: Sys, s': Sys, id: RowId)
    requires AuditInv(cfg, s) && Step(cfg, s, s')
    ensures Stage(s, id) <= Stage(s', id)
    ensures Stage(s, id) == 2 && Stage(s', id) == 2 ==> s'.audit[id] == s.audit[id]
  {
    var a :| Enabled(s, a) && s' == Apply(cfg, s, a);
    if id in s.inserted {
      assert AuditInvAt(cfg, s, id);
    }
  }

  /** A row only ever moves forward: absent, live, soft-deleted, removed; its deletion mark
      is set once. */
  lemma {:induction false} LifecycleIsMonotone(cfg: Config, run: seq<Sys>, i: nat, j: nat, id: RowId)
    requires IsRun(cfg, run) && i <= j < |run|
    ensures Stage(run[i], id) <= Stage(run[j], id)
    ensures Stage(run[i], id) == 2 && Stage(run[j], id) == 2 ==> run[j].audit[id] == run[i].audit[id]
    decreases j
  {
    if i < j {
      LifecycleIsMonotone(cfg, run, i, j - 1, id);
      RowsLiveTheirLife(cfg, run, j - 1);
      assert Step(cfg, run[j - 1], run[j]);
      StageStep(cfg, run[j - 1], run[j], id);
    }
  }

  // ----- deadlines

  /** Purges come at least every `period`. */
  ghost predicate Timely(run: seq<Sys>, period: int) {
    forall i :: 0 <= i < |run| ==> run[i].now <= run[i].lastPurge + period
  }

  predicate DeadlineInvAt(cfg: Config, s: Sys, period: int, r: AuditRow) {
    match r.deletedAt
    case None => r.createdAt >= s.lastPurge - cfg.retention
    case Some(d) => s.lastPurge - GRACE <= d <= r.createdAt + cfg.retention + period
  }

  ghost predicate DeadlineInv(cfg: Config, s: Sys, period: int) {
    && s.lastPurge <= s.now
    && forall id :: id in s.audit ==> DeadlineInvAt(cfg, s, period, s.audit[id])
  }

  lemma {:induction false} DeadlineStep(cfg: Config, s: Sys, s': Sys, period: int)
    requires cfg.retention >= 0 && DeadlineInv(cfg, s, period) && Step(cfg, s, s')
    requires s.now <= s.lastPurge + period
    ensures DeadlineInv(cfg, s', period)
  {
    var a :| Enabled(s, a) && s' == Apply(cfg, s, a);
    forall id | id in s'.audit ensures DeadlineInvAt(cfg, s', period, s'.audit[id]) {
      if id in s.audit {
        assert DeadlineInvAt(cfg, s, period, s.audit[id]);
      }
    }
  }

  lemma {:induction false} DeadlineRun(cfg: Config, run: seq<Sys>, period: int, i: nat)
    requires cfg.retention >= 0 && IsRun(cfg, run) && Timely(run, period) && i < |run|
    ensures DeadlineInv(cfg, run[i], period)
  {
    if i > 0 {
      DeadlineRun(cfg, run, period, i - 1);
      assert Step(cfg, run[i - 1], run[i]);
      DeadlineStep(cfg, run[i - 1], run[i], period);
    }
  }

  /** With purges at least every P, a payload is never older than R + P and a row never
      older than R + 7 days + 2P. */
  lemma {:induction false} DataIsGoneInTime(cfg: Config, run: seq<Sys>, period: int, i: nat, id: RowId)
    requires cfg.retention >= 0 && IsRun(cfg, run) && Timely(run, period)
    requires i < |run| && id in run[i].audit
    ensures var s, r := run[i], run[i].audit[id];
      && (r.prompt.Some? || r.completion.Some? ==> s.now <= r.createdAt + cfg.retention + period)
      && s.now <= r.createdAt + cfg.retention + GRACE + 2 * period
  {
    DeadlineRun(cfg, run, period, i);
    RowsLiveTheirLife(cfg, run, i);
    assert DeadlineInvAt(cfg, run[i], period, run[i].audit[id]);
    assert AuditInvAt(cfg, run[i], id);
  }

  // ----- usage buckets against the full history

  function TurnsOf(turns: seq<Turn>, k: UsageKey): seq<Turn> {
    if turns == [] then []
    else
      var last := turns[|turns| - 1];
      TurnsOf(turns[..|turns| - 1], k) + if TurnKey(last) == k then [last] else []
  }

  function TokensOf(): Turn -> int {
    (t: Turn) => t.tokens
  }

  function CostOfTurn(): Turn -> int {
    (t: Turn) => t.cost
  }

  function Succeeded(): Turn -> bool {
    (t: Turn) => !t.isError
  }

  function IsError(): Turn -> bool {
    (t: Turn) => t.isError
  }

  /** What the history says about one hour of one tenant. */
  function HistoryOf(turns: seq<Turn>, k: UsageKey): Option<Usage> {
    var ts := TurnsOf(turns, k);
    if ts == [] then None
    else Some(Usage(SumInt(ts, TokensOf()), Count(ts, Succeeded()), SumInt(ts, CostOfTurn()), Count(ts, IsError())))
  }

  lemma {:induction false} TurnsOfAppend(turns: seq<Turn>, t: Turn, k: UsageKey)
    ensures TurnsOf(turns + [t], k) == if TurnKey(t) == k then TurnsOf(turns, k) + [t] else TurnsOf(turns, k)
  {
    assert (turns + [t])[..|turns|] == turns;
  }

  lemma {:induction false} UsageAppend(ts: seq<Turn>, t: Turn)
    ensures SumInt(ts + [t], TokensOf()) == SumInt(ts, TokensOf()) + t.tokens
    ensures SumInt(ts + [t], CostOfTurn()) == SumInt(ts, CostOfTurn()) + t.cost
    ensures Count(ts + [t], Succeeded()) == Count(ts, Succeeded()) + (if t.isError then 0 else 1)
    ensures Count(ts + [t], IsError()) == Count(ts, IsError()) + (if t.isError then 1 else 0)
  {
    assert (ts + [t])[..|ts|] == ts;
  }

  lemma {:induction false} HistoryAppend(turns: seq<Turn>, t: Turn, k: UsageKey)
    ensures HistoryOf(turns + [t], k)
            == if TurnKey(t) == k then Some(Bump(HistoryOf(turns, k), t)) else HistoryOf(turns, k)
  {
    TurnsOfAppend(turns, t, k);
    if TurnKey(t) == k {
      UsageAppend(TurnsOf(turns, k), t);
    }
  }

  /** Hours not before the last cutoff agree with the history. */
  predicate UsageInvAt(s: Sys, k: UsageKey) {
    k.hour >= s.usageCutoff ==> Lookup(s.usage, k) == HistoryOf(s.turns, k)
  }

  predicate UsageClock(cfg: Config, s: Sys) {
    s.usageCutoff == s.lastPurge - cfg.usageRetention && s.lastPurge <= s.now
  }

  lemma {:induction false} UsageTurn(s: Sys, t: Turn, k: UsageKey)
    requires UsageInvAt(s, k)
    ensures UsageInvAt(WithTurn(s, t), k)
  {
    HistoryAppend(s.turns, t, k);
  }

  lemma {:induction false} UsagePurge(cfg: Config, s: Sys, k: UsageKey)
    requires UsageClock(cfg, s) && UsageInvAt(s, k)
    ensures UsageInvAt(Apply(cfg, s, Purge), k)
  {
    var s' := Apply(cfg, s, Purge);
    assert s'.turns == s.turns && s'.usageCutoff >= s.usageCutoff;
    assert k.hour >= s'.usageCutoff ==> Lookup(s'.usage, k) == Lookup(s.usage, k);
  }

  lemma {:induction false} UsageStep(cfg: Config, s: Sys, s': Sys, k: UsageKey)
    requires UsageClock(cfg, s) && UsageInvAt(s, k) && Step(cfg, s, s')
    ensures UsageClock(cfg, s') && UsageInvAt(s', k)
  {
    var a :| Enabled(s, a) && s' == Apply(cfg, s, a);
    match a
    case RecordTurn(_, row) => UsageTurn(s, Turn(row.tenant, s.now, row.tokens, row.cost, false), k);
    case RecordErrorTurn(tenant) => UsageTurn(s, Turn(tenant, s.now, 0, 0, true), k);
    case Tick(_) =>
    case Purge => UsagePurge(cfg, s, k);
  }

  /** Every usage bucket not before the last usage cutoff, and every missing one, says what
      the full history of turns says about its hour, whatever has happened to the audit rows. */
  lemma {:induction false} RecentUsageIsExact(cfg: Config, run: seq<Sys>, i: nat, k: UsageKey)
    requires IsRun(cfg, run) && i < |run|
    ensures UsageClock(cfg, run[i]) && UsageInvAt(run[i], k)
  {
    if i > 0 {
      RecentUsageIsExact(cfg, run, i - 1, k);
      assert Step(cfg, run[i - 1], run[i]);
      UsageStep(cfg, run[i - 1], run[i], k);
    }
  }

  /** No bucket in the table is ever a partial count of its hour. */
  predicate NoPartialAt(s: Sys, k: UsageKey) {
    && (k in s.usage ==> HistoryOf(s.turns, k) == Some(s.usage[k]))
    && (k !in s.usage && HistoryOf(s.turns, k).Some? ==> k.hour < s.usageCutoff)
  }

  lemma {:induction false} NoPartialTurn(s: Sys, t: Turn, k: UsageKey)
    requires NoPartialAt(s, k) && (TurnKey(t) == k ==> k.hour >= s.usageCutoff)
    ensures NoPartialAt(WithTurn(s, t), k)
  {
    HistoryAppend(s.turns, t, k);
  }

  lemma {:induction false} NoPartialPurge(cfg: Config, s: Sys, k: UsageKey)
    requires UsageClock(cfg, s) && NoPartialAt(s, k)
    ensures NoPartialAt(Apply(cfg, s, Purge), k)
  {
    var s' := Apply(cfg, s, Purge);
    assert s'.turns == s.turns && Lookup(s'.usage, k) == if k.hour >= s'.usageCutoff then Lookup(s.usage, k) else None;
  }

  lemma {:induction false} NoPartialStep(cfg: Config, s: Sys, s': Sys, k: UsageKey)
    requires cfg.usageRetention >= HOUR
    requires UsageClock(cfg, s) && NoPartialAt(s, k) && Step(cfg, s, s')
    ensures NoPartialAt(s', k)
  {
    var a :| Enabled(s, a) && s' == Apply(cfg, s, a);
    match a
    case RecordTurn(_, row) => NoPartialTurn(s, Turn(row.tenant, s.now, row.tokens, row.cost, false), k);
    case RecordErrorTurn(tenant) => NoPartialTurn(s, Turn(tenant, s.now, 0, 0, true), k);
    case Tick(_) =>
    case Purge => NoPartialPurge(cfg, s, k);
  }

  lemma {:induction false} NoPartialRun(cfg: Config, run: seq<Sys>, i: nat, k: UsageKey)
    requires cfg.usageRetention >= HOUR && IsRun(cfg, run) && i < |run|
    ensures NoPartialAt(run[i], k)
  {
    if i > 0 {
      RecentUsageIsExact(cfg, run, i - 1, k);
      NoPartialRun(cfg, run, i - 1, k);
      assert Step(cfg, run[i - 1], run[i]);
      NoPartialStep(cfg, run[i - 1], run[i], k);
    }
  }

  ghost predicate NeverPartial(usageRetention: int) {
    forall cfg: Config, run: seq<Sys>, i: nat, k: UsageKey ::
      cfg.usageRetention == usageRetention && IsRun(cfg, run) && i < |run| && k in run[i].usage ==>
        HistoryOf(run[i].turns, k) == Some(run[i].usage[k])
  }

  lemma {:induction false} Extend(cfg: Config, run: seq<Sys>, a: Action) returns (r: seq<Sys>)
    requires IsRun(cfg, run) && Enabled(run[|run| - 1], a)
    ensures IsRun(cfg, r) && r == run + [Apply(cfg, run[|run| - 1], a)]
  {
    r := run + [Apply(cfg, run[|run| - 1], a)];
    forall i | 0 <= i < |r| - 1 ensures Step(cfg, r[i], r[i + 1]) {
      if i < |run| - 1 {
        assert Step(cfg, run[i], run[i + 1]);
      }
    }
  }

  /** A purge in the middle of an hour, with no usage retention, forgets the first part of
      that hour: the bucket that comes back is a partial count. */
  lemma {:induction false} ZeroRetentionCountsPartially(cfg: Config) returns (run: seq<Sys>, k: UsageKey)
    requires cfg.usageRetention <= 0
    ensures IsRun(cfg, run) && k in run[|run| - 1].usage
    ensures HistoryOf(run[|run| - 1].turns, k) != Some(run[|run| - 1].usage[k])
  {
    var t := Turn("t", 1, 0, 0, true);
    k := UsageKey("t", 0);
    run := [Sys(1, 1, 1 - cfg.usageRetention, map[], map[], map[], [])];
    run := Extend(cfg, run, RecordErrorTurn("t"));
    assert run[|run| - 1].usage == map[k := Usage(0, 0, 0, 1)];
    run := Extend(cfg, run, Purge);
    assert run[|run| - 1].usage == map[];
    run := Extend(cfg, run, RecordErrorTurn("t"));
    assert run[|run| - 1].usage == map[k := Usage(0, 0, 0, 1)];
    HistoryAppend([], t, k);
    HistoryAppend([t], t, k);
    assert [] + [t] == [t] && run[|run| - 1].turns == [t] + [t];
  }

  /** With usage retention in whole days, no bucket is ever a partial count of its hour if
      and only if the retention is at least one day. */
  lemma {:induction false} OneDayIsTheExactMinimum(days: int)
    ensures NeverPartial(days * DAY) <==> days >= 1
  {
    if days >= 1 {
      forall cfg: Config, run: seq<Sys>, i: nat, k: UsageKey |
        cfg.usageRetention == days * DAY && IsRun(cfg, run) && i < |run| && k in run[i].usage
        ensures HistoryOf(run[i].turns, k) == Some(run[i].usage[k])
      {
        NoPartialRun(cfg, run, i, k);
      }
    } else {
      var cfg := Config(0, days * DAY);
      var run, k := ZeroRetentionCountsPartially(cfg);
      var i := |run| - 1;
      assert IsRun(cfg, run) && k in run[i].usage;
    }
  }
}
