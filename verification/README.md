# Verified model of the Tiresias proxy core

Tiresias is a proxy in front of LLM and REST providers. This project models the stateful
protocols at its core in Dafny and proves what they promise over whole runs: the three
rate limiters, the engine registry, the endpoint and usage buckets, the tenant
cache, the retention purge, envelope encryption, provider health and failover, the policy
decision point, and the path and price lookups. `dafny verify dfyconfig.toml` checks it all.

## How it is modelled

* A method of an object that the source updates in place is a method of a class here, proved
  against a function of its inputs and of the old state; the protocols and the theorems use
  the same functions. Where several callers interleave, the system is a state machine: an
  action is the code between two awaits, a section under a lock, or one database
  transaction, and a theorem about runs holds for every finite sequence of enabled actions.
* Clock readings are arguments. Monotonic and wall clocks are real numbers; datetimes are whole
  microseconds. An operation that reads the clock before it waits for a lock or for a
  query does so in a step of its own.
* Random values (keys, nonces, unique ids) are arguments, arbitrary unless stated; unique ids
  come from a counter. The cipher, the text encoding, `int(...)` on text and `lower()` are
  function-valued parameters. The laws assumed of the cipher and the encoding are the
  predicate `Envelope.Lawful`.
* Money is a whole number of a fixed smallest unit; latencies are real numbers without
  rounding. Strings are sequences of characters.

| module | what it is about |
|---|---|
| `RateLimiter`, `LimiterProtocol`, `LimiterRefinement`, `RateSpecs` | sliding-window limiter: its methods, its clients in any interleaving, its refinement of an unpruned log, its limit strings |
| `MinuteLimiter`, `MinuteProtocol` | the per-minute limits: in-memory window, shared Redis counter, and pods that switch between them |
| `EngineRegistry` | double-checked creation of database engines and their teardown |
| `Aggregates`, `EndpointBuckets`, `UnifiedAnalytics`, `Datetimes` | hourly buckets against raw logs |
| `TenantCache` | key-to-tenant cache with a time to live |
| `Retention` | audit rows, usage buckets and the purge |
| `Envelope` | field encryption and the life of tenant keys |
| `Pdp` | SOP decisions |
| `Health`, `Failover` | provider health, order and cascade |
| `Paths`, `Pricing`, `Strings` | path patterns and price lookups |
| `Counting`, `Timeline`, `Wrappers` | shared vocabulary: counting in windows, sequences of timestamps, optional values |

## What turned out false, and when it is true

* The Retry-After of the in-memory fallback counts from the oldest entry and is cut to whole
  seconds. Waiting for it is enough exactly when the entry `rpm` places from the end has left
  the window by then (`MinuteLimiter.LocalRetryIsEnough`): with `rpm` entries in the window,
  when the exact wait is whole or at most a second (`RetryAtTheLimit`). It fails at every tier's
  limit (`LocalRetryCanBeShort`), and after a downgrade also for whole waits
  (`RetryAfterDowngradeCanBeShort`).
* The Redis counter keeps its limit per minute bucket in every run exactly when clock skew
  and the delay between reading the minute and INCR together stay within 60 s
  (`MinuteProtocol.MinuteIsTheExactMargin`, for every limit): the 120 s expiry allows for no more.
* Twice the limit in any 60 s of one clock, with each admission dated by the INCR that counts
  it, holds exactly when the pods' clocks agree and every INCR runs at the reading of its minute
  (`MinuteProtocol.TwiceExactlyWithoutDelay`). With any skew or latency three times the limit is
  reached (`SkewReachesThrice`, `LatencyReachesFourfold`), and within the margin above never
  more (`AnyServerMinuteAdmitsAtMostThrice`).
* Three times the limit for one pod that switches between Redis and its fallback holds exactly
  when every INCR runs at its reading (`MinuteProtocol.ThriceExactlyWithoutLatency`); with any
  latency four times the limit is reached, and within the margin never more
  (`SwitchingAdmitsAtMostFourfold`).
* `get_ordered_providers` is not a permutation of the cascade when the clock moves: it leaves
  out exactly the providers whose recovery falls between its two passes
  (`Health.OmitsExactlyTheRecovering`). An unpinned request is reported as exhausted without an
  attempt exactly when that is every provider (`Failover.ExhaustedWithoutAttempt`), which can
  happen to any cascade (`Failover.RecoveryCanEmptyTheOrder`).
* `is_healthy` is a query that changes later answers, exactly when the provider's recovery was
  due (`Health.AskingChangesTheFuture`) and the next event is an error
  (`Health.OnlyTheNextErrorCanTell`).
* A call of `get_engine` can return an engine already disposed: in the middle of
  `close_all_engines` (`EngineRegistry.FastPathCanReturnDisposed`), and, when a disposal has
  raised, long after it (`FailedDisposalLeavesDisposed`). A registered engine is disposed exactly
  when a teardown has passed its key and the key has stayed registered since
  (`DisposedExactlyBehindAPass`).
* With usage retention of zero days a usage bucket can be a partial count of its hour; with at
  least one day none ever is (`Retention.OneDayIsTheExactMinimum`).
* The endpoint figures of the unified analytics do not add up to its API totals: they miss
  exactly the calls before the first full hour, and have in excess the calls recorded between
  the two queries (`UnifiedAnalytics.EndpointShortfall`).
* `create_dek_for_tenant` called for a tenant that has a key makes its stored fields
  unreadable, unless there are none or the key is the same (`Envelope.CreationOverAKeyLosesFields`);
  the guard that both callers have is enough (`Envelope.GuardedCreationIsSafe`).
* `first_boot` commits twice, and a boot cut off in between is never made up for: whatever
  follows, the tenant has no API key hash exactly as long as that very boot has not made its
  second commit (`Envelope.HalfBootIsFinal`).
* The rate of the decision point is not per tenant: a call that only its rate can stop is denied
  exactly when the grants under the same joined identity, procedure and action, in its own tenant
  and in all others, add up to the limit (`Pdp.DeniedExactlyWhenUsedUp`); so a tenant can be denied
  without a single grant of its own (`Pdp.AnotherTenantUsesUpTheRate`).
* A limit such as "5/second" is understood by the limiter and ignored by the decision point
  (`RateSpecs.ParsersDifferOnSecondsOnly`).
* With a limit below one, the sliding-window limiter lets a key through or not depending on
  whether a cleanup has forgotten it (`LimiterRefinement.LimitBelowOneSeesCleanup`).

Where the code and its text disagree, the model follows the code: the Redis check calls itself a
sliding-minute check but counts fixed minutes; the purge calls itself two-phase but has three
phases; two tests pass a `rate_limiter` to the decision point, which has no such parameter; the
documentation of `normalize_path` replaces an account id that the code keeps
(`Paths.DocumentedExampleIsKept`).

## Model

| member | source | states |
|---|---|---|
| RateLimiter.EvictSplits | src/tiresias/auth/rate_limiter.py:148-152 | eviction cuts the deque into a front of entries at or before the cutoff and a rest that starts after it |
| RateLimiter.SlidingWindowRateLimiter.EvictLoop | src/tiresias/auth/rate_limiter.py:148-152 | the popleft loop computes that eviction |
| RateLimiter.SlidingWindowRateLimiter.Check | src/tiresias/auth/rate_limiter.py:65-101 | answer and new windows, including the unseen key that is let through |
| RateLimiter.SlidingWindowRateLimiter.Record | src/tiresias/auth/rate_limiter.py:103-111 | the reading is appended to the key's window, created if absent; other keys keep theirs |
| RateLimiter.SlidingWindowRateLimiter.GetCount | src/tiresias/auth/rate_limiter.py:113-121 | the number left after eviction, and the evicted window |
| RateLimiter.SlidingWindowRateLimiter.EvictAll | src/tiresias/auth/rate_limiter.py:131-136 | the cleanup loop evicts from every window and finds exactly the keys left empty |
| RateLimiter.SlidingWindowRateLimiter.Cleanup | src/tiresias/auth/rate_limiter.py:123-142 | every window evicted, the empty keys forgotten, and their number returned |
| RateLimiter.CleanedByKey | src/tiresias/auth/rate_limiter.py:123-142 | a cleanup forgets exactly the keys with no entry after the cutoff; the others start after it and have lost nothing later |
| RateLimiter.EvictSuffix | src/tiresias/auth/rate_limiter.py:148-152 | after any eviction the deque is still the history without a front outside later windows |
| LimiterProtocol.SuffixStep | src/tiresias/auth/rate_limiter.py:65-142 | no step of any client, stale clock readings included, drops an entry that a later window could contain |
| LimiterProtocol.AllowedCheckSawSpan | src/tiresias/auth/rate_limiter.py:71-92 | an allowed check has counted every record of a span that its own record can still reach |
| LimiterProtocol.SpanHoldsLimitPlusPending | src/tiresias/auth/rate_limiter.py:65-152 | over every interleaving, any half-open span of one window length holds at most limit + k - 1 records, k being the most clients ever between an allowed check and its record |
| LimiterProtocol.BoundIsReached | src/tiresias/auth/rate_limiter.py:65-111 | for every limit, window and k there is a run that reaches that bound |
| LimiterRefinement.StepRefines | src/tiresias/auth/rate_limiter.py:65-142 | one operation of the pruning limiter answers as the unpruned log does and keeps each deque sorted and a suffix of its log |
| LimiterRefinement.PruningIsInvisible | src/tiresias/auth/rate_limiter.py:65-142 | every single-threaded history of checks, records, counts and cleanups is answered as if nothing were ever dropped |
| Timeline.AfterCounts | src/tiresias/auth/rate_limiter.py:113-121 | the reference count is the number of recorded timestamps after now minus the window |
| LimiterRefinement.AllowedAgainAt | src/tiresias/auth/rate_limiter.py:86-92 | a denied caller is let in exactly from the moment the entry `limit` places from the end leaves the window |
| LimiterRefinement.ResetAtIsExact | src/tiresias/auth/rate_limiter.py:86-92 | denied with count equal to the limit, the caller is allowed at t if and only if t is at or after reset_at |
| LimiterRefinement.LimitBelowOneSeesCleanup | src/tiresias/auth/rate_limiter.py:75-90 | an unseen key is allowed whatever the limit, an emptied one only with a limit of at least one |
| RateSpecs.ParsersDifferOnSecondsOnly | src/tiresias/auth/pdp.py:239-251 | the decision point reads every limit string as the limiter does, except per-second ones, which it cannot read |
| RateSpecs.ReadExactlyWhen | src/tiresias/auth/rate_limiter.py:15-47 | a limit is read exactly when it is digits, a slash and one of the four periods |
| RateSpecs.PeriodsInSeconds | src/tiresias/auth/rate_limiter.py:15-47 | the four periods are 1, 60, 3600 and 86400 seconds |
| RateSpecs.ParseOfFormat | src/tiresias/auth/rate_limiter.py:37-47 | a written count and period are read back, with the seconds of the period |
| MinuteLimiter.TierRpm | src/tiresias/proxy/rate_limit.py:28-36 | every tier, known or not, has a limit of at least 30 |
| MinuteLimiter.TiersGrow | src/tiresias/proxy/rate_limit.py:28-36 | each named tier allows more than the one before, from 30; other names count as starter |
| MinuteLimiter.LocalWindows.CheckLocal | src/tiresias/proxy/rate_limit.py:53-65 | verdict and pruned, possibly extended window of the key; other keys unchanged |
| MinuteLimiter.CheckRedis | src/tiresias/proxy/rate_limit.py:77-96 | admitted exactly while the incremented counter is within the limit, with what is left of it, or denied with a wait of 1 to 60 s; when a command fails, the verdict of the fallback with its effect |
| MinuteLimiter.RedisRemainingIsExact | src/tiresias/proxy/rate_limit.py:85-93 | `remaining` is the number of further INCRs of the bucket that are admitted, whenever they come |
| MinuteLimiter.RemainingIsExact | src/tiresias/proxy/rate_limit.py:59-65 | `remaining` is the number of further requests admitted at once |
| MinuteLimiter.LocalRetryIsEnough | src/tiresias/proxy/rate_limit.py:53-65 | for any denied client, at or above the limit: waiting for Retry-After is enough exactly when the entry `rpm` places from the end has left the window by then |
| MinuteLimiter.RetryAtTheLimit | src/tiresias/proxy/rate_limit.py:60-63 | with exactly `rpm` entries that is so exactly when the exact wait is whole or at most a second |
| MinuteLimiter.LocalRetryCanBeShort | src/tiresias/proxy/rate_limit.py:28-63 | at the limit of every tier a wait of 1.5 s announced as 1 s, after which the client is denied again |
| MinuteLimiter.RetryAfterDowngradeCanBeShort | src/tiresias/proxy/rate_limit.py:53-63 | with twice the present limit in the window, as after a change of tier, a wait of exactly 1 s that is too short |
| MinuteLimiter.RedisRetryReachesNextBucket | src/tiresias/proxy/rate_limit.py:89-92 | waiting for the Redis Retry-After ends in the very next minute bucket |
| MinuteProtocol.IncrSeesAll | src/tiresias/proxy/rate_limit.py:82-88 | an INCR within the margin continues the count of all earlier INCRs of its bucket: its key has not expired |
| MinuteProtocol.BucketAdmitsAtMostRpm | src/tiresias/proxy/rate_limit.py:72-96 | over every run of all pods, a minute bucket admits at most rpm requests through Redis |
| MinuteProtocol.DeniedExactlyWhenUsedUp | src/tiresias/proxy/rate_limit.py:85-93 | in every run an answered request is denied exactly when its minute has already been counted up to rpm, and otherwise told how many INCRs the limit leaves |
| MinuteProtocol.AnyMinuteAdmitsAtMostTwice | src/tiresias/proxy/rate_limit.py:72-96 | dated by what its own pod's clock showed at the minute reading, at most 2 rpm are admitted through Redis in any minute |
| MinuteProtocol.AnyServerMinuteAdmitsAtMostThrice | src/tiresias/proxy/rate_limit.py:72-96 | dated by the INCR on the server's clock, at most 3 rpm are admitted through Redis in any minute over all pods |
| MinuteProtocol.WithoutDelayAtMostTwice | src/tiresias/proxy/rate_limit.py:72-96 | without skew and latency it is at most 2 rpm |
| MinuteProtocol.SkewReachesThrice | src/tiresias/proxy/rate_limit.py:72-96 | for every limit and any skew a run admits 3 rpm through Redis in one minute of the server, each INCR at its reading |
| MinuteProtocol.LatencyReachesFourfold | src/tiresias/proxy/rate_limit.py:53-96 | for every limit and any latency a run of one pod admits 3 rpm through Redis, and 4 rpm with its fallback, in one minute of the server |
| MinuteProtocol.TwiceExactlyWithoutDelay | src/tiresias/proxy/rate_limit.py:72-96 | for every limit, 2 rpm in any minute of one clock, dated by the INCR, holds in all runs if and only if there is neither skew nor latency |
| MinuteProtocol.LocalAdmitsAtMostRpm | src/tiresias/proxy/rate_limit.py:53-65 | any minute of one pod admits at most rpm through its fallback window |
| MinuteProtocol.FallbackDeniesExactlyWhenUsedUp | src/tiresias/proxy/rate_limit.py:53-65 | in every run a request that falls back is admitted exactly when its pod has admitted fewer than rpm locally in the last 60 s |
| MinuteProtocol.SwitchingAdmitsAtMostFourfold | src/tiresias/proxy/rate_limit.py:53-96 | one pod that switches at will between Redis and fallback admits at most 4 rpm in any minute, dated by INCR and by local check |
| MinuteProtocol.SwitchingAdmitsAtMostThrice | src/tiresias/proxy/rate_limit.py:53-96 | when every INCR runs at its reading it is at most 3 rpm |
| MinuteProtocol.ThriceExactlyWithoutLatency | src/tiresias/proxy/rate_limit.py:53-96 | for every limit, 3 rpm in any minute of a switching pod holds in all runs if and only if there is no latency |
| MinuteProtocol.SwitchingReachesThrice | src/tiresias/proxy/rate_limit.py:53-96 | for every limit, and with each INCR at its reading, a run reaches 2 rpm through Redis and with the fallback 3 rpm in one pod, within one minute |
| MinuteProtocol.TooMuchSkewOverAdmits | src/tiresias/proxy/rate_limit.py:81-93 | whenever skew and latency exceed a minute together, for every limit a run admits rpm + 1 requests in one bucket |
| MinuteProtocol.MinuteIsTheExactMargin | src/tiresias/proxy/rate_limit.py:81-93 | for every limit, no run over-admits a bucket if and only if skew plus latency is at most 60 s |
| EngineRegistry.InvStep | src/tiresias/storage/engine.py:57-88 | every step keeps lock ownership, the absence of a key under creation, and the registry as replayed from the history |
| EngineRegistry.LockIsNeverLost | src/tiresias/storage/engine.py:57-119 | in every reachable state a task that waits for the lock can take it, or the task that holds it can go on |
| EngineRegistry.OneEnginePerInterval | src/tiresias/storage/engine.py:57-88 | between two completed teardowns a key is published at most once and all calls returning get the same engine |
| EngineRegistry.ReturnsTheRegistered | src/tiresias/storage/engine.py:57-62 | a returned engine is the registered one at the step that returns it |
| EngineRegistry.RegistryStillDuringClose | src/tiresias/storage/engine.py:114-119 | the registry does not change while close_all_engines iterates over it across awaits |
| EngineRegistry.DisposedExactlyBehindAPass | src/tiresias/storage/engine.py:114-119 | in every run a registered engine is disposed if and only if some teardown had passed its key and the key has stayed registered ever since |
| EngineRegistry.DisposedOnlyBehindClosePass | src/tiresias/storage/engine.py:114-119 | where no disposal raises, that teardown is one under way |
| EngineRegistry.FastPathCanReturnDisposed | src/tiresias/storage/engine.py:57-58 | a run in which the fast path returns an engine already disposed |
| EngineRegistry.FailedDisposalLeavesDisposed | src/tiresias/storage/engine.py:114-119 | a run in which a disposal raises and a later call, with no teardown under way, returns a disposed engine |
| EngineRegistry.PublishedEnginesAreNeverLost | src/tiresias/storage/engine.py:85-119 | every engine ever published is registered or disposed, also when disposals fail |
| Aggregates.GroupByIsExact | src/tiresias/analytics/api_telemetry.py:37-51 | a grouped query has a group for exactly the keys some row maps to, with the count, sums and extremes of exactly those rows |
| Aggregates.GroupsAddUp | src/tiresias/analytics/api_telemetry.py:37-51 | the groups of a query add up to the selected rows |
| EndpointBuckets.ApiTelemetry.RecordApiCall | src/tiresias/proxy/generic.py:51-102 | the row is logged and the buckets stay those of the whole log |
| EndpointBuckets.ApiTelemetry.UpsertEndpointBucket | src/tiresias/proxy/generic.py:105-153 | find-or-create and the field-by-field update merge exactly one call into the bucket of its key |
| EndpointBuckets.BucketsRefineLog | src/tiresias/proxy/generic.py:55-153 | whatever is grouped by a function of the bucket key comes out of the buckets as it comes out of the log |
| EndpointBuckets.KeysDistinct | src/tiresias/proxy/generic.py:117-142 | no two buckets ever have the same key |
| EndpointBuckets.SameBucketExactlyWhen | src/tiresias/proxy/generic.py:51-52 | two calls go to one bucket exactly when tenant, service, method, pattern and clock hour agree |
| EndpointBuckets.BucketDescribesItsRows | src/tiresias/proxy/generic.py:105-153 | each bucket holds count, errors, latency sum, minimum, maximum and cost of exactly the log rows with its key |
| Datetimes.BucketIsTheHour | src/tiresias/proxy/generic.py:51-52 | a bucket starts on a full clock hour and contains exactly the hour from there |
| Datetimes.SameBucketHour | src/tiresias/proxy/interceptor.py:25-26 | two instants share a bucket exactly when they lie in the same clock hour |
| Datetimes.CeilHourIsLeast | src/tiresias/analytics/api_telemetry.py:28-33 | the cutoff rounded up is the least full hour not before it |
| Datetimes.HourFilter | src/tiresias/analytics/api_telemetry.py:28-33 | a bucket's hour is at or after `since` exactly when the row is at or after `since` rounded up to the hour |
| EndpointBuckets.EndpointQueryReadsFullHours | src/tiresias/analytics/api_telemetry.py:13-53 | the endpoint query over buckets equals the log aggregate from the next full hour on, service filter included |
| EndpointBuckets.GetEndpointMetrics | src/tiresias/analytics/api_telemetry.py:53-79 | the output list reports each group once, with its rates and averages |
| EndpointBuckets.MetricsAreTheLog | src/tiresias/analytics/api_telemetry.py:28-79 | each row of the list gives count, failures (status 400 or more), rate, mean, extremes and cost of exactly the logged calls to its endpoint from the first full hour on |
| EndpointBuckets.EveryCallIsReported | src/tiresias/analytics/api_telemetry.py:28-79 | every endpoint with such a call has a row |
| EndpointBuckets.ReportsAddUp | src/tiresias/analytics/api_telemetry.py:53-79 | the request counts of the list add up to those of the groups |
| UnifiedAnalytics.EachTurnCountsOnce | src/tiresias/analytics/unified.py:47-155 | one more turn adds itself once to the LLM figures, the breakdown by its model and the totals, if it is the tenant's, recent and not deleted |
| UnifiedAnalytics.EachCallCountsOnce | src/tiresias/analytics/unified.py:106-155 | one more call adds itself once to the API figures, totals, its endpoint and, if it failed, to the error figures |
| UnifiedAnalytics.ByModelAddsUp | src/tiresias/analytics/unified.py:47-103 | the model breakdown sums to the LLM totals, in requests and money, plus the turns recorded between the two queries |
| UnifiedAnalytics.ErrorBreakdownAddsUp | src/tiresias/analytics/unified.py:119-132 | the error breakdown differs from the error total by the errors between the two clock readings and those recorded between the two queries, so not at all for one reading and one log |
| UnifiedAnalytics.EndpointShortfall | src/tiresias/analytics/unified.py:106-140 | endpoint counts and costs fall short of the API totals by exactly the calls before the first full hour, and exceed them by the calls recorded between the two queries |
| UnifiedAnalytics.EndpointListShortfall | src/tiresias/analytics/unified.py:106-140 | the same for the request counts and costs of the returned endpoint list |
| UnifiedAnalytics.LlmErrorsAreTheHistory | src/tiresias/analytics/unified.py:62-72 | after any run of turns and purges the LLM error count, summed over usage buckets, is the number of failed turns since the first full hour, for a window not reaching back before the last usage cutoff |
| TenantCache.Tenants.Lookup | src/tiresias/proxy/saas_auth.py:110-116 | a hit exactly when an entry is younger than 60 s |
| TenantCache.Tenants.Populate | src/tiresias/proxy/saas_auth.py:110-144 | from now on the key is answered with this identity until 60 s after the reading from before the lookup and not later, whatever was cached; other keys are answered as before |
| TenantCache.Tenants.Clear | src/tiresias/proxy/saas_auth.py:68-70 | no key is answered from the cache at any later time until stored anew |
| TenantCache.RunInv | src/tiresias/proxy/saas_auth.py:85-150 | in every reachable state each cache entry was true of the table at or after its timestamp |
| TenantCache.LookupFollowsTable | src/tiresias/proxy/saas_auth.py:119-141 | a lookup finds nobody exactly when no row has the key hash, and otherwise a tenant whose row has it, with its tier |
| TenantCache.ResolvedIdentityWasHeld | src/tiresias/proxy/saas_auth.py:110-150 | a request resolved at t got an identity the table held later than t - 60 s, and on a miss during the request itself |
| TenantCache.RevokedIsNotServedFromCache | src/tiresias/proxy/saas_auth.py:110-148 | a mapping revoked at r is never served from cache at or after r + 60, slow older lookups included |
| TenantCache.RevokedCanBeServedForAMinute | src/tiresias/proxy/saas_auth.py:44-45 | for every t below 60 s a run serves, from cache at t, a mapping revoked right after time 0 |
| Retention.TenantDatabase.UpsertUsageBucket | src/tiresias/proxy/interceptor.py:125-160 | the bucket of tenant and hour gains one turn |
| Retention.TenantDatabase.RecordTurn | src/tiresias/proxy/interceptor.py:58-102 | the row is inserted and its hour gains one successful turn |
| Retention.TenantDatabase.RecordErrorTurn | src/tiresias/proxy/interceptor.py:112-122 | only the usage bucket changes, by one error |
| Retention.TenantDatabase.SoftDeletePhase | src/tiresias/storage/retention.py:45-59 | no row comes or goes; exactly the live rows past retention lose their payload and are marked; the row count is the number of rows that changed |
| Retention.TenantDatabase.HardDeletePhase | src/tiresias/storage/retention.py:61-72 | the first DELETE statement; rows before are rows after plus its row count |
| Retention.TenantDatabase.UsagePhase | src/tiresias/storage/retention.py:74-84 | the second DELETE statement; buckets before are buckets after plus its row count |
| Retention.TenantDatabase.RunRetentionPurge | src/tiresias/storage/retention.py:22-95 | the tables after the three phases, and rows before = rows after + hard_deleted |
| Retention.PurgeByRow | src/tiresias/storage/retention.py:45-72 | which rows go, which lose their payload and mark, and which stay as they are |
| Retention.PurgeByBucket | src/tiresias/storage/retention.py:74-84 | a usage bucket stays, unchanged, exactly if its hour began no longer ago than the retention |
| Retention.PurgeIsIdempotent | src/tiresias/storage/retention.py:35-84 | a second purge at the same instant changes nothing |
| Retention.RowsLiveTheirLife | src/tiresias/storage/retention.py:35-72 | in every reachable state a payload is null exactly when the row is marked, all else is as inserted, and no row is gone before age R + 7 days |
| Retention.LifecycleIsMonotone | src/tiresias/storage/retention.py:45-72 | a row only moves from absent to live to soft-deleted to removed, and its mark is set once |
| Retention.DataIsGoneInTime | src/tiresias/storage/retention.py:35-72 | with purges at least every P, payloads are gone by age R + P and rows by R + 7 days + 2P |
| Retention.HistoryAppend | src/tiresias/proxy/interceptor.py:125-160 | bumping a bucket keeps pace with tokens, requests, cost and errors counted over the full history |
| Retention.SameUsageBucketExactlyWhen | src/tiresias/proxy/interceptor.py:25-26 | two turns go to one usage bucket exactly when tenant and clock hour agree |
| Retention.RecentUsageIsExact | src/tiresias/storage/retention.py:74-84 | every usage bucket, present or absent, not before the last cutoff agrees with the full history of turns, whatever happened to the audit rows |
| Retention.ZeroRetentionCountsPartially | src/tiresias/storage/retention.py:38-84 | with no usage retention a run leaves a bucket that is a partial count |
| Retention.OneDayIsTheExactMinimum | src/tiresias/storage/retention.py:38-84 | no bucket is ever a partial count if and only if usage retention is at least one day |
| Envelope.SealOpensUnderItsKeyOnly | src/tiresias/encryption/providers/local.py:70-77 | nonce-prefixed data opens to its content under its key and to nothing under another |
| Envelope.NonceComesFirst | src/tiresias/encryption/aead.py:15-37 | sealed data starts with its 12-byte nonce, and only data that can hold one opens |
| Envelope.FieldRoundTrip | src/tiresias/encryption/aead.py:15-37 | a field decrypts to its plaintext under its own key only |
| Envelope.EnvelopeEncryption.CreateDekForTenant | src/tiresias/encryption/envelope.py:56-77 | the row is created or overwritten with the wrapped key and provider name, and the key cached |
| Envelope.EnvelopeEncryption.GetOrCreateDek | src/tiresias/encryption/envelope.py:39-54 | cached, unwrapped or created key, with table and cache after each, and the error on a wrong provider |
| Envelope.EnvelopeEncryption.RotateDek | src/tiresias/encryption/envelope.py:87-117 | succeeds exactly when the old provider unwraps the key; then the row holds the same key re-wrapped under the new provider's name and the cache holds it; otherwise nothing changes |
| Envelope.RotationRewraps | src/tiresias/encryption/envelope.py:87-117 | in every reachable state a rotation away from the provider that last wrapped the key succeeds: the key then unwraps for the new provider alone, and the rest of the row, every other row and cache stay |
| Envelope.Boot | src/tiresias/bootstrap.py:35-81 | nothing for a tenant with a row; otherwise the tenant alone gets a row whose key its provider unwraps, with key hash and retention |
| Envelope.HalfBootIsFinal | src/tiresias/bootstrap.py:48-72 | in every run, a tenant once between the two commits of its boot keeps its row, and has no key hash exactly as long as that boot has not finished |
| Envelope.StepKeepsInv | src/tiresias/encryption/envelope.py:39-117 | every transaction, either half of a boot included, keeps: stored wrapping and provider name, all caches, and all stored fields agree with the tenant's one key |
| Envelope.DekIsWriteOnce | src/tiresias/encryption/envelope.py:39-117 | over every run of boots, loads and rotations a tenant's key never changes once set |
| Envelope.StoredFieldsStayReadable | src/tiresias/encryption/envelope.py:39-117 | every field ever stored decrypts later, with any cached key and with the key loaded by the provider that last wrapped it |
| Envelope.MismatchedProviderFails | src/tiresias/encryption/envelope.py:48-51 | a provider that did not wrap the key last gets an error and overwrites nothing |
| Envelope.CreationOverAKeyLosesFields | src/tiresias/encryption/envelope.py:56-77 | in every reachable state, after create_dek_for_tenant all stored fields of the tenant open with the key then loaded if and only if there are none or the key is the tenant's own |
| Envelope.GuardedCreationIsSafe | src/tiresias/encryption/envelope.py:39-54 | in every reachable state the guard (no key in the table) makes that so |
| Pdp.FirstMatchIsFirst | src/tiresias/policy/sop_policy.py:27-32 | the rule found is the first that matches, and none is found only if none matches |
| Pdp.WindowIsCyclic | src/tiresias/auth/pdp.py:221-237 | for times of day the window test is membership in the cyclic interval modulo 1440 |
| Pdp.WrittenWindowIsCyclic | src/tiresias/auth/pdp.py:221-237 | a window written as HH:MM-HH:MM lets a call through exactly in that cyclic interval of the day |
| Pdp.ExecutionLog.Record | src/tiresias/auth/pdp.py:38-39 | the reading is appended under the joined key |
| Pdp.ExecutionLog.CountSince | src/tiresias/auth/pdp.py:41-43 | the number of entries at or after `since`; looking creates an empty list at most |
| Pdp.PolicyDecisionPoint.CheckRateLimit | src/tiresias/auth/pdp.py:253-267 | fewer than max_count entries in the window, or an unreadable limit; no entry changes |
| Pdp.PolicyDecisionPoint.CheckConditions | src/tiresias/auth/pdp.py:123-174 | window, rate and spend tests, without effect on the entries |
| Pdp.PolicyDecisionPoint.Decide | src/tiresias/auth/pdp.py:71-213 | the verdict, one sop_check and then one grant or deny event whose id is the audit reference, an approval id exactly when queued, and a log entry exactly when granted |
| Pdp.PolicyDecisionPoint.Evaluate | src/tiresias/auth/pdp.py:54-213 | after any series of calls the execution log is the log of the grants that GrantsOf defines for those calls, and the next verdict is drawn from them |
| Pdp.VerdictInFull | src/tiresias/auth/pdp.py:82-213 | the first matching rule decides: denied if outside its window of the day, its rate used up or its spend exceeded, else queued if it asks for approval, else granted; what cannot be read stops nothing; the event is a denial exactly for a denied call |
| Pdp.VerdictWithoutRule | src/tiresias/auth/pdp.py:88-122 | without a matching rule, queued exactly when the default says so and else denied, with a denial event |
| Pdp.JoinedKeysCollideExactlyWhen | src/tiresias/auth/pdp.py:35-36 | two requests share a key of the execution log exactly when the colon-separated pieces of identity, procedure and action agree |
| Pdp.GrantSawTheSpan | src/tiresias/auth/pdp.py:264-267 | a granted call counted every earlier grant of its key in a span it completes |
| Pdp.RateHoldsInEverySpan | src/tiresias/auth/pdp.py:35-43 | any closed span as long as a rate's window holds at most max_count grants under it, per joined key, collisions included |
| Pdp.RequestStaysWithinItsRate | src/tiresias/auth/pdp.py:141-147 | the same bound per identity, tenant, procedure and action |
| Pdp.TenantsShareTheRate | src/tiresias/auth/pdp.py:35-43 | one identity's grants of a procedure and action under one rate, over all tenants together, stay within it |
| Pdp.DeniedExactlyWhenUsedUp | src/tiresias/auth/pdp.py:141-174 | after any history of grants, a call that nothing but its rate can stop is denied if and only if the grants under its joined key, own tenant and others together, have reached the limit |
| Pdp.AnotherTenantUsesUpTheRate | src/tiresias/auth/pdp.py:35-43 | under any policy that limits both tenants to one and stops nothing else, a grant in one has the same request denied in the other, which has had none |
| Pdp.OnceADayLimitsToOne | src/tiresias/auth/pdp.py:239-267 | a rule of "1/day" is such a policy for every call |
| Health.HealthTracker.RecordSuccess | src/tiresias/providers/health.py:29-33 | the provider is as new; others unchanged; invariant kept |
| Health.HealthTracker.RecordError | src/tiresias/providers/health.py:35-40 | one more consecutive error at this time; others unchanged; invariant kept |
| Health.HealthTracker.IsHealthy | src/tiresias/providers/health.py:42-50 | the answer after a recovery that has come due, and its effect on the state |
| Health.HealthTracker.GetOrderedProviders | src/tiresias/providers/health.py:52-56 | two scans of the cascade with one reading per query, and their effect |
| Health.HealthTracker.Reset | src/tiresias/providers/health.py:58-61 | every known provider is as new |
| Health.HealthTracker.Status | src/tiresias/providers/health.py:63-72 | one row per cascade entry with its refreshed health and error count, never labelled degraded by the dashboard rule |
| Health.OneReadingPartitions | src/tiresias/providers/health.py:52-56 | with one clock value the order is the stable healthy-first partition and a permutation of the cascade |
| Health.PlaceInOrder | src/tiresias/providers/health.py:52-56 | with one reading a healthy provider comes after the healthy ones before it, an unhealthy one after all healthy and the unhealthy before it |
| Health.OmitsExactlyTheRecovering | src/tiresias/providers/health.py:52-56 | with an advancing clock and distinct names each provider comes once, except those recovering between their two looks, which are omitted |
| Health.EmptyExactlyWhenAllRecover | src/tiresias/providers/health.py:52-56 | with an advancing clock the order is empty exactly when every provider recovers between its two looks |
| Health.HealthIsAFunctionOfHistory | src/tiresias/providers/health.py:29-50 | in every reachable state healthy means fewer than three errors since the last success, reset or observed recovery, and queries depend on that and the last error's time only |
| Health.TrackerFollowsHistory | src/tiresias/providers/health.py:22-61 | over every sequence of calls on the tracker, by any requests in any order, a provider's state is that of its own events |
| Health.AskingChangesTheFuture | src/tiresias/providers/health.py:35-50 | whether a provider survives its next error depends on whether somebody asked, if and only if its recovery was due |
| Health.OnlyTheNextErrorCanTell | src/tiresias/providers/health.py:29-61 | some continuation of a next event tells whether somebody asked if and only if the recovery was due and that event is an error |
| Failover.StatusIsClassifiedOnce | src/tiresias/providers/base.py:34-41 | each status is retried, rejected or a success, and for Ollama never rejected |
| Failover.ProviderRouter.ChooseOrder | src/tiresias/providers/router.py:35-60 | the pinned provider alone, without touching health, or the health order |
| Failover.PinIsThePrefix | src/tiresias/providers/router.py:35-42 | a model name pins the lower-cased part before its first slash if the cascade has it, and nothing without a slash |
| Failover.ProviderRouter.TryProviders | src/tiresias/providers/router.py:63-133 | attempts the prefix up to the first outcome that does not move on, exhausted if and only if all move on, and the tracker after the failures and a success |
| Failover.ResultByOutcome | src/tiresias/providers/router.py:63-133 | the loop goes on after a timeout, a failed request, a status of 500 or more or 429, at Ollama any of 400 or more; the first other outcome gives the result: raised, answered below 400, or rejected with its status |
| Failover.TrackerByOutcome | src/tiresias/providers/router.py:78-97 | after the loop each provider has one more consecutive error for each attempt that moved on, the last dated by it; one that answered is as new |
| Failover.ProviderRouter.Execute | src/tiresias/providers/router.py:44-133 | the whole request: result and tracker, pinned or not; a pinned one touches nobody else's health |
| Failover.OthersUntouched | src/tiresias/providers/router.py:63-97 | providers not attempted keep their state |
| Failover.ExhaustedWithoutAttempt | src/tiresias/providers/router.py:60-133 | a request without a pin is exhausted without any attempt if and only if every provider recovers between the two passes |
| Failover.RecoveryCanEmptyTheOrder | src/tiresias/providers/health.py:52-56 | any cascade, all of it down, is left with nobody to try if the two passes fall around the recovery |
| Strings.JoinOfSplit | src/tiresias/proxy/generic.py:41-48 | joining the parts of a split gives the text back |
| Strings.SplitOfJoin | src/tiresias/proxy/generic.py:41-48 | splitting a join of separator-free parts gives the parts back |
| Paths.NormalizePath | src/tiresias/proxy/generic.py:31-48 | the loop computes the segment-wise pattern |
| Paths.IdsAre | src/tiresias/proxy/generic.py:20-28 | a segment is replaced exactly when, less one final newline, it is a UUID, a number, a prefixed identifier, or 24 or more hexadecimal digits |
| Paths.DocumentedExampleIsKept | src/tiresias/proxy/generic.py:31-39 | one of the three documented examples of an ID is not replaced |
| Paths.SegmentsOfNormalized | src/tiresias/proxy/generic.py:31-48 | a pattern has the normalised segments of its path, as many as before |
| Paths.NormalizeIsIdempotent | src/tiresias/proxy/generic.py:31-48 | normalising twice is normalising once |
| Paths.SamePatternExactlyWhen | src/tiresias/proxy/generic.py:31-48 | two paths share a pattern exactly when they differ only where both segments show as the placeholder |
| Paths.TableCost | src/tiresias/tracking/api_pricing.py:60-76 | the exact-then-scan lookup is the longest-prefix price, or the default |
| Paths.CostIsUnique | src/tiresias/tracking/api_pricing.py:64-76 | that price does not depend on the order of the table |
| Paths.CalculateApiCost | src/tiresias/tracking/api_pricing.py:42-76 | nothing for a missing or unknown service, otherwise the price in its table |
| Paths.SameAccountingForIds | src/tiresias/proxy/generic.py:172-218 | two calls of one tenant, service, method and hour whose paths differ only in ID-like segments, leading slashes included, share pattern and bucket key; they cost the same if both or neither got a response, and otherwise exactly if the pattern is free |
| Pricing.FirstIsLongest | src/tiresias/tracking/pricing.py:73-79 | in a table where no earlier prefix starts a later one, first match is longest match |
| Pricing.TableIsLongestFirst | src/tiresias/tracking/pricing.py:42-70 | the table of the source is such a table, and all its entries are priced |
| Pricing.ResolutionIsLongestPrefix | src/tiresias/tracking/pricing.py:73-79 | for every model string the resolution is the model, or the longest-prefix entry, or none, and is priced |
| Pricing.EachTokenHasItsPrice | src/tiresias/tracking/pricing.py:82-89 | each prompt token costs the input price and each completion token the output price of the resolved model, the latter never the smaller; an unresolved name costs nothing |
| Pricing.RoundingError | src/tiresias/tracking/pricing.py:82-89 | rounding to eight decimals gives a nearest multiple, at most five units away |
| Pricing.RoundedTotalIsClose | src/tiresias/tracking/pricing.py:82-89 | the sum of n rounded turn costs is within 5n units of the exact total |

## Left out

- MinuteProtocol: Redis keys are lost by expiry only; a Redis restart or eviction under memory pressure is not modelled. INCR and EXPIRE that fail late on the server, beyond the assumed latency, are not modelled either.
- EndpointBuckets.ApiTelemetry.RecordApiCall: one transaction is one step; two sessions that upsert the same bucket across their awaits, and lose an update, are not modelled.
- EndpointBuckets.GetEndpointMetrics: does not round rates, averages and costs to the decimals the source shows; nor do the unified totals.
- UnifiedAnalytics.ByModelAddsUp: a retention purge between the two LLM queries is not modelled; rows are only added.
- Retention.TenantDatabase.RecordTurn: the row's timestamp is that of its transaction; a turn that commits long after reading the clock is not modelled.
- Envelope.EnvelopeEncryption.GetOrCreateDek: one call is one transaction; two first calls for one tenant that overlap across their awaits are not modelled. The random key and nonce are arguments.
- Envelope.Lawful: the cipher is ideal (it opens under its own key only; SomeCryptoIsLawful shows one); AES-GCM, HKDF, SHA-256 and the cloud key services are not modelled.
- Pdp.PolicyDecisionPoint.Evaluate: policies are fixed; the YAML loader, reason texts and advisory warnings are left out. The endpoint builds a new decision point for each request, so the rate results are per instance.
- RateSpecs.ParseOfFormat: decimal digits beyond ASCII, which the pattern also accepts, are not modelled.
- Health.HealthTracker.Status: the records of providers are values in a map, since none is shared outside the tracker.
- Failover.ProviderRouter.TryProviders: request and response bodies, headers and the messages of errors are left out; every other exception aborts the loop before health is touched, so one raised while a successful response is parsed is not modelled. Its tracker states are those of one request alone; calls of other requests between its attempts are covered by Health.TrackerFollowsHistory only.
- EngineRegistry.OneEnginePerInterval: a task that is cancelled in the middle of a step's await is not modelled, except as a failing creation or disposal.
- Pricing.RoundedTotalIsClose: costs are whole numbers of 1e-9 USD, not binary floating point.
- HTTP forwarding, streaming, middleware plumbing, dashboard routes and pages: no state with a hard property.
- SQL engines: tables are maps or sequences, statements are functions on them, and row order is arbitrary.
- SpendTracker, session tagging, percentiles, token counting, provider request formats: none of the state above is read or written by them; their results enter as arguments.
