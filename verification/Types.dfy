/**
 The neutral queue resource of the engine (core/types.go) and its defaults
 (core/queue.go). Durations and times are integer nanoseconds; an absent pointer
 is None and the zero time is None.
 */
module Types {
  import opened Wrappers

  const MILLISECOND: int := 1_000_000
  const SECOND: int := 1000 * MILLISECOND

  datatype State = Running | Paused | Disabled

  datatype RateLimits = RateLimits(
    maxDispatchesPerSecond: real,
    maxBurstSize: int,
    maxConcurrentDispatches: int)

  datatype RetryConfig = RetryConfig(
    maxAttempts: int,
    maxRetryDuration: int,
    minBackoff: int,
    maxBackoff: int,
    maxDoublings: int)

  datatype AppEngineRouting = AppEngineRouting(service: string, version: string, instance: string, host: string)

  datatype AuthKind = AuthNone | AuthOIDC | AuthOAuth

  datatype Auth = Auth(kind: AuthKind, serviceAccountEmail: string, audience: string, scope: string)

  datatype HTTPOverride = HTTPOverride(
    scheme: string,
    host: string,
    port: string,
    path: string,
    query: string,
    alwaysEnforce: bool,
    httpMethod: string,
    headers: map<string, string>,
    auth: Option<Auth>)

  datatype Queue = Queue(
    name: string,
    state: State,
    rateLimits: RateLimits,
    retryConfig: RetryConfig,
    taskTTL: int,
    tombstoneTTL: int,
    pull: bool,
    appEngineRoutingOverride: Option<AppEngineRouting>,
    httpOverride: Option<HTTPOverride>,
    purgeTime: Option<int>)

  /** The mutable fields UpdateQueue can address. */
  datatype QueueField = FieldRateLimits | FieldRetryConfig | FieldAppEngineRoutingOverride | FieldHTTPOverride

  /** The token-bucket burst derived from the dispatch rate. */
  function ComputeBurstSize(rps: real): int {
    if rps < 0.0 then 0
    else if rps >= 500.0 then 100
    else if rps >= 50.0 then 20
    else if rps >= 1.0 then 10
    else 5
  }

  function DefaultRateLimits(rl: RateLimits): RateLimits {
    var rate := if rl.maxDispatchesPerSecond == 0.0 then 500.0 else rl.maxDispatchesPerSecond;
    RateLimits(
      rate,
      ComputeBurstSize(rate),
      if rl.maxConcurrentDispatches == 0 then 1000 else rl.maxConcurrentDispatches)
  }

  function DefaultRetryConfig(rc: RetryConfig): RetryConfig {
    RetryConfig(
      if rc.maxAttempts == 0 then 100 else rc.maxAttempts,
      rc.maxRetryDuration,
      if rc.minBackoff == 0 then 100 * MILLISECOND else rc.minBackoff,
      if rc.maxBackoff == 0 then 3600 * SECOND else rc.maxBackoff,
      if rc.maxDoublings == 0 then 16 else rc.maxDoublings)
  }

  /** Fills unset rate and retry fields with the Cloud Tasks defaults. */
  function ApplyQueueDefaults(q: Queue): Queue {
    q.(rateLimits := DefaultRateLimits(q.rateLimits), retryConfig := DefaultRetryConfig(q.retryConfig))
  }

  /** Copies one masked field of an update onto the stored queue. */
  function SetField(stored: Queue, update: Queue, f: QueueField): Queue {
    match f
    case FieldRateLimits => stored.(rateLimits := update.rateLimits)
    case FieldRetryConfig => stored.(retryConfig := update.retryConfig)
    case FieldAppEngineRoutingOverride => stored.(appEngineRoutingOverride := update.appEngineRoutingOverride)
    case FieldHTTPOverride => stored.(httpOverride := update.httpOverride)
  }

  function SetFields(stored: Queue, update: Queue, fields: seq<QueueField>): Queue
    decreases |fields|
  {
    if fields == [] then stored else SetFields(SetField(stored, update, fields[0]), update, fields[1..])
  }

  const ALL_FIELDS: seq<QueueField> :=
    [FieldRateLimits, FieldRetryConfig, FieldAppEngineRoutingOverride, FieldHTTPOverride]

  /** The stored queue after UpdateQueue: an empty mask means every field. */
  function MergeUpdate(stored: Queue, update: Queue, fields: seq<QueueField>): Queue {
    ApplyQueueDefaults(SetFields(stored, update, if fields == [] then ALL_FIELDS else fields))
  }
}
