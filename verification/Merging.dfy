/** What UpdateQueue's mask and the queue defaults do, component by component. */
module Merging {
  import opened Types

  // ---- defaults ----

  /** The burst that goes with a dispatch rate. */
  predicate BurstOf(rate: real, burst: int) {
    && (rate < 0.0 <==> burst == 0)
    && (0.0 <= rate < 1.0 <==> burst == 5)
    && (1.0 <= rate < 50.0 <==> burst == 10)
    && (50.0 <= rate < 500.0 <==> burst == 20)
    && (500.0 <= rate <==> burst == 100)
  }

  /** A set value stays, zero stands for the default. */
  predicate Filled(value: int, default: int, result: int) {
    (value == 0 ==> result == default) && (value != 0 ==> result == value)
  }

  predicate RateLimitsFilled(rl: RateLimits, result: RateLimits) {
    && (rl.maxDispatchesPerSecond == 0.0 ==> result.maxDispatchesPerSecond == 500.0)
    && (rl.maxDispatchesPerSecond != 0.0 ==> result.maxDispatchesPerSecond == rl.maxDispatchesPerSecond)
    && BurstOf(result.maxDispatchesPerSecond, result.maxBurstSize)
    && Filled(rl.maxConcurrentDispatches, 1000, result.maxConcurrentDispatches)
  }

  predicate RetryConfigFilled(rc: RetryConfig, result: RetryConfig) {
    && Filled(rc.maxAttempts, 100, result.maxAttempts)
    && result.maxRetryDuration == rc.maxRetryDuration
    && Filled(rc.minBackoff, 100_000_000, result.minBackoff)
    && Filled(rc.maxBackoff, 3_600_000_000_000, result.maxBackoff)
    && Filled(rc.maxDoublings, 16, result.maxDoublings)
  }

  /** The same queue but for the parts that a mask can name. */
  predicate SameUnmaskable(a: Queue, b: Queue) {
    && a.name == b.name && a.state == b.state && a.taskTTL == b.taskTTL && a.tombstoneTTL == b.tombstoneTTL
    && a.pull == b.pull && a.purgeTime == b.purgeTime
  }

  /** A new queue gets exactly these defaults and keeps everything else. */
  lemma DefaultsFilled(q: Queue)
    ensures
      var d := ApplyQueueDefaults(q);
      && RateLimitsFilled(q.rateLimits, d.rateLimits) && RetryConfigFilled(q.retryConfig, d.retryConfig)
      && SameUnmaskable(q, d)
      && d.appEngineRoutingOverride == q.appEngineRoutingOverride && d.httpOverride == q.httpOverride
  {
  }

  // ---- the masked merge ----

  /** Each masked part comes from the update, each other part from the stored queue; an empty mask names all. */
  predicate Merged(stored: Queue, update: Queue, fields: seq<QueueField>, result: Queue) {
    && RateLimitsFilled(if fields == [] || FieldRateLimits in fields then update.rateLimits else stored.rateLimits,
                        result.rateLimits)
    && RetryConfigFilled(if fields == [] || FieldRetryConfig in fields then update.retryConfig else stored.retryConfig,
                         result.retryConfig)
    && result.appEngineRoutingOverride ==
       (if fields == [] || FieldAppEngineRoutingOverride in fields then update.appEngineRoutingOverride
        else stored.appEngineRoutingOverride)
    && result.httpOverride == (if fields == [] || FieldHTTPOverride in fields then update.httpOverride else stored.httpOverride)
    && SameUnmaskable(stored, result)
  }

  /** The fields of a mask take effect whatever their order and however often they are named. */
  lemma {:induction false} MaskTakesEffect(stored: Queue, update: Queue, fields: seq<QueueField>)
    ensures
      var q := SetFields(stored, update, fields);
      && q.rateLimits == (if FieldRateLimits in fields then update.rateLimits else stored.rateLimits)
      && q.retryConfig == (if FieldRetryConfig in fields then update.retryConfig else stored.retryConfig)
      && q.appEngineRoutingOverride ==
         (if FieldAppEngineRoutingOverride in fields then update.appEngineRoutingOverride else stored.appEngineRoutingOverride)
      && q.httpOverride == (if FieldHTTPOverride in fields then update.httpOverride else stored.httpOverride)
      && SameUnmaskable(stored, q)
    decreases |fields|
  {
    if fields != [] {
      MaskTakesEffect(SetField(stored, update, fields[0]), update, fields[1..]);
      assert fields == [fields[0]] + fields[1..];
    }
  }

  lemma AllAreMasked(f: QueueField)
    ensures f in ALL_FIELDS
  {
    assert ALL_FIELDS[0] == FieldRateLimits && ALL_FIELDS[1] == FieldRetryConfig;
    assert ALL_FIELDS[2] == FieldAppEngineRoutingOverride && ALL_FIELDS[3] == FieldHTTPOverride;
  }

  /** UpdateQueue on an existing queue changes exactly the masked parts, and fills defaults. */
  lemma MergeIsMasked(stored: Queue, update: Queue, fields: seq<QueueField>)
    ensures Merged(stored, update, fields, MergeUpdate(stored, update, fields))
  {
    var mask := if fields == [] then ALL_FIELDS else fields;
    MaskTakesEffect(stored, update, mask);
    DefaultsFilled(SetFields(stored, update, mask));
    AllAreMasked(FieldRateLimits);
    AllAreMasked(FieldRetryConfig);
    AllAreMasked(FieldAppEngineRoutingOverride);
    AllAreMasked(FieldHTTPOverride);
  }
}
