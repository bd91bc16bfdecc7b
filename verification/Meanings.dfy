/** What each field of a v2beta3 queue means to the engine, and the engine's queue to the API. */
module Meanings {
  import opened Wrappers
  import opened Types
  import opened Adapter
  import Decimal

  // ---- methods ----

  /** The names of the seven methods of the API; an unknown number is POST, an unknown name too. */
  lemma MethodNames(m: int)
    ensures
      var name := HttpMethodName(m);
      && (name == "GET" <==> m == 2) && (name == "HEAD" <==> m == 3) && (name == "PUT" <==> m == 4)
      && (name == "DELETE" <==> m == 5) && (name == "PATCH" <==> m == 6) && (name == "OPTIONS" <==> m == 7)
      && (name == "POST" <==> m < 2 || m > 7)
  {
  }

  lemma MethodNumbers(name: string)
    ensures
      var m := HttpMethodEnum(name);
      && (m == 2 <==> name == "GET") && (m == 3 <==> name == "HEAD") && (m == 4 <==> name == "PUT")
      && (m == 5 <==> name == "DELETE") && (m == 6 <==> name == "PATCH") && (m == 7 <==> name == "OPTIONS")
      && (m == 1 <==> name !in {"GET", "HEAD", "PUT", "DELETE", "PATCH", "OPTIONS"})
  {
  }

  // ---- HTTP override ----

  /** The credentials of an override, kind by kind. */
  predicate AuthMeans(a: ProtoAuth, core: Option<Auth>) {
    match a
    case NoToken => core == None
    case OidcToken(email, audience) =>
      && core.Some? && core.value.kind == AuthOIDC
      && core.value.serviceAccountEmail == email && core.value.audience == audience && core.value.scope == ""
    case OauthToken(email, scope) =>
      && core.Some? && core.value.kind == AuthOAuth
      && core.value.serviceAccountEmail == email && core.value.scope == scope && core.value.audience == ""
  }

  /** Each set part of the URI override is taken as it is; each unset one is empty. */
  predicate UriMeans(u: UriOverride, o: HTTPOverride) {
    && (u.scheme == Some(SchemeHttp) <==> o.scheme == "http")
    && (u.scheme == Some(SchemeHttps) <==> o.scheme == "https")
    && (u.scheme != Some(SchemeHttp) && u.scheme != Some(SchemeHttps) ==> o.scheme == "")
    && (u.host.Some? ==> o.host == u.host.value) && (u.host.None? ==> o.host == "")
    && (u.port.Some? ==> o.port == Decimal.FormatInt(u.port.value)) && (u.port.None? ==> o.port == "")
    && (u.path.Some? ==> o.path == u.path.value) && (u.path.None? ==> o.path == "")
    && (u.query.Some? ==> o.query == u.query.value) && (u.query.None? ==> o.query == "")
    && (o.alwaysEnforce <==> u.enforce == EnforceAlways)
  }

  /** The value that the last header of that name carries. */
  predicate LastHeader(list: seq<Header>, key: string, value: string) {
    exists i :: 0 <= i < |list| && list[i] == Header(key, value) && forall j | i < j < |list| :: list[j].key != key
  }

  lemma {:induction false} HeadersMean(list: seq<Header>, key: string, value: string)
    ensures key in HeaderMap(list) && HeaderMap(list)[key] == value <==> LastHeader(list, key, value)
  {
    if list != [] {
      var init, last := list[..|list| - 1], list[|list| - 1];
      HeadersMean(init, key, value);
      if last.key == key {
        if last.value == value {
          assert list[|list| - 1] == Header(key, value);
        }
      } else {
        if LastHeader(init, key, value) {
          var i :| 0 <= i < |init| && init[i] == Header(key, value) && forall j | i < j < |init| :: init[j].key != key;
          assert list[i] == Header(key, value);
        }
        if LastHeader(list, key, value) {
          var i :| 0 <= i < |list| && list[i] == Header(key, value) && forall j | i < j < |list| :: list[j].key != key;
          assert init[i] == Header(key, value);
        }
      }
    }
  }

  /** What an HTTP target of the API means as the engine's override. */
  lemma TargetMeans(h: HttpTarget)
    ensures
      var o := HTTPOverrideToCore(h);
      && (o.httpMethod == "" <==> h.httpMethod == 0)
      && (h.httpMethod != 0 ==> o.httpMethod == HttpMethodName(h.httpMethod))
      && (h.uri.Some? ==> UriMeans(h.uri.value, o))
      && (h.uri.None? ==> UriMeans(UriOverride(None, None, None, None, None, EnforceUnspecified), o))
      && AuthMeans(h.auth, o.auth) && o.headers == HeaderMap(h.headers)
  {
  }

  // ---- queues ----

  predicate StateMeans(p: ProtoState, s: State) {
    && (s == Paused <==> p == StatePaused) && (s == Disabled <==> p == StateDisabled)
  }

  /** An absent duration is zero. */
  predicate DurationMeans(d: Option<int>, nanos: int) {
    (d.Some? ==> nanos == d.value) && (d.None? ==> nanos == 0)
  }

  /** What a queue of the API means to the engine, before defaults are filled in. */
  lemma QueueMeans(p: ProtoQueue)
    ensures
      var q := QueueToCore(p);
      && q.name == p.name && StateMeans(p.state, q.state) && (q.pull <==> p.queueType == TypePull)
      && DurationMeans(p.taskTtl, q.taskTTL) && DurationMeans(p.tombstoneTtl, q.tombstoneTTL)
      && (p.rateLimits.Some? ==>
            && q.rateLimits.maxDispatchesPerSecond == p.rateLimits.value.maxDispatchesPerSecond
            && q.rateLimits.maxConcurrentDispatches == p.rateLimits.value.maxConcurrentDispatches)
      && q.rateLimits.maxBurstSize == 0 && q.purgeTime == None
      && (p.rateLimits.None? ==> q.rateLimits.maxDispatchesPerSecond == 0.0 && q.rateLimits.maxConcurrentDispatches == 0)
      && (p.retryConfig.Some? ==>
            && q.retryConfig.maxAttempts == p.retryConfig.value.maxAttempts
            && q.retryConfig.maxDoublings == p.retryConfig.value.maxDoublings
            && DurationMeans(p.retryConfig.value.maxRetryDuration, q.retryConfig.maxRetryDuration)
            && DurationMeans(p.retryConfig.value.minBackoff, q.retryConfig.minBackoff)
            && DurationMeans(p.retryConfig.value.maxBackoff, q.retryConfig.maxBackoff))
      && (p.retryConfig.None? ==> q.retryConfig == RetryConfig(0, 0, 0, 0, 0))
      && (p.appEngine.Some? ==> q.appEngineRoutingOverride == p.appEngine.value)
      && (p.appEngine.None? ==> q.appEngineRoutingOverride == None)
      && (q.httpOverride.Some? <==> p.httpTarget.Some?)
      && (p.httpTarget.Some? ==> q.httpOverride == Some(HTTPOverrideToCore(p.httpTarget.value)))
  {
  }

  /** What GetQueue answers for a queue of the engine; zero durations are left out. */
  lemma AnswerMeans(q: Queue, tasksCount: int, list: seq<Header>)
    ensures
      var p := QueueFromCore(q, tasksCount, list);
      && p.name == q.name && StateMeans(p.state, q.state) && p.state in {StateRunning, StatePaused, StateDisabled}
      && p.queueType == (if q.pull then TypePull else TypePush) && p.tasksCount == tasksCount && p.purgeTime == q.purgeTime
      && DurationMeans(p.taskTtl, q.taskTTL) && DurationMeans(p.tombstoneTtl, q.tombstoneTTL)
      && (p.taskTtl.Some? <==> q.taskTTL != 0) && (p.tombstoneTtl.Some? <==> q.tombstoneTTL != 0)
      && p.rateLimits == Some(q.rateLimits) && p.retryConfig.Some?
      && p.retryConfig.value.maxAttempts == q.retryConfig.maxAttempts
      && p.retryConfig.value.maxDoublings == q.retryConfig.maxDoublings
      && DurationMeans(p.retryConfig.value.maxRetryDuration, q.retryConfig.maxRetryDuration)
      && DurationMeans(p.retryConfig.value.minBackoff, q.retryConfig.minBackoff)
      && DurationMeans(p.retryConfig.value.maxBackoff, q.retryConfig.maxBackoff)
      && (p.appEngine.Some? <==> q.appEngineRoutingOverride.Some?)
      && (p.appEngine.Some? ==> p.appEngine.value == q.appEngineRoutingOverride)
      && (p.httpTarget.Some? <==> q.httpOverride.Some?)
  {
  }
}
