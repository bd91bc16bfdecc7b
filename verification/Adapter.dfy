/**
 The v2beta3 queue adapter (emulator/v2beta3.go, emulator/conv.go): a queue read back through
 the API and fed to UpdateQueue stays as it is.
 */
module Adapter {
  import opened Wrappers
  import opened FixedWidth
  import opened Types
  import Decimal

  // ---- the API messages; an absent message or optional field is None ----

  datatype ProtoState = StateUnspecified | StateRunning | StatePaused | StateDisabled | StateOther(code: int)

  datatype ProtoType = TypeUnspecified | TypePull | TypePush | TypeOther(code: int)

  datatype ProtoScheme = SchemeUnspecified | SchemeHttp | SchemeHttps | SchemeOther(code: int)

  datatype ProtoEnforce = EnforceUnspecified | EnforceIfNotExists | EnforceAlways | EnforceOther(code: int)

  datatype ProtoAuth =
    | NoToken
    | OidcToken(email: string, audience: string)
    | OauthToken(email: string, scope: string)

  datatype Header = Header(key: string, value: string)

  datatype UriOverride = UriOverride(
    scheme: Option<ProtoScheme>,
    host: Option<string>,
    port: Option<int64>,
    path: Option<string>,
    query: Option<string>,
    enforce: ProtoEnforce)

  datatype HttpTarget = HttpTarget(
    uri: Option<UriOverride>,
    httpMethod: int,
    headers: seq<Header>,
    auth: ProtoAuth)

  datatype ProtoRetry = ProtoRetry(
    maxAttempts: int,
    maxRetryDuration: Option<int>,
    minBackoff: Option<int>,
    maxBackoff: Option<int>,
    maxDoublings: int)

  datatype ProtoQueue = ProtoQueue(
    name: string,
    state: ProtoState,
    rateLimits: Option<RateLimits>,
    retryConfig: Option<ProtoRetry>,
    taskTtl: Option<int>,
    tombstoneTtl: Option<int>,
    purgeTime: Option<int>,
    queueType: ProtoType,
    appEngine: Option<Option<AppEngineRouting>>,
    httpTarget: Option<HttpTarget>,
    tasksCount: int)

  // ---- emulator/conv.go ----

  function HttpMethodName(m: int): string {
    match m
    case 2 => "GET"
    case 3 => "HEAD"
    case 4 => "PUT"
    case 5 => "DELETE"
    case 6 => "PATCH"
    case 7 => "OPTIONS"
    case _ => "POST"
  }

  function HttpMethodEnum(name: string): int {
    if name == "GET" then 2
    else if name == "HEAD" then 3
    else if name == "PUT" then 4
    else if name == "DELETE" then 5
    else if name == "PATCH" then 6
    else if name == "OPTIONS" then 7
    else 1
  }

  /** Naming the enum of a name that came from an enum gives the name back. */
  lemma MethodRoundTrip(m: int)
    ensures HttpMethodName(HttpMethodEnum(HttpMethodName(m))) == HttpMethodName(m)
    ensures HttpMethodEnum(HttpMethodName(m)) != 0
  {
  }

  function DurToDuration(d: Option<int>): int {
    if d.Some? then d.value else 0
  }

  function DurationToDur(d: int): Option<int> {
    if d == 0 then None else Some(d)
  }

  function GetOr<T>(o: Option<T>, default: T): T {
    if o.Some? then o.value else default
  }

  // ---- HTTP override ----

  /** The header list folded into a map, a later entry winning. */
  function HeaderMap(list: seq<Header>): map<string, string> {
    if list == [] then map[]
    else HeaderMap(list[..|list| - 1])[list[|list| - 1].key := list[|list| - 1].value]
  }

  /** The loop that builds the map entry by entry. */
  method HeadersToCore(list: seq<Header>) returns (m: map<string, string>)
    ensures m == HeaderMap(list)
  {
    m := map[];
    for i := 0 to |list|
      invariant m == HeaderMap(list[..i])
    {
      assert list[..i + 1][..i] == list[..i];
      m := m[list[i].key := list[i].value];
    }
    assert list[..|list|] == list;
  }

  /** A list that names each entry of the map once, in some order. */
  ghost predicate Enumerates(list: seq<Header>, m: map<string, string>) {
    && (forall i | 0 <= i < |list| :: list[i].key in m && m[list[i].key] == list[i].value)
    && (forall i, j | 0 <= i < j < |list| :: list[i].key != list[j].key)
    && (forall k | k in m :: exists i :: 0 <= i < |list| && list[i].key == k)
  }

  /** Ranging over the map, in whatever order, lists each entry once. */
  method HeadersFromCore(m: map<string, string>) returns (list: seq<Header>)
    ensures Enumerates(list, m)
  {
    list := [];
    var left := m.Keys;
    while left != {}
      invariant left <= m.Keys
      invariant forall i | 0 <= i < |list| :: list[i].key in m && list[i].key !in left && m[list[i].key] == list[i].value
      invariant forall i, j | 0 <= i < j < |list| :: list[i].key != list[j].key
      invariant forall k | k in m && k !in left :: exists i :: 0 <= i < |list| && list[i].key == k
      decreases left
    {
      var k :| k in left;
      ghost var before := list;
      list := list + [Header(k, m[k])];
      left := left - {k};
      forall k' | k' in m && k' !in left ensures exists i :: 0 <= i < |list| && list[i].key == k' {
        if k' == k {
          assert list[|before|].key == k;
        } else {
          var i :| 0 <= i < |before| && before[i].key == k';
          assert list[i].key == k';
        }
      }
    }
  }

  function AuthToCore(a: ProtoAuth): Option<Auth> {
    match a
    case NoToken => None
    case OidcToken(email, audience) => Some(Auth(AuthOIDC, email, audience, ""))
    case OauthToken(email, scope) => Some(Auth(AuthOAuth, email, "", scope))
  }

  function AuthFromCore(a: Option<Auth>): ProtoAuth {
    if a.None? then NoToken
    else
      match a.value.kind
      case AuthOIDC => OidcToken(a.value.serviceAccountEmail, a.value.audience)
      case AuthOAuth => OauthToken(a.value.serviceAccountEmail, a.value.scope)
      case AuthNone => NoToken
  }

  function SchemeToCore(s: Option<ProtoScheme>): string {
    match s
    case Some(SchemeHttp) => "http"
    case Some(SchemeHttps) => "https"
    case _ => ""
  }

  function SchemeFromCore(s: string): Option<ProtoScheme> {
    if s == "http" then Some(SchemeHttp) else if s == "https" then Some(SchemeHttps) else None
  }

  function PortToCore(p: Option<int64>): string {
    if p.Some? then Decimal.FormatInt(p.value) else ""
  }

  function PortFromCore(p: string): Option<int64> {
    match Decimal.ParseInt(p)
    case Some(n) => Some(n)
    case None => None
  }

  function NonEmpty(s: string): Option<string> {
    if s == "" then None else Some(s)
  }

  function HTTPOverrideToCore(h: HttpTarget): HTTPOverride {
    var httpMethod := if h.httpMethod == 0 then "" else HttpMethodName(h.httpMethod);
    var headers := HeaderMap(h.headers);
    var auth := AuthToCore(h.auth);
    match h.uri
    case None => HTTPOverride("", "", "", "", "", false, httpMethod, headers, auth)
    case Some(u) =>
      HTTPOverride(SchemeToCore(u.scheme), GetOr(u.host, ""), PortToCore(u.port), GetOr(u.path, ""), GetOr(u.query, ""),
                   u.enforce == EnforceAlways, httpMethod, headers, auth)
  }

  function UriFromCore(o: HTTPOverride): Option<UriOverride> {
    var u := UriOverride(SchemeFromCore(o.scheme), NonEmpty(o.host), PortFromCore(o.port), NonEmpty(o.path), NonEmpty(o.query),
                         if o.alwaysEnforce then EnforceAlways else EnforceUnspecified);
    if u.scheme.Some? || u.host.Some? || u.port.Some? || u.path.Some? || u.query.Some? || o.alwaysEnforce
    then Some(u) else None
  }

  /** list is the order in which the map iteration happened to yield the headers. */
  function HTTPOverrideFromCore(o: HTTPOverride, list: seq<Header>): HttpTarget {
    HttpTarget(UriFromCore(o), if o.httpMethod == "" then 0 else HttpMethodEnum(o.httpMethod), list, AuthFromCore(o.auth))
  }

  // ---- queue ----

  function StateToCore(s: ProtoState): State {
    match s
    case StatePaused => Paused
    case StateDisabled => Disabled
    case _ => Running
  }

  function StateFromCore(s: State): ProtoState {
    match s
    case Paused => StatePaused
    case Disabled => StateDisabled
    case Running => StateRunning
  }

  function QueueToCore(q: ProtoQueue): Queue {
    Queue(
      q.name,
      StateToCore(q.state),
      (match q.rateLimits
       case Some(rl) => RateLimits(rl.maxDispatchesPerSecond, 0, rl.maxConcurrentDispatches)
       case None => RateLimits(0.0, 0, 0)),
      (match q.retryConfig
       case Some(rc) => RetryConfig(rc.maxAttempts, DurToDuration(rc.maxRetryDuration), DurToDuration(rc.minBackoff),
                                    DurToDuration(rc.maxBackoff), rc.maxDoublings)
       case None => RetryConfig(0, 0, 0, 0, 0)),
      DurToDuration(q.taskTtl),
      DurToDuration(q.tombstoneTtl),
      q.queueType == TypePull,
      GetOr(q.appEngine, None),
      if q.httpTarget.Some? then Some(HTTPOverrideToCore(q.httpTarget.value)) else None,
      None)
  }

  /** GetQueue's answer: the stored queue and the number of its tasks. */
  function QueueFromCore(q: Queue, tasksCount: int, list: seq<Header>): ProtoQueue {
    ProtoQueue(
      q.name,
      StateFromCore(q.state),
      Some(q.rateLimits),
      Some(ProtoRetry(q.retryConfig.maxAttempts, DurationToDur(q.retryConfig.maxRetryDuration),
                      DurationToDur(q.retryConfig.minBackoff), DurationToDur(q.retryConfig.maxBackoff),
                      q.retryConfig.maxDoublings)),
      DurationToDur(q.taskTTL),
      DurationToDur(q.tombstoneTTL),
      q.purgeTime,
      if q.pull then TypePull else TypePush,
      if q.appEngineRoutingOverride.Some? then Some(q.appEngineRoutingOverride) else None,
      if q.httpOverride.Some? then Some(HTTPOverrideFromCore(q.httpOverride.value, list)) else None,
      tasksCount)
  }

  // ---- headers ----

  lemma {:induction false} HeaderMapLookup(list: seq<Header>, i: nat)
    requires i < |list| && forall a, b | 0 <= a < b < |list| :: list[a].key != list[b].key
    ensures list[i].key in HeaderMap(list) && HeaderMap(list)[list[i].key] == list[i].value
  {
    var n := |list| - 1;
    if i < n {
      HeaderMapLookup(list[..n], i);
      assert list[n].key != list[i].key;
    }
  }

  lemma {:induction false} HeaderMapKeys(list: seq<Header>, k: string)
    requires k in HeaderMap(list)
    ensures exists i :: 0 <= i < |list| && list[i].key == k
  {
    var n := |list| - 1;
    if list[n].key != k {
      HeaderMapKeys(list[..n], k);
      var i :| 0 <= i < n && list[..n][i].key == k;
      assert list[i].key == k;
    }
  }

  /** Folding any enumeration of a map gives the map back. */
  lemma HeadersRoundTrip(list: seq<Header>, m: map<string, string>)
    requires Enumerates(list, m)
    ensures HeaderMap(list) == m
  {
    forall k | k in m ensures k in HeaderMap(list) && HeaderMap(list)[k] == m[k] {
      var i :| 0 <= i < |list| && list[i].key == k;
      HeaderMapLookup(list, i);
    }
    forall k | k in HeaderMap(list) ensures k in m {
      HeaderMapKeys(list, k);
    }
  }

  // ---- what comes out of the API ----

  /** An override in the form the API conversion produces. */
  ghost predicate Canonical(o: HTTPOverride) {
    && (o.httpMethod == "" || exists m :: o.httpMethod == HttpMethodName(m))
    && (o.scheme == "" || o.scheme == "http" || o.scheme == "https")
    && (o.port == "" || exists p: int64 :: o.port == Decimal.FormatInt(p))
    && (o.auth.Some? ==> CanonicalAuth(o.auth.value))
  }

  predicate CanonicalAuth(a: Auth) {
    || (a.kind == AuthOIDC && a.scope == "")
    || (a.kind == AuthOAuth && a.audience == "")
  }

  lemma ToCoreCanonical(h: HttpTarget)
    ensures Canonical(HTTPOverrideToCore(h))
  {
  }

  lemma PortRoundTrip(port: string)
    requires port == "" || exists p: int64 :: port == Decimal.FormatInt(p)
    ensures PortToCore(PortFromCore(port)) == port
  {
    if port != "" {
      var p: int64 :| port == Decimal.FormatInt(p);
      Decimal.FormatParseRoundTrip(p);
    }
  }

  lemma UriRoundTrip(o: HTTPOverride, h: HttpTarget)
    requires Canonical(o) && h.uri == UriFromCore(o)
    ensures
      var r := HTTPOverrideToCore(h);
      && r.scheme == o.scheme && r.host == o.host && r.port == o.port && r.path == o.path && r.query == o.query
      && r.alwaysEnforce == o.alwaysEnforce
  {
    PortRoundTrip(o.port);
  }

  /** Converting an override out and back in, with the headers in any order, is the identity. */
  lemma OverrideRoundTrip(o: HTTPOverride, list: seq<Header>)
    requires Canonical(o) && Enumerates(list, o.headers)
    ensures HTTPOverrideToCore(HTTPOverrideFromCore(o, list)) == o
  {
    UriRoundTrip(o, HTTPOverrideFromCore(o, list));
    HeadersRoundTrip(list, o.headers);
    if o.httpMethod != "" {
      var m :| o.httpMethod == HttpMethodName(m);
      MethodRoundTrip(m);
    }
  }

  // ---- queues configured through the API ----

  /** Defaults are applied and the override is in API form. */
  ghost predicate Configured(q: Queue) {
    && ApplyQueueDefaults(q) == q
    && (q.httpOverride.Some? ==> Canonical(q.httpOverride.value))
  }

  /** Defaulting twice is defaulting once: the burst size is derived again from the same rate. */
  lemma DefaultsIdempotent(q: Queue)
    ensures ApplyQueueDefaults(ApplyQueueDefaults(q)) == ApplyQueueDefaults(q)
  {
  }

  lemma {:induction false} SetFieldsCanonical(stored: Queue, update: Queue, fields: seq<QueueField>)
    requires stored.httpOverride.Some? ==> Canonical(stored.httpOverride.value)
    requires update.httpOverride.Some? ==> Canonical(update.httpOverride.value)
    ensures
      var q := SetFields(stored, update, fields);
      q.httpOverride.Some? ==> Canonical(q.httpOverride.value)
    decreases |fields|
  {
    if fields != [] {
      SetFieldsCanonical(SetField(stored, update, fields[0]), update, fields[1..]);
    }
  }

  /** A queue created through the API is configured. */
  lemma CreatedConfigured(p: ProtoQueue)
    ensures Configured(ApplyQueueDefaults(QueueToCore(p)))
  {
    DefaultsIdempotent(QueueToCore(p));
    if p.httpTarget.Some? {
      ToCoreCanonical(p.httpTarget.value);
    }
  }

  /** An update through the API, whatever its mask, leaves a configured queue configured. */
  lemma UpdatedConfigured(q: Queue, p: ProtoQueue, fields: seq<QueueField>)
    requires Configured(q)
    ensures Configured(MergeUpdate(q, QueueToCore(p), fields))
  {
    var update := QueueToCore(p);
    if p.httpTarget.Some? {
      ToCoreCanonical(p.httpTarget.value);
    }
    var fs := if fields == [] then ALL_FIELDS else fields;
    SetFieldsCanonical(q, update, fs);
    DefaultsIdempotent(SetFields(q, update, fs));
  }

  lemma AllFields(stored: Queue, update: Queue)
    ensures SetFields(stored, update, ALL_FIELDS) ==
            stored.(rateLimits := update.rateLimits, retryConfig := update.retryConfig,
                    appEngineRoutingOverride := update.appEngineRoutingOverride, httpOverride := update.httpOverride)
  {
    var f := ALL_FIELDS;
    assert f[1..] == [FieldRetryConfig, FieldAppEngineRoutingOverride, FieldHTTPOverride];
    assert f[1..][1..] == [FieldAppEngineRoutingOverride, FieldHTTPOverride];
    assert f[1..][1..][1..] == [FieldHTTPOverride];
    assert f[1..][1..][1..][1..] == [];
    var q1 := SetField(stored, update, FieldRateLimits);
    var q2 := SetField(q1, update, FieldRetryConfig);
    var q3 := SetField(q2, update, FieldAppEngineRoutingOverride);
    assert SetFields(q3, update, [FieldHTTPOverride]) == SetFields(SetField(q3, update, FieldHTTPOverride), update, []);
    assert SetFields(q2, update, f[1..][1..]) == SetFields(q3, update, f[1..][1..][1..]);
    assert SetFields(q1, update, f[1..]) == SetFields(q2, update, f[1..][1..]);
  }

  lemma ReadBackFields(q: Queue, tasksCount: int, list: seq<Header>)
    requires Configured(q)
    requires q.httpOverride.Some? ==> Enumerates(list, q.httpOverride.value.headers)
    ensures
      var u := QueueToCore(QueueFromCore(q, tasksCount, list));
      && DefaultRateLimits(u.rateLimits) == q.rateLimits
      && u.retryConfig == q.retryConfig
      && u.appEngineRoutingOverride == q.appEngineRoutingOverride
      && u.httpOverride == q.httpOverride
      && u.name == q.name && u.pull == q.pull && u.taskTTL == q.taskTTL && u.tombstoneTTL == q.tombstoneTTL
      && u.state == q.state
  {
    if q.httpOverride.Some? {
      OverrideRoundTrip(q.httpOverride.value, list);
    }
    assert DefaultRateLimits(q.rateLimits) == q.rateLimits;
  }

  /** Merging a configured queue's own read-back into it leaves it as it was. */
  lemma ReadBackMerge(q: Queue, tasksCount: int, list: seq<Header>)
    requires Configured(q)
    requires q.httpOverride.Some? ==> Enumerates(list, q.httpOverride.value.headers)
    ensures MergeUpdate(q, QueueToCore(QueueFromCore(q, tasksCount, list)), []) == q
  {
    var u := QueueToCore(QueueFromCore(q, tasksCount, list));
    ReadBackFields(q, tasksCount, list);
    AllFields(q, u);
  }
}
