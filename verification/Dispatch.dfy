/** How core/dispatch.go classifies one delivery. */
module Dispatch {
  import opened Wrappers
  import Decimal

  /** The observable outcome of one HTTP delivery. */
  datatype Outcome =
    | BuildFailed(message: string)      // the request could not be built
    | TransportFailed(message: string)  // no response arrived
    | Responded(status: int)            // a response with this HTTP status

  const OK: int := 0
  const UNKNOWN: int := 2
  const INVALID_ARGUMENT: int := 3
  const DEADLINE_EXCEEDED: int := 4
  const NOT_FOUND: int := 5
  const ALREADY_EXISTS: int := 6
  const PERMISSION_DENIED: int := 7
  const RESOURCE_EXHAUSTED: int := 8
  const UNIMPLEMENTED: int := 12
  const INTERNAL: int := 13
  const UNAVAILABLE: int := 14
  const UNAUTHENTICATED: int := 16

  function HttpToRPCCode(status: int): int {
    if status == 400 then INVALID_ARGUMENT
    else if status == 401 then UNAUTHENTICATED
    else if status == 403 then PERMISSION_DENIED
    else if status == 404 then NOT_FOUND
    else if status == 409 then ALREADY_EXISTS
    else if status == 429 then RESOURCE_EXHAUSTED
    else if status == 408 || status == 504 then DEADLINE_EXCEEDED
    else if status == 503 then UNAVAILABLE
    else if status == 501 then UNIMPLEMENTED
    else if status >= 500 then INTERNAL
    else UNKNOWN
  }

  predicate IsSuccess(o: Outcome) {
    o.Responded? && 200 <= o.status < 300
  }

  /** The canonical rpc code; zero exactly for a 2xx response. */
  function RpcCode(o: Outcome): (code: int)
    ensures code == OK <==> IsSuccess(o)
  {
    match o
    case BuildFailed(_) => INVALID_ARGUMENT
    case TransportFailed(_) => UNAVAILABLE
    case Responded(status) => if 200 <= status < 300 then OK else HttpToRPCCode(status)
  }

  /** The raw HTTP status, zero when no response was received. */
  function HttpCode(o: Outcome): int {
    if o.Responded? then o.status else 0
  }

  function Message(o: Outcome): string {
    match o
    case BuildFailed(m) => m
    case TransportFailed(m) => m
    case Responded(status) => if 200 <= status < 300 then "" else "HTTP status " + Decimal.FormatInt(status)
  }

  /** Why an attempt failed, for the retry headers. */
  function RetryReason(httpCode: int, message: string): string {
    if httpCode != 0 then "RETURNED_" + Decimal.FormatInt(httpCode)
    else if message != "" then "CONNECTION_ERROR: " + message
    else "CONNECTION_ERROR"
  }
}
