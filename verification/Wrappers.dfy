/** Result and option types shared by every module. */
module Wrappers {

  datatype Option<+T> = None | Some(value: T)

  /** The gRPC status codes the engine answers with. */
  datatype ErrorCode = InvalidArgument | NotFound | AlreadyExists | FailedPrecondition

  datatype Result<+T> = Ok(value: T) | Err(code: ErrorCode)

  function Min(a: int, b: int): int {
    if a < b then a else b
  }

  function Max(a: int, b: int): int {
    if a < b then b else a
  }
}
