/** Vocabulary shared by every component: results, polls and the errors the client raises. */
module Prelude {
  datatype Option<+T> = None | Some(value: T)

  /** The variants of the crate's error type that reach a caller of the modelled code. */
  datatype Error =
    | Canceled                      // the sending half of a oneshot was dropped
    | RpcError(message: string)
    | YumError(message: string)

  datatype Result<+T> = Ok(value: T) | Err(error: Error)

  datatype Async<+T> = NotReady | Ready(item: T)

  /** A parsed JSON value; its structure is never inspected by the client. */
  datatype Json = Json(text: string)
}
