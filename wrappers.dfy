/** Optional values and the settled outcome of an asynchronous remote call. */
module Wrappers {

  datatype Option<+T> = None | Some(value: T)

  /** A remote call either resolves with a value or rejects with a message. */
  datatype Outcome<+T> = Success(value: T) | Failure(message: string)
}
