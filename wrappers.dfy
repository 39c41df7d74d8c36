/**
  Optional values and results, standing in for Swift's `Optional` and for `throws`,
  and the token that stands for a completion handler.
 */
module Wrappers {

  datatype Option<+T> = None | Some(value: T)

  datatype Result<+T, +E> = Success(value: T) | Failure(error: E)

  /** A completion handler, known by a token: the model records calls, not code. */
  type Handler = nat
}
