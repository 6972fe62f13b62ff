/** The failure-carrying results used where the game engine returns `undefined` or throws. */
module Wrappers {

  /** A value that may be absent: `None` stands for JavaScript's `undefined`. */
  datatype Option<+T> = None | Some(value: T)

  /** The value of an operation that either succeeds or throws. */
  datatype Result<+R, +E> = Success(value: R) | Failure(error: E)
}
