/** The two result shapes shared by the other modules. */
module Wrappers {

  /** A value that may be absent: `undefined`, or a failed look-up. */
  datatype Option<+T> = None | Some(value: T)

  /** What a call returns when the source may throw. */
  datatype Result<+R, +E> = Success(value: R) | Failure(error: E)
}
