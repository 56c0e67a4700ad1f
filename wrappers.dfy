/** Optional values: JavaScript's `undefined` (and `null` where the source uses it as "not yet known"). */
module Wrappers {

  datatype Option<+T> = None | Some(value: T)

  /** A value, or the message of the `Error` that was thrown instead. */
  datatype Result<+T> = Success(value: T) | Failure(error: string)
}
