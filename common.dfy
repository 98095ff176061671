/** Optional values and results shared by the other modules. */
module Common {

  datatype Option<+T> = None | Some(value: T)

  /** An operation that either produces a value or is refused with a user-facing message. */
  datatype Result<+T> = Success(value: T) | Failure(message: string)
}
