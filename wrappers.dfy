/** Nullable values and thrown exceptions, as values. */
module Wrappers {

  /** A Java reference that may be null: `None` is null. */
  datatype Option<+T> = None | Some(value: T)

  /** A call that either returns a value or throws. */
  datatype Result<+T, +E> = Success(value: T) | Failure(error: E)

  /** A void call that either completes or throws. */
  datatype Outcome<+E> = Pass | Fail(error: E)
}
