/** Failure-compatible helper datatypes shared by the whole model. */
module Wrappers {

  /** An optional value; `None` stands for the source's `null`. */
  datatype Option<+T> = None | Some(value: T)

  /** Either a value or an error. */
  datatype Result<+T, +E> = Success(value: T) | Failure(error: E)
}
