/** `Option` stands for a string reference that may be null,
    `Result` for a value or the exception an operation throws. */
module Wrappers {

  datatype Option<+T> = None | Some(value: T)

  datatype Result<+R, +E> = Success(value: R) | Failure(error: E)
}
