/** Failure-compatible wrappers used by the whole model: an optional value and
    a success-or-error value. */
module Outcome {

  /** A value that may be absent: the model's stand-in for Ruby's `nil`. */
  datatype Option<+T> = None | Some(value: T)

  /** Either a successful value or an error value. */
  datatype Result<+T, +E> = Ok(value: T) | Err(error: E)
}
