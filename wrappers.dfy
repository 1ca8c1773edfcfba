/** Option and Result, for values that may be missing and for raised exceptions. */
module Wrappers {

  datatype Option<+T> = None | Some(value: T)

  /** What a Ruby call can raise on the paths this model covers. */
  datatype Error =
    | TypeError  // String#+ given an operand that is not a String

  /** The outcome of a Ruby call: its value, or the exception it raised. */
  datatype Result<+T> = Ok(value: T) | Err(error: Error)
}
