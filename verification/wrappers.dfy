/** Option and Result: the value-level outcomes the token exchange returns.
    `Result` follows the Success/Failure shape of the result library the
    exchange is written against: a success carries a value, a failure a reason. */
module Wrappers {

  datatype Option<+T> = None | Some(value: T)

  datatype Result<+T, +E> = Success(value: T) | Failure(reason: E)
}
