/** Option and Result: an absent document lookup, and a listing whose extraction raised. */
module Wrappers {

  /** `None` is a lookup that found nothing (Python's `None`). */
  datatype Option<+T> = None | Some(value: T)

  /** `Err` is an exception that escaped the computation. */
  datatype Result<+T, +E> = Ok(value: T) | Err(error: E)
}
