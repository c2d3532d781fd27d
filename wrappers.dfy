/** Option and Result values standing for Python's "may be missing" and "may raise". */
module Wrappers {

  datatype Option<+T> = None | Some(value: T)

  /** `Failure(key)` stands for a `KeyError` raised on `key`. */
  datatype Result<+T, +E> = Success(value: T) | Failure(error: E)
}
