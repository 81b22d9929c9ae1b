/** Option and Result values used across the model: `None` stands for JavaScript's
    `null`/`undefined`, `Failure` for an exception raised inside a callback. */
module Wrappers {

  datatype Option<+T> = None | Some(value: T)

  datatype Result<+R, +E> = Success(value: R) | Failure(error: E)
}
