/** The two wrappers used across the model: `Option`, an optional value (a
    JavaScript `undefined` when absent), and `Result`, a value or an error
    (an operation that either yields or throws). */
module Wrappers {

  datatype Option<+T> = None | Some(value: T)

  datatype Result<+R, +E> = Success(value: R) | Failure(error: E)
}
