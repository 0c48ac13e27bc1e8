/** Wrappers used throughout the model: `Option` stands
    for the source's `null`/`undefined` results, `Result` for an evaluation
    that can end in a JavaScript TypeError. */
module Wrappers {

  datatype Option<+T> = None | Some(value: T)

  datatype Result<+T, +E> = Success(value: T) | Failure(error: E)
}
