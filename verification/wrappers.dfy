/** Option and Result, for values JavaScript leaves `undefined` and for
    commands that throw. */
module Wrappers {

  datatype Option<+T> = None | Some(value: T)

  datatype Result<+T, +E> = Success(value: T) | Failure(error: E)
}
