/** Option and Result, the shapes in which the model returns "nothing" and
    "an error was thrown". */
module Basics {

  datatype Option<+T> = None | Some(value: T)

  datatype Result<+R, +E> = Success(value: R) | Failure(error: E)
}
