/** Option and Result: absent values and error returns, instead of JavaScript's
    `undefined` and thrown exceptions. */
module Common {

  datatype Option<+T> = None | Some(value: T)

  datatype Result<+R, +E> = Success(value: R) | Failure(error: E)
}
