/** Option and Result: the model's stand-ins for Java's nullable references and for
    fj.data.Validation / checked exceptions. */
module Wrappers {

  datatype Option<+T> = None | Some(value: T)

  datatype Result<+R, +E> = Success(value: R) | Failure(error: E)
}
