/** Option and Result: the model's stand-ins for Java's null returns and thrown exceptions. */
module Wrappers {

  datatype Option<+T> = None | Some(value: T)

  datatype Result<+R, +E> = Success(value: R) | Failure(error: E)

  /** Outcome of a service call that returns nothing (Java `void`) but may throw. */
  datatype Outcome<+E> = Pass | Fail(error: E)
}
