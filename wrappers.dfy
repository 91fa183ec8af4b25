/** Failure-compatible wrappers used for the exceptions of the Java source:
    a method that may throw returns a Result (or an Outcome when it has no value). */
module Wrappers {

  datatype Option<+T> = None | Some(value: T)

  datatype Result<+T, +E> = Success(value: T) | Failure(error: E)

  datatype Outcome<+E> = Pass | Fail(error: E)
}
