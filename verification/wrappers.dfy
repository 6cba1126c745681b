/** Option and Result values, used where the Java code has nullable references
    and thrown exceptions. */
module Wrappers {

  /** A Java reference that may be null. */
  datatype Option<+T> = None | Some(value: T)

  /** The value of an expression that either completes or throws. */
  datatype Result<+T, +E> = Ok(value: T) | Err(error: E)

  /** Completion of a `void` Java method: it returns normally or throws. */
  datatype Outcome<+E> = Pass | Fail(error: E)
}
