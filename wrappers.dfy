/** Failure-carrying datatypes standing in for Java's `null` and exceptions. */
module Wrappers {

  /** `None` plays the part of a Java `null` reference. */
  datatype Option<+T> = None | Some(value: T)

  /** The outcome of a Java method that returns a value or throws. */
  datatype Result<+R, +E> = Success(value: R) | Failure(error: E)

  /** The outcome of a Java `void` method that completes or throws. */
  datatype Outcome<+E> = Pass | Fail(error: E)
}
