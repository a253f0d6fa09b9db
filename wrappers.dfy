/** Option and Result, used for Java's null and for a thrown exception. */
module Wrappers {

  /** `None` stands for a Java `null` (or an absent JavaScript property). */
  datatype Option<+T> = None | Some(value: T)

  /** A computation that either yields a value or raises an error. */
  datatype Result<+R, +E> = Success(value: R) | Failure(error: E)
}
