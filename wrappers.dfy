/** Option and Result values: a Java reference that may be null, and an
    operation that either returns a value or throws. */
module Wrappers {

  /** A Java reference that may be null: `None` stands for null. */
  datatype Option<+T> = None | Some(value: T)

  /** The outcome of a Java call: a returned value, or a thrown exception. */
  datatype Result<+R, +E> = Success(value: R) | Failure(error: E)
}
