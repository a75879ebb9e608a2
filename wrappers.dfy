/** Failure-carrying results shared by the search-engine model. */
module Wrappers {

  /** A value that may be absent: Java's `null` return. */
  datatype Option<+T> = None | Some(value: T)

  /** The exceptions the engine can raise. */
  datatype Error =
    | DocumentNotFound(name: string)  // FileNotFoundException when a document cannot be opened
    | IndexOutOfBounds                // an unguarded ArrayList.get past the end of a list

  /** A computed value, or the exception that ended the computation. */
  datatype Result<+T> = Success(value: T) | Failure(error: Error)

  /** A run that produces no value, only success or an exception. */
  datatype Outcome = Pass | Fail(error: Error)
}
