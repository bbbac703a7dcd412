/** The two optional-value shapes the model uses: a nullable or undefined value, and a fallible result. */
module Wrappers {

  /** A value that may be absent (JavaScript `undefined` or SQL `NULL`). */
  datatype Option<+T> = None | Some(value: T) {
    /** The value, or `default` when absent (the `?? default` of the source). */
    function GetOr(default: T): T {
      match this
      case Some(v) => v
      case None => default
    }
  }

  /** A field of a JavaScript object: left out (`undefined`) or given (possibly as `null`). */
  datatype Field<T> = Undefined | Given(value: T)

  /** The outcome of an operation that can fail with an error of type `E`. */
  datatype Result<+R, +E> = Success(value: R) | Failure(error: E)
}
