/** Option, Result and Outcome: a C# nullable value, a value-or-exception, and "completed or threw". */
module Wrappers {

  /** A C# reference or nullable value: `None` is `null`. */
  datatype Option<+T> = None | Some(value: T) {

    /** C#'s null-coalescing `this ?? other`. */
    function Or(other: Option<T>): Option<T> {
      if Some? then this else other
    }
  }

  /** The value a C# call returns, or the exception it throws. */
  datatype Result<+R, +E> = Success(value: R) | Failure(error: E)

  /** A C# statement sequence that either runs to its end or throws. */
  datatype Outcome<+E> = Pass | Fail(error: E)
}
