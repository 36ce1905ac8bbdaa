/** Small failure-carrying datatypes used in place of Java's `null` and exceptions. */
module Wrappers {

  /** A value that may be absent; `None` stands for a Java `null`. */
  datatype Option<+T> = None | Some(value: T) {

    /** The wrapped value, or `default` when absent. */
    function GetOr(default: T): T {
      match this
      case Some(v) => v
      case None => default
    }
  }

  /** Either a value or the reason it could not be produced (a thrown exception). */
  datatype Result<+T, +E> = Ok(value: T) | Err(error: E)
}
