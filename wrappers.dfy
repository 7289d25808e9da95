/** Option and Result, for Java's null returns and thrown exceptions. */
module Wrappers {

  /** `None` stands for a Java `null`. */
  datatype Option<+T> = None | Some(value: T) {
    function GetOr(default: T): T {
      match this
      case Some(v) => v
      case None => default
    }
  }

  /** `Err` stands for an exception thrown out of the operation. */
  datatype Result<+T, +E> = Ok(value: T) | Err(error: E)
}
