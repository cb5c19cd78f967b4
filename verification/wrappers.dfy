/** Failure-compatible wrappers used throughout the model: an optional value
    (JavaScript's `null`/absent) and the outcome of an operation that may throw. */
module Wrappers {

  datatype Option<+T> = None | Some(value: T) {

    /** Returns the value held in Some, or `default` for None. */
    function GetOr(default: T): T {
      match this
      case Some(v) => v
      case None => default
    }
  }

  /** `Failure(message)` stands for a thrown JavaScript `Error` whose
      `message` property is `message`. */
  datatype Result<+R> = Success(value: R) | Failure(error: string)
}
