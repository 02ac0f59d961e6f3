/** Failure-carrying values shared by the other modules: `Option` stands for a Java reference
    that may be null, `Result` and `Outcome` for a call that either returns or throws. */
module Results {

  datatype Option<+T> = None | Some(value: T) {
    /** The wrapped value, or `default` when there is none. */
    function GetOr(default: T): T {
      match this
      case Some(v) => v
      case None => default
    }
  }

  /** A call that returns a value or throws an error. */
  datatype Result<+T, +E> = Success(value: T) | Failure(error: E)

  /** A call that returns nothing or throws an error. */
  datatype Outcome<+E> = Pass | Fail(error: E)
}
