/** The two failure-carrying wrappers the model uses. */
module Optional {

  /** A value that may be absent: an omitted optional argument, or "nothing handed over". */
  datatype Option<T> = None | Some(value: T) {

    /** The wrapped value, or `default` when there is none. */
    function GetOr(default: T): T {
      match this
      case Some(v) => v
      case None => default
    }
  }

  /** A computation that either produced a value or raised an error. */
  datatype Result<T, E> = Success(value: T) | Failure(error: E)
}
