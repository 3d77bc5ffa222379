/** Failure-carrying datatypes shared by the cache model. */
module Wrappers {

  /** An optional value: `None` where the source has `None` or a missing attribute. */
  datatype Option<+T> = None | Some(value: T) {

    /** The wrapped value, or `default` when there is none. */
    function GetOr(default: T): T {
      match this
      case Some(v) => v
      case None => default
    }
  }

  /** Either a computed value or the error the source would raise instead. */
  datatype Result<+R, +E> = Success(value: R) | Failure(error: E)
}
