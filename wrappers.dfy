/** Rust's `Option` and `Result`, as used throughout the service. */
module Wrappers {

  /** `Option<T>`: a query parameter or a struct field that may be absent. */
  datatype Option<+T> = None | Some(value: T) {

    /** `unwrap_or`: the carried value, or `default` when absent. */
    function UnwrapOr(default: T): T {
      match this
      case Some(v) => v
      case None => default
    }
  }

  /** `Result<T, E>`: a handler's outcome, either a value or a domain error. */
  datatype Result<+T, +E> = Success(value: T) | Failure(error: E)
}
