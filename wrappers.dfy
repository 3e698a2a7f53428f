/** Optional values (`T | null`, `T | undefined`) and operation outcomes
    (an operation either returns or throws a fixed error message). */
module Wrappers {

  datatype Option<T> = None | Some(value: T) {

    /** The value, or `default` when absent (JavaScript's `x || default` on a non-falsy x). */
    function GetOr(default: T): T {
      match this
      case Some(v) => v
      case None => default
    }
  }

  /** What a store operation that may throw reports: success with a value, or the
      generic message its `catch` rethrows. */
  datatype Result<T> = Ok(value: T) | Fail(message: string)

  /** The same for operations that return nothing (`Promise<void>`). */
  datatype Outcome = Done | Failed(message: string)
}
