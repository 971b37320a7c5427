/** Small failure-carrying datatypes shared by the model. */
module Wrappers {

  datatype Option<T> = None | Some(value: T) {
    /** The carried value, or `default` when there is none (Python's `dict.get(k, default)`). */
    function GetOr(default: T): T
    {
      match this
      case Some(v) => v
      case None => default
    }
  }

  /** The outcome of a request handler: a value, or the error response it sends. */
  datatype Result<T, E> = Ok(value: T) | Err(error: E)
}
