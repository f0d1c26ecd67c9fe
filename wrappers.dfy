// Option: the model's stand-in for a C pointer that may be NULL, a Python
// value that may be None, or a Java map entry that may be absent.
module Wrappers {
  datatype Option<T> = None | Some(value: T)
  {
    function GetOr(default: T): (r: T)
      ensures this.Some? ==> r == this.value
      ensures this.None? ==> r == default
    {
      match this
      case Some(v) => v
      case None => default
    }
  }

  /** An operation that either yields a value or fails with a reason. */
  datatype Result<T, E> = Ok(value: T) | Err(error: E)
}
