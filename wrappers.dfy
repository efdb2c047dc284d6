// Option and Result: the model's way of writing Python's None and the
// early returns / raised errors of the source, instead of preconditions.
module Wrappers {
  datatype Option<T> = None | Some(value: T)
  {
    function GetOr(default: T): T
    {
      if Some? then value else default
    }
  }

  datatype Result<T, E> = Ok(value: T) | Err(error: E)
}
