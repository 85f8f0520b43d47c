// Option and Result values shared by every module of the model.
module Wrappers {
  datatype Option<T> = None | Some(value: T)
  {
    predicate IsSome() { Some? }

    function GetOr(default: T): T
    {
      if Some? then value else default
    }
  }

  /** An operation that either produces a value or fails with an error. */
  datatype Result<T, E> = Ok(value: T) | Err(error: E)
  {
    predicate IsOk() { Ok? }
  }
}
