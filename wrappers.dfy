/** Optional values and results, used for the store's "None" answers and error paths. */
module Wrappers {
  datatype Option<T> = None | Some(value: T)
  {
    predicate IsSome() { this.Some? }

    function GetOr(default: T): T
    {
      if this.Some? then value else default
    }
  }

  /** A result whose failure carries a message, as the schema validators raise ValueError. */
  datatype Result<T> = Ok(value: T) | Err(message: string)
}
