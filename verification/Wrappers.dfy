/** Optional values and fallible results, shared by every component. */
module Wrappers {

  datatype Option<+T> = None | Some(value: T)
  {
    function GetOr(fallback: T): T {
      if Some? then value else fallback
    }
  }

  datatype Result<+T, +E> = Ok(value: T) | Err(error: E)
  {
    function GetOr(fallback: T): T {
      if Ok? then value else fallback
    }
  }
}
