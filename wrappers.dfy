/** Optional values and results that carry the message of the error the
    modelled JavaScript code would throw. */
module Wrappers {

  datatype Option<T> = None | Some(value: T)
  {
    predicate IsSome() { Some? }

    function GetOr(default: T): (r: T)
      ensures Some? ==> r == value
      ensures None? ==> r == default
    {
      match this
      case Some(v) => v
      case None => default
    }
  }

  /** `Err(msg)` stands for a thrown error whose message is `msg`. */
  datatype Result<T> = Ok(value: T) | Err(error: string)
}
