/**
 * The single message-carrying error kind (`OmmaErr`) and the optional value,
 * as failure-compatible wrappers.
 */
module Errors {

  /** `Result<T, OmmaErr>`: an error carries only its message body. */
  datatype Result<T> = Ok(value: T) | Err(error: string) {

    /** The same failure at another value type, as `?` propagates it.
        Total, so that it can stand in a branch the caller proves dead. */
    function Cast<U>(): (r: Result<U>)
      ensures Err? ==> r == Err(error)
    {
      match this
      case Err(e) => Err(e)
      case Ok(_) => Err("")
    }
  }

  datatype Option<T> = None | Some(value: T)
}
