/** Optional values and the engine's typed failures. */
module Wrappers {

  datatype Option<+T> = None | Some(value: T) {

    /** The value, or `default` when there is none (Python's `dict.get(key, default)`). */
    function GetOr(default: T): T {
      match this
      case Some(v) => v
      case None => default
    }
  }

  /** The failure kinds a request can end in; each leaves the store as it was. */
  datatype Error =
    | NotFound         // note or action id unknown (HTTP 404)
    | Unauthorized     // role fails an edit, creation or assignment check (HTTP 403)
    | InvalidState     // revert of a note whose history is empty (HTTP 400)
    | ValidationError  // a role that cannot end a consult (HTTP 400)

  datatype Result<+T> = Success(value: T) | Failure(error: Error)
}
