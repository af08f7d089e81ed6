/** Option and the two shapes of a call to the task or category store.
    The store itself (a remote record API) is not part of this model: every
    call is represented by the outcome it produced. */
module Wrappers {

  datatype Option<+T> = None | Some(value: T) {
    function GetOr(default: T): T {
      match this
      case Some(v) => v
      case None => default
    }
  }

  /** Result of a store call whose value the caller ignores (create, update, delete). */
  datatype Outcome = Success | Failure

  /** Result of a store read (`getAll`). */
  datatype Fetch<+T> = Fetched(value: T) | FetchFailed
}
