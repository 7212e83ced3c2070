/** Option type shared by the models of the frontend and the backend. */
module Wrappers {

  /** A value that may be absent (JavaScript `undefined`/`null`, Python `None`). */
  datatype Option<+T> = None | Some(value: T) {

    /** The value, or `default` when absent. */
    function GetOr(default: T): T {
      match this
      case Some(v) => v
      case None => default
    }
  }
}
