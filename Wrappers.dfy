/** The optional-value wrapper shared by every module of the model. */
module Wrappers {

  /** A value that may be absent: a JavaScript `undefined`/`null`, a missing
      query parameter, or a lookup that found nothing. */
  datatype Option<+T> = None | Some(value: T) {

    /** The wrapped value, or `default` when there is none. */
    function GetOr(default: T): T {
      match this
      case Some(v) => v
      case None => default
    }
  }
}
