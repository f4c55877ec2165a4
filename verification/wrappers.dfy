/** A value that may be absent: a DOM lookup that found nothing, an
    attribute that is not set, a search index that has not loaded. */
module Wrappers {

  datatype Option<+T> = None | Some(value: T) {

    /** The value if present, otherwise the given default (`x || d`). */
    function GetOr(default: T): T {
      match this
      case Some(v) => v
      case None => default
    }
  }
}
