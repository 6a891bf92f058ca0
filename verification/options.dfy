/** Optional values: JavaScript's null/undefined and Python's None where a
    member of the model may or may not produce a value. */
module Options {

  datatype Option<+T> = None | Some(value: T) {

    /** The wrapped value, or the given default when there is none. */
    function GetOr(default: T): T {
      match this
      case Some(v) => v
      case None => default
    }
  }
}
