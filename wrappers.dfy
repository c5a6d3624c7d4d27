/** Optional values: the model's stand-in for Python's None, JavaScript's
    undefined/null and Ruby's nil, and for a JSON key that is absent. */
module Wrappers {

  datatype Option<+T> = None | Some(value: T) {

    /** The value, or `default` when there is none (Python's `d.get(k, default)`). */
    function GetOr(default: T): T {
      match this
      case Some(v) => v
      case None => default
    }
  }
}
