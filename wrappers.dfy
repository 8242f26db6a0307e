/** Optional values, used wherever the source reports "not found" (std::string::npos,
    an absent std::optional) or a conversion that does not take place. */
module Wrappers {

  datatype Option<+T> = None | Some(value: T) {

    /** The wrapped value, or `default` when there is none. */
    function GetOr(default: T): T {
      match this
      case Some(v) => v
      case None => default
    }
  }
}
