/** Optional values, standing for the TypeScript `T | undefined` fields and for
    operations that can throw (`None` is the thrown case). */
module Wrappers {

  datatype Option<+T> = None | Some(value: T) {

    /** The value, or `default` when absent (the `x || default` idiom on a
        field that is either set or undefined). */
    function GetOr(default: T): T
    {
      match this
      case Some(v) => v
      case None => default
    }
  }
}
