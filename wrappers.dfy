/** Option for the values the dashboard's TypeScript writes as `T | null`
    or `T | undefined` (the two are not told apart by this model). */
module Wrappers {

  datatype Option<+T> = None | Some(value: T) {

    /** `x ?? d`: the value when present, the default otherwise. */
    function GetOr(default: T): T
    {
      match this
      case Some(v) => v
      case None => default
    }
  }
}
