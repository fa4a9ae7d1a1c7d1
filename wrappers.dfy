/** Small value types shared by the view models: a value that may be
    null or undefined, and the settlement of an asynchronous call. */
module Wrappers {

  /** A JavaScript value that may be `null`/`undefined` (`None`). */
  datatype Option<+T> = None | Some(value: T) {

    /** The `??` operator: the value, or `default` when it is null/undefined. */
    function OrElse(default: T): T
    {
      match this
      case Some(v) => v
      case None => default
    }
  }

  /** How an awaited promise settles: resolved with a value, or rejected. */
  datatype Outcome<+T> = Succeeded(value: T) | Failed
}
