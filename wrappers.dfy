/** The optional values used throughout the model for `undefined`/`null`. */
module Wrappers {

  datatype Option<+T> = None | Some(value: T) {

    /** `this ?? default` */
    function GetOr(default: T): T {
      match this
      case Some(v) => v
      case None => default
    }
  }

  /**
   * A property of an object: missing (`'key' in obj` is false), present but
   * `null`/`undefined`, or present with a value.  An object spread copies a
   * present property even when it is `undefined`.
   */
  datatype Slot<T> = Absent | Nullish | Given(value: T)
}
