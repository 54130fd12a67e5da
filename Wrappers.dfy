/** Small helper datatypes shared by the modules of the model. */
module Wrappers {

  /** A JavaScript value that may be `null`. */
  datatype Option<+T> = None | Some(value: T) {

    /** The held value, or `default` when the value is `null`. */
    function GetOr(default: T): T {
      match this
      case Some(v) => v
      case None => default
    }
  }

  /** JavaScript truthiness of a string that may be null: `null` and `""` are falsy. */
  predicate Truthy(s: Option<string>) {
    s.Some? && s.value != ""
  }
}
