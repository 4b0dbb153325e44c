/** Optional values: `Option` wherever the source has `null`, `undefined` or
    Python's `None`, and `Field` for a JSON field, where a missing field and
    an explicit `null` are told apart. */
module Wrappers {

  datatype Option<+T> = None | Some(value: T) {

    /** The wrapped value, or `default` when there is none (the `??` operator). */
    function GetOr(default: T): T {
      match this
      case Some(v) => v
      case None => default
    }
  }

  /** One field of a JSON document: missing, explicitly `null`, or a value. */
  datatype Field<T> = Unset | Null | Value(value: T)
}
