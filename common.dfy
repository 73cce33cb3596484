/** Python's `None`-or-value, and the instance attribute that has not been
    assigned yet (reading it raises `AttributeError` in Python). */
module Common {

  datatype Option<+T> = None | Some(value: T)

  /** The state of an instance attribute: never assigned, or holding a value. */
  datatype Attr<+T> = Unset | Set(value: T)
}
