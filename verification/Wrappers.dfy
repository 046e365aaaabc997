/** The optional values and error results the models share. */
module Wrappers {
  datatype Option<+T> = None | Some(value: T) {
    /** The encapsulated value, or a default. */
    function GetOr(default: T): T {
      match this
      case Some(v) => v
      case None => default
    }

    /** This option if it holds a value, else the other one: Python's `a or b`. */
    function OrElse(other: Option<T>): Option<T> {
      if Some? then this else other
    }
  }

  datatype Result<+T, +E> = Ok(value: T) | Err(error: E)
}
