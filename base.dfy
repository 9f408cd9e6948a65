/** Small shared datatypes: an optional value, and the Python exceptions that
    escape from the parser and the report (every other error path of the core
    is a value). */
module Base {

  datatype Option<+T> = None | Some(value: T)

  /** The exceptions that the modelled code lets propagate to its caller. */
  datatype PyError =
    | OverflowError      // a date or timedelta outside Python's supported range
    | UnboundLocalError  // `timedelta` read before the function-local import binds it
    | ZeroDivisionError  // a ratio to an average of 0

  datatype Outcome<+T> = Ok(value: T) | Raised(error: PyError)
}
