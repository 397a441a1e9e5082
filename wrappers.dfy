/** Option and Result types, and the exceptions the modelled Python code raises. */
module Wrappers {

  datatype Option<+T> = None | Some(value: T)

  /** The exceptions that escape, or are caught inside, the modelled operations. */
  datatype Exception =
    /** A `ValueError` raised by the code itself, with its message. */
    | ValueError(message: string)
    /** The `ValueError` of `time.strptime(s, "%H:%M")`. */
    | TimeFormatError(input: string)
    /** The `ValueError` of `time.strptime(s, "%A")`. */
    | DayFormatError(input: string)
    /** A `KeyError` for a missing dictionary key or enumeration member. */
    | KeyError(key: string)
    /** An `AttributeError` for an attribute the object does not have. */
    | AttributeError(attribute: string)
    /** The `IndexError` of indexing an empty list. */
    | IndexError
    /** A `TypeError` from calling a constructor with a keyword it does not declare, or without one it needs. */
    | TypeError(argument: string)

  /** Either a value or a raised exception. */
  datatype Result<+T> = Ok(value: T) | Raise(exception: Exception)
}
