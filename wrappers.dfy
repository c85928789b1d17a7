/** Failure-compatible wrappers for the values a Python call may produce
    instead of raising: Option for "no value" and Result for an exception
    of a known kind. */
module Wrappers {

  datatype Option<+T> = None | Some(value: T) {

    predicate IsFailure() {
      None?
    }

    function PropagateFailure<U>(): Option<U>
      requires None?
    {
      None
    }

    function Extract(): T
      requires Some?
    {
      value
    }
  }

  /** The kinds of Python exception the modelled code can raise. */
  datatype PyError =
    | AttributeError  // attribute access on None, e.g. `None.split`
    | IndexError      // list index out of range
    | KeyError        // missing key in an element's attribute dictionary
    | TypeError       // iterating over None
    | ValueError      // tuple unpacking with the wrong number of parts, `max([])`

  datatype Result<+T> = Ok(value: T) | Err(error: PyError) {

    predicate IsFailure() {
      Err?
    }

    function PropagateFailure<U>(): Result<U>
      requires Err?
    {
      Err(error)
    }

    function Extract(): T
      requires Ok?
    {
      value
    }
  }
}
