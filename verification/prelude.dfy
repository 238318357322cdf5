/** The Python vocabulary the results subsystem relies on: `None`, raised
    exceptions, and `str.startswith`. */
module Prelude {

  /** A Python value that may be `None`. */
  datatype Option<+T> = None | Some(value: T)

  /** The exception classes the rendering code raises. `IndexError` is what
      Python raises when `entries[0]` is read from an empty list. */
  datatype Error =
    | ValueError(message: string)
    | NotImplementedError(message: string)
    | IndexError

  /** Either the value a Python call returns or the exception it raises. */
  datatype Result<+T> = Ok(value: T) | Err(error: Error) {
    predicate IsFailure() {
      Err?
    }

    function PropagateFailure<U>(): Result<U>
      requires Err?
    {
      Err(error)
    }

    function Extract(): T
      requires Ok?
    {
      value
    }
  }

  /** Python's `s.startswith(prefix)`. */
  predicate StartsWith(s: string, prefix: string) {
    |prefix| <= |s| && s[..|prefix|] == prefix
  }
}
