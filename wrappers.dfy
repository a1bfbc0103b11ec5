/** Failure-carrying result types shared by the codec modules. */
module Wrappers {

  /** A value that may be absent: a JavaScript property that is null or undefined. */
  datatype Option<+T> = None | Some(value: T)

  /** Why a decode step could not produce a value. */
  datatype Error =
    | Truncated                 // the buffer ended before the field did
    | UnknownCode(code: int)    // a symbol code with no entry in its reverse table

  /** A decoded value or the reason there is none; usable with `:-`. */
  datatype Result<+T> = Ok(value: T) | Err(error: Error) {
    predicate IsFailure() { Err? }

    function PropagateFailure<U>(): Result<U>
      requires Err?
    {
      Err(error)
    }

    function Extract(): T
      requires Ok?
    {
      value
    }
  }
}
