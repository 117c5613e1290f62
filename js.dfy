/** Values the JavaScript runtime hands around: optional values, results of
    calls that may throw, and the thrown values themselves. */
module Js {

  datatype Option<+T> = None | Some(value: T)

  /** The outcome of a call that either returns a value or throws. */
  datatype Result<+T, +E> = Success(value: T) | Failure(error: E)

  /** The built-in error classes the model distinguishes. */
  datatype ErrorClass = Error | SyntaxError | TypeError

  /** A thrown value: an `Error` instance (with its class and message) or
      anything else a promise may be rejected with. */
  datatype Thrown = ErrorObject(kind: ErrorClass, message: string) | NonError

  const UnknownErrorMessage: string := "An unknown error occurred."

  /** `err instanceof Error ? err.message : 'An unknown error occurred.'` */
  function MessageOf(t: Thrown): (m: string)
    ensures t.ErrorObject? ==> m == t.message
    ensures t.NonError? ==> m == UnknownErrorMessage
  {
    match t
    case ErrorObject(_, message) => message
    case NonError => UnknownErrorMessage
  }

  /** `new Error(message)` */
  function PlainError(message: string): Thrown
  {
    ErrorObject(Error, message)
  }

  function Min(a: int, b: int): (m: int)
    ensures m <= a && m <= b && (m == a || m == b)
  {
    if a <= b then a else b
  }
}
