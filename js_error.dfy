/** Values thrown by awaited calls, and the status text the handlers show for them. */
module JsError {

  /** A thrown value: an `Error` with its message, or anything else. */
  datatype Thrown = ErrorObject(message: string) | NonError

  /** How an awaited call ends: it returns (its value is modelled elsewhere) or it throws. */
  datatype Completion = Returned | Threw(thrown: Thrown)

  /** `error instanceof Error ? error.message : fallback`. */
  function StatusText(thrown: Thrown, fallback: string): (text: string)
    ensures thrown.ErrorObject? ==> text == thrown.message
    ensures thrown.NonError? ==> text == fallback
  {
    match thrown
    case ErrorObject(message) => message
    case NonError => fallback
  }
}
