/** Option, Result and the exception kinds the portal raises or catches. */
module Outcomes {

  datatype Option<+T> = None | Some(value: T)

  /** Exceptions that travel through the modelled code. `Uncaught` stands for any
      Python error the code never catches (a TypeError, KeyError or AttributeError
      raised on a payload of unexpected shape); it aborts the request.
      `RequestError` is an exception of the HTTP library itself (timeout,
      refused connection) raised where no handler converts it. */
  datatype Exc =
    | ValueError
    | ConnectionError
    | ValidationError(message: string)
    | ApiException(message: string)
    | IntegrityError
    | ProtectedError
    | RequestError
    | Uncaught

  datatype Result<+T> = Ok(value: T) | Err(error: Exc) {
    /** Lets `:-` propagate the first exception, as Python unwinds. */
    predicate IsFailure() {
      Err?
    }

    function PropagateFailure<U>(): Result<U>
      requires Err?
    {
      Err(error)
    }

    function Extract(): T
      requires Ok?
    {
      value
    }
  }
}
