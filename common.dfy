/** Shared value types: JavaScript's optional values and the HTTP exceptions
    the services throw, as failure-compatible datatypes. */
module Common {

  /** A value that may be `undefined`. */
  datatype Option<+T> = None | Some(value: T) {
    /** The value, or `default` when it is absent: a field left `undefined` in
        an update keeps its stored value. */
    function GetOr(default: T): T {
      match this
      case Some(v) => v
      case None => default
    }
  }

  /** The exceptions raised towards the HTTP layer. `InternalError` stands for
      an error that is not an HTTP exception (the mailer's), which the
      framework answers with status 500. */
  datatype HttpError =
    | BadRequest(message: string)
    | Unauthorized(message: string)
    | NotFound(message: string)
    | InternalError(message: string)

  /** Either the value an operation returns or the exception it throws. */
  datatype Result<+T> = Ok(value: T) | Err(error: HttpError) {
    predicate IsFailure() {
      Err?
    }

    function PropagateFailure<U>(): Result<U>
      requires Err?
    {
      Err(error)
    }

    function Extract(): T
      requires Ok?
    {
      value
    }
  }
}
