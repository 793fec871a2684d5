/** Option, the two error classes the handlers return, and a Result over them. */
module Wrappers {

  /** A JavaScript value that may be `undefined` (or `null`). */
  datatype Option<+T> = None | Some(value: T)

  /** The error classes of the domain: a validation failure carrying its field messages, or anything else. */
  datatype Failure =
    | DomainValidationError(messages: seq<string>)
    | UnknownError

  /** The outcome of a constructor or handler: the built value, or the error it throws. */
  datatype Result<+T> = Ok(value: T) | Err(error: Failure) {

    predicate IsFailure() {
      Err?
    }

    function PropagateFailure<U>(): Result<U>
      requires Err?
    {
      Err(error)
    }

    function Extract(): T
      requires Ok?
    {
      value
    }
  }

  /** A constructor that validates: the value itself when no message was raised, else a validation error. */
  function Validated<T>(value: T, messages: seq<string>): (r: Result<T>)
    ensures r.Ok? <==> messages == []
    ensures r.Ok? ==> r.value == value
    ensures r.Err? ==> r.error == DomainValidationError(messages)
  {
    if messages == [] then Ok(value) else Err(DomainValidationError(messages))
  }

  /** The messages a validation error carries; none for a success or an unknown error. */
  function Messages<T>(r: Result<T>): seq<string> {
    if r.Err? && r.error.DomainValidationError? then r.error.messages else []
  }
}
