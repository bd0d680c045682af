/** The error taxonomy: an HTTP-style error carrying a status code and a message,
    its four named constructors, and the outcome of an operation that may fail. */
module Errors {

  /** An error as thrown by the core: the status code and message are stored as given. */
  datatype HttpErr = HttpErr(code: int, msg: string)

  /** Either a value or the error the operation threw. */
  datatype Outcome<+T> = Ok(value: T) | Err(error: HttpErr)

  const BadRequestCode: int := 400
  const UnauthorizedCode: int := 401
  const NotFoundCode: int := 404
  const InternalErrorCode: int := 500

  /** Malformed or invalid input. */
  function BadRequest(m: string): (e: HttpErr)
    ensures e.code == 400 && e.msg == m
  {
    HttpErr(BadRequestCode, m)
  }

  /** Authentication failure (raised only by the transport adapter). */
  function Unauthorized(m: string): (e: HttpErr)
    ensures e.code == 401 && e.msg == m
  {
    HttpErr(UnauthorizedCode, m)
  }

  /** The referenced session does not exist. */
  function NotFound(m: string): (e: HttpErr)
    ensures e.code == 404 && e.msg == m
  {
    HttpErr(NotFoundCode, m)
  }

  /** Unexpected failure (raised only by the transport adapter). */
  function InternalError(m: string): (e: HttpErr)
    ensures e.code == 500 && e.msg == m
  {
    HttpErr(InternalErrorCode, m)
  }

  /** The four kinds are told apart by their code alone, and each keeps its message, so
      an error built by one constructor is never equal to one built by another. */
  lemma KindsAreDistinct(m1: string, m2: string)
    ensures BadRequest(m1) != Unauthorized(m2) && BadRequest(m1) != NotFound(m2)
    ensures BadRequest(m1) != InternalError(m2) && Unauthorized(m1) != NotFound(m2)
    ensures Unauthorized(m1) != InternalError(m2) && NotFound(m1) != InternalError(m2)
    ensures BadRequest(m1) == BadRequest(m2) <==> m1 == m2
    ensures Unauthorized(m1) == Unauthorized(m2) <==> m1 == m2
    ensures NotFound(m1) == NotFound(m2) <==> m1 == m2
    ensures InternalError(m1) == InternalError(m2) <==> m1 == m2
  {
  }
}
