/** Changing a session's status through an injected updater. */
module Update {
  import opened Wrappers
  import opened Types
  import opened Errors
  import opened Validation
  import opened Lifecycle

  /** The id is checked before the status, both before the clock is read; the updater is
      then called once with the id as given, the validated status and that one reading.
      The session's current status plays no part, so every transition is allowed. */
  function UpdateSessionStatus(
    sessionId: Value,
    status: Value,
    now: int,
    updater: (string, Status, int) -> Option<Session>
  ): (r: Run<Session>)
    ensures !IsNonBlankString(sessionId) ==> r == Run(Err(BadRequest(SessionIdMsg)), [])
    ensures IsNonBlankString(sessionId) && !IsStatusName(status) ==>
      r == Run(Err(ValidateSessionStatus(status).error), [])
    ensures IsNonBlankString(sessionId) && IsStatusName(status) ==>
      var st := ValidateSessionStatus(status).value;
      && status == Str(Name(st))
      && r.trace == [ClockRead(now), UpdateCalled(sessionId.s, st, now)]
      && (updater(sessionId.s, st, now).None? ==>
            r.out == Err(NotFound(SessionNotFoundMsg(sessionId.s))))
      && (updater(sessionId.s, st, now).Some? ==>
            r.out == Ok(updater(sessionId.s, st, now).value))
  {
    match CheckSessionId(sessionId)
    case Err(e) => Run(Err(e), [])
    case Ok(id) =>
      match ValidateSessionStatus(status)
      case Err(e) => Run(Err(e), [])
      case Ok(validStatus) =>
        var updatedAt := now;
        var trace := [ClockRead(updatedAt), UpdateCalled(id, validStatus, updatedAt)];
        match updater(id, validStatus, updatedAt)
        case None => Run(Err(NotFound(SessionNotFoundMsg(id))), trace)
        case Some(session) => Run(Ok(session), trace)
  }
}
