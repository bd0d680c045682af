/** Retrieving a session through an injected fetcher. */
module Get {
  import opened Wrappers
  import opened Types
  import opened Errors
  import opened Validation
  import opened Lifecycle

  /** An invalid id is rejected before the fetcher is consulted; a valid one is passed to
      it once, verbatim, and a missing session becomes a not-found error. */
  function GetSession(sessionId: Value, fetcher: string -> Option<Session>): (r: Run<Session>)
    ensures !IsNonBlankString(sessionId) ==> r == Run(Err(BadRequest(SessionIdMsg)), [])
    ensures IsNonBlankString(sessionId) ==> r.trace == [FetchCalled(sessionId.s)]
    ensures IsNonBlankString(sessionId) && fetcher(sessionId.s).None? ==>
      r.out == Err(NotFound(SessionNotFoundMsg(sessionId.s)))
    ensures IsNonBlankString(sessionId) && fetcher(sessionId.s).Some? ==>
      r.out == Ok(fetcher(sessionId.s).value)
  {
    match CheckSessionId(sessionId)
    case Err(e) => Run(Err(e), [])
    case Ok(id) =>
      match fetcher(id)
      case None => Run(Err(NotFound(SessionNotFoundMsg(id))), [FetchCalled(id)])
      case Some(session) => Run(Ok(session), [FetchCalled(id)])
  }
}
