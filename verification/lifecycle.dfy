/** What the lifecycle operations share: the filter record handed to the list fetcher,
    the trace of effects an operation performs, and the not-found message. */
module Lifecycle {
  import opened Wrappers
  import opened Types
  import opened Errors

  /** The filter record the list operation hands to its fetcher; `None` stands for a key
      holding `undefined`. */
  datatype Filter = Filter(status: Option<Status>, region: Option<string>)

  /** One externally visible step of an operation, in the order it happens: reading the
      clock, generating an identifier, or calling an injected data-access function
      (with the arguments it was called with). */
  datatype Effect =
    | ClockRead(at: int)
    | IdGenerated(id: string)
    | FetchCalled(id: string)
    | UpdateCalled(id: string, status: Status, at: int)
    | ListCalled(filter: Filter)

  /** What an operation produced, together with the effects it performed. */
  datatype Run<+T> = Run(out: Outcome<T>, trace: seq<Effect>)

  /** The not-found message; the identifier is spliced in as given. */
  function SessionNotFoundMsg(id: string): string
  {
    "Session not found: " + id
  }
}
