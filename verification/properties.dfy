/** Properties that relate the lifecycle operations to each other and to a session store:
    the session invariant, the error policy, and the behaviour the operations' callers
    rely on. */
module SessionProperties {
  import opened Wrappers
  import opened Types
  import opened Errors
  import opened JsString
  import opened Validation
  import opened Lifecycle
  import opened Create
  import opened Get
  import opened Update
  import opened List

  /** The record invariant: a non-empty region with no white space at either end, and an
      update time no earlier than the creation time. */
  predicate WellFormed(s: Session)
  {
    s.region != [] && NoEdgeWs(s.region) && s.createdAt <= s.updatedAt
  }

  /** A store-backed fetcher: the session stored under the id, if any. */
  function StoreFetcher(store: map<string, Session>): string -> Option<Session>
  {
    id => if id in store then Some(store[id]) else None
  }

  /** A store-backed updater, as the transport adapter supplies it: the stored session with
      the new status and update time, or nothing when no session has that id. */
  function StoreUpdater(store: map<string, Session>): (string, Status, int) -> Option<Session>
  {
    (id, st, at) => if id in store then Some(store[id].(status := st, updatedAt := at)) else None
  }

  /** A created session satisfies the record invariant, with equal timestamps. */
  lemma CreateEstablishesInvariant(input: CreateRequest, now: int, uuid: string)
    ensures CreateSession(input, now, uuid).out.Ok? ==>
      && WellFormed(CreateSession(input, now, uuid).out.value)
      && CreateSession(input, now, uuid).out.value.createdAt
         == CreateSession(input, now, uuid).out.value.updatedAt
  {
  }

  /** Against a store, an update of a stored session returns that session with only its
      status and update time replaced; an id not in the store yields not-found. */
  lemma UpdateThroughStore(store: map<string, Session>, id: string, st: Status, now: int)
    requires !AllWs(id)
    ensures var r := UpdateSessionStatus(Str(id), Str(Name(st)), now, StoreUpdater(store));
      && (id in store ==>
            && r.out.Ok?
            && r.out.value.sessionId == store[id].sessionId
            && r.out.value.region == store[id].region
            && r.out.value.createdAt == store[id].createdAt
            && r.out.value.status == st
            && r.out.value.updatedAt == now)
      && (id !in store ==> r.out == Err(NotFound(SessionNotFoundMsg(id))))
  {
    ValidateSessionStatusRoundTrip(st);
  }

  /** With a clock that does not run backwards, an update through the store keeps the
      record invariant. */
  lemma UpdatePreservesInvariant(store: map<string, Session>, id: string, st: Status, now: int)
    requires !AllWs(id) && id in store
    requires WellFormed(store[id]) && store[id].updatedAt <= now
    ensures var r := UpdateSessionStatus(Str(id), Str(Name(st)), now, StoreUpdater(store));
      r.out.Ok? && WellFormed(r.out.value)
  {
  }

  /** No transition is forbidden: from whatever status a stored session is in, an update to
      any status succeeds and the session ends up in that status. */
  lemma AnyTransitionAllowed(s: Session, target: Status, now: int)
    requires !AllWs(s.sessionId)
    ensures UpdateSessionStatus(Str(s.sessionId), Str(Name(target)), now,
                                StoreUpdater(map[s.sessionId := s])).out
            == Ok(s.(status := target, updatedAt := now))
  {
    ValidateSessionStatusRoundTrip(target);
  }

  /** Reading back through the store finds exactly what is stored under the id. */
  lemma GetThroughStore(store: map<string, Session>, id: string)
    requires !AllWs(id)
    ensures id in store ==> GetSession(Str(id), StoreFetcher(store)).out == Ok(store[id])
    ensures id !in store ==>
      GetSession(Str(id), StoreFetcher(store)).out == Err(NotFound(SessionNotFoundMsg(id)))
  {
  }

  /** The error policy, in four parts: with injected functions that do not throw, the
      operations raise only bad-request and not-found errors; every bad-request error is raised before any effect, and every
      not-found error only after the injected function has been called. */
  lemma CreateErrorPolicy(input: CreateRequest, now: int, uuid: string)
    ensures var r := CreateSession(input, now, uuid);
      r.out.Err? ==> r.out.error.code == 400 && r.trace == []
  {
  }

  lemma GetErrorPolicy(id: Value, fetcher: string -> Option<Session>)
    ensures var r := GetSession(id, fetcher);
      r.out.Err? ==>
        || (r.out.error.code == 400 && r.trace == [])
        || (r.out.error.code == 404 && r.trace == [FetchCalled(id.s)])
  {
  }

  lemma UpdateErrorPolicy(id: Value, status: Value, now: int,
                          updater: (string, Status, int) -> Option<Session>)
    ensures var r := UpdateSessionStatus(id, status, now, updater);
      r.out.Err? ==>
        || (r.out.error.code == 400 && r.trace == [])
        || (r.out.error.code == 404 && |r.trace| == 2 && r.trace[1].UpdateCalled?)
  {
  }

  lemma ListErrorPolicy(filters: ListRequest, fetcher: Filter -> seq<Session>)
    ensures var r := ListSessions(filters, fetcher);
      r.out.Err? ==> r.out.error.code == 400 && r.trace == []
  {
  }

  /** When both the id and the status are invalid, the id error is the one reported. */
  lemma UpdateChecksIdFirst(id: Value, status: Value, now: int, updater: (string, Status, int) -> Option<Session>)
    requires !IsNonBlankString(id) && !IsStatusName(status)
    ensures UpdateSessionStatus(id, status, now, updater).out == Err(BadRequest(SessionIdMsg))
  {
  }

  /** When both filters are invalid, the status validator's error is the one reported,
      and the fetcher is not called. */
  lemma ListChecksStatusFirst(status: Value, region: Value, fetcher: Filter -> seq<Session>)
    requires !status.Undefined? && !IsStatusName(status)
    requires !region.Undefined? && !IsNonBlankString(region)
    ensures ListSessions(ListRequest(status, region), fetcher)
            == Run(Err(ValidateSessionStatus(status).error), [])
  {
  }

  /** A region with surrounding spaces is created trimmed. */
  lemma CreateTrimsRegion(now: int, uuid: string)
    ensures CreateSession(CreateRequest(Str(" us-central1 ")), now, uuid).out
            == Ok(Session(uuid, "us-central1", Pending, now, now))
  {
    var s := " us-central1 ";
    assert s[1..12] == "us-central1";
    assert s[..1] == " " && s[12..] == " ";
    TrimIsCanonicalSlice(s, 1, 12);
  }

  /** An id with surrounding spaces passes the check and reaches the fetcher untrimmed. */
  lemma GetForwardsUntrimmedId(fetcher: string -> Option<Session>)
    ensures GetSession(Str(" abc "), fetcher).trace == [FetchCalled(" abc ")]
  {
  }

  /** With no filters the fetcher receives a filter with both fields `None` (both keys hold
      `undefined`), and its list comes back as is. */
  lemma ListWithoutFilters(fetcher: Filter -> seq<Session>)
    ensures ListSessions(ListRequest(Undefined, Undefined), fetcher)
            == Run(Ok(fetcher(Filter(None, None))), [ListCalled(Filter(None, None))])
  {
  }

  /** A string naming no status stops the list operation before its fetcher is called. */
  lemma ListRejectsUnknownStatus(fetcher: Filter -> seq<Session>)
    ensures ListSessions(ListRequest(Str("bogus"), Undefined), fetcher)
            == Run(Err(BadRequest("Invalid session status: bogus")), [])
  {
  }
}
