/** Creating a session: validate the region, then read the clock and generate an id. */
module Create {
  import opened Types
  import opened Errors
  import opened JsString
  import opened Validation
  import opened Lifecycle

  /** The input record; a missing `region` field is `Undefined`. */
  datatype CreateRequest = CreateRequest(region: Value)

  /** `now` is the clock reading and `uuid` the generated identifier; the trace shows that
      both are taken only once the region has been accepted. */
  function CreateSession(input: CreateRequest, now: int, uuid: string): (r: Run<Session>)
    ensures !IsNonBlankString(input.region) ==> r == Run(Err(BadRequest(RegionMsg)), [])
    ensures IsNonBlankString(input.region) ==>
      && r.trace == [ClockRead(now), IdGenerated(uuid)]
      && r.out.Ok?
      && r.out.value.sessionId == uuid
      && r.out.value.region == Trim(input.region.s)
      && r.out.value.status == Pending
      && r.out.value.createdAt == now
      && r.out.value.updatedAt == now
  {
    match ValidateRegion(input.region)
    case Err(e) => Run(Err(e), [])
    case Ok(region) =>
      Run(Ok(Session(uuid, region, Pending, now, now)), [ClockRead(now), IdGenerated(uuid)])
  }
}
