/** Listing sessions through an injected fetcher, with optional filters. */
module List {
  import opened Wrappers
  import opened Types
  import opened Errors
  import opened JsString
  import opened Validation
  import opened Lifecycle

  /** The optional filter fields; an absent field is `Undefined`. */
  datatype ListRequest = ListRequest(status: Value, region: Value)

  /** Each present field is validated, status first; any failure stops the operation
      before the fetcher is called. Otherwise the fetcher is called once with the
      validated filter and its list is returned as is. */
  function ListSessions(filters: ListRequest, fetcher: Filter -> seq<Session>): (r: Run<seq<Session>>)
    ensures !filters.status.Undefined? && !IsStatusName(filters.status) ==>
      r == Run(Err(ValidateSessionStatus(filters.status).error), [])
    ensures ((filters.status.Undefined? || IsStatusName(filters.status))
             && !filters.region.Undefined? && !IsNonBlankString(filters.region)) ==>
      r == Run(Err(BadRequest(RegionMsg)), [])
    ensures ((filters.status.Undefined? || IsStatusName(filters.status))
             && (filters.region.Undefined? || IsNonBlankString(filters.region))) ==>
      && |r.trace| == 1 && r.trace[0].ListCalled?
      && r.out == Ok(fetcher(r.trace[0].filter))
      && (r.trace[0].filter.status.None? <==> filters.status.Undefined?)
      && (r.trace[0].filter.status.Some? ==>
            filters.status == Str(Name(r.trace[0].filter.status.value)))
      && (r.trace[0].filter.region.None? <==> filters.region.Undefined?)
      && (r.trace[0].filter.region.Some? ==>
            r.trace[0].filter.region.value == Trim(filters.region.s))
  {
    var status := if filters.status.Undefined? then Ok(None)
      else match ValidateSessionStatus(filters.status)
           case Err(e) => Err(e)
           case Ok(st) => Ok(Some(st));
    match status
    case Err(e) => Run(Err(e), [])
    case Ok(validStatus) =>
      var region := if filters.region.Undefined? then Ok(None)
        else match ValidateRegion(filters.region)
             case Err(e) => Err(e)
             case Ok(rg) => Ok(Some(rg));
      match region
      case Err(e) => Run(Err(e), [])
      case Ok(validRegion) =>
        var f := Filter(validStatus, validRegion);
        Run(Ok(fetcher(f)), [ListCalled(f)])
  }
}
