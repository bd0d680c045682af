/** Validators for untyped input: the region, the session status, and the session
    identifier check that the get and update operations share. */
module Validation {
  import opened Wrappers
  import opened Types
  import opened Errors
  import opened JsString

  /** An untyped (`unknown`) input as far as the validators can tell it apart: a string,
      `undefined` (an absent field), or any other non-string value (`null`, a number,
      an object, ...). */
  datatype Value = Str(s: string) | Undefined | NonString

  const RegionMsg: string := "Region must be a non-empty string"
  const StatusTypeMsg: string := "Session status must be a string"
  const InvalidStatusPrefix: string := "Invalid session status: "
  const SessionIdMsg: string := "Session ID must be a non-empty string"

  /** The message for a string that names no status; the string is spliced in verbatim. */
  function InvalidStatusMsg(value: string): string
  {
    InvalidStatusPrefix + value
  }

  /** `typeof v === 'string'` and `v` has some character that is not white space. */
  predicate IsNonBlankString(v: Value)
  {
    v.Str? && !AllWs(v.s)
  }

  /** `v` is exactly the string value of some status member. */
  predicate IsStatusName(v: Value)
  {
    v.Str? && exists st: Status :: Name(st) == v.s
  }

  /** Rejects anything but a string with non-white-space content, and returns the
      trimmed string otherwise. */
  function ValidateRegion(v: Value): (r: Outcome<string>)
    ensures r.Ok? <==> IsNonBlankString(v)
    ensures r.Err? ==> r.error == BadRequest(RegionMsg)
    ensures r.Ok? ==> r.value == Trim(v.s) && r.value != [] && NoEdgeWs(r.value)
  {
    if !v.Str? || Trim(v.s) == "" then
      Err(BadRequest(RegionMsg))
    else
      Ok(Trim(v.s))
  }

  /** Feeding an accepted region back in is accepted again and yields the same string. */
  lemma ValidateRegionIdempotent(v: Value)
    requires ValidateRegion(v).Ok?
    ensures ValidateRegion(Str(ValidateRegion(v).value)) == ValidateRegion(v)
  {
    TrimIdempotent(v.s);
  }

  /** `Object.values(SessionStatus).includes(s)`: a scan of `candidates` for a member
      whose string value is `s`. */
  function FindStatus(candidates: seq<Status>, s: string): (r: Option<Status>)
    ensures r.Some? ==> r.value in candidates && Name(r.value) == s
    ensures r.None? ==> forall st :: st in candidates ==> Name(st) != s
  {
    if candidates == [] then None
    else if Name(candidates[0]) == s then Some(candidates[0])
    else FindStatus(candidates[1..], s)
  }

  /** Rejects a non-string first, then a string that names no status; a valid string is
      returned as the member it names. */
  function ValidateSessionStatus(v: Value): (r: Outcome<Status>)
    ensures !v.Str? ==> r == Err(BadRequest(StatusTypeMsg))
    ensures r.Ok? <==> IsStatusName(v)
    ensures r.Ok? ==> v == Str(Name(r.value))
    ensures v.Str? && r.Err? ==> r.error == BadRequest(InvalidStatusMsg(v.s))
  {
    if !v.Str? then
      Err(BadRequest(StatusTypeMsg))
    else
      match FindStatus(AllStatuses, v.s)
      case None =>
        assert forall st: Status :: Name(st) != v.s by {
          forall st: Status ensures Name(st) != v.s {
            StatusIsEnumerated(st);
          }
        }
        Err(BadRequest(InvalidStatusMsg(v.s)))
      case Some(st) => Ok(st)
  }

  /** Each member's string value validates to that member, so validation is the identity
      on the four names and, with the contract above, a bijection between them and the
      members. */
  lemma ValidateSessionStatusRoundTrip(st: Status)
    ensures ValidateSessionStatus(Str(Name(st))) == Ok(st)
  {
  }

  /** The type check runs first: a non-string never draws the invalid-value message,
      whatever value that message would name. */
  lemma TypeCheckPrecedesMembership(v: Value, shown: string)
    requires !v.Str?
    ensures ValidateSessionStatus(v) != Err(BadRequest(InvalidStatusMsg(shown)))
  {
    assert StatusTypeMsg[0] == 'S';
    assert InvalidStatusMsg(shown)[0] == 'I';
  }

  /** The session identifier check of the get and update operations: a string with some
      non-white-space character passes, and is returned exactly as given (not trimmed). */
  function CheckSessionId(v: Value): (r: Outcome<string>)
    ensures r.Ok? <==> IsNonBlankString(v)
    ensures r.Ok? ==> r.value == v.s
    ensures r.Err? ==> r.error == BadRequest(SessionIdMsg)
  {
    if !v.Str? || Trim(v.s) == "" then
      Err(BadRequest(SessionIdMsg))
    else
      Ok(v.s)
  }
}
