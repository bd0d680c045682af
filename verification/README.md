# Session lifecycle core, modelled in Dafny

This project models the validation and lifecycle core of a small session-tracking API.
A session has an id, a region, a status (`pending`, `active`, `completed` or `failed`)
and creation and update times. The model covers:

- the input validators for regions and statuses;
- the HTTP error taxonomy (400, 401, 404, 500);
- the four lifecycle operations: create, get, update-status and list.

Each operation takes untyped input. Get, update and list also take an injected
data-access function. Each one either returns a result or fails with an `HttpErr`.

Modelling choices:

- An untyped input is `Validation.Value`: a string, `undefined`, or some other non-string.
- A thrown error is the `Err` case of `Errors.Outcome`.
- The clock reading and the generated UUID are parameters (`now`, `uuid`).
- The injected fetcher and updater are Dafny function values.
- Every operation returns a `Lifecycle.Run`. A `Run` holds the outcome plus the trace of
  effects performed, in order: clock read, id generated, and each injected call with its
  arguments. "Called exactly once with x" and "never called" are statements about this trace.
- `String.prototype.trim` is `JsString.Trim`. It strips the ECMAScript white-space and
  line-terminator set. Only the example lemmas `SessionProperties.CreateTrimsRegion` and
  `SessionProperties.GetForwardsUntrimmedId` depend on which characters are in that set.

Files:

- `wrappers.dfy`: `Option`.
- `types.dfy`: `Status` and `Session`.
- `errors.dfy`: `HttpErr` and its constructors.
- `js_string.dfy`: trim.
- `validation.dfy`: the validators.
- `lifecycle.dfy`: the effect trace.
- `create_session.dfy`, `get_session.dfy`, `update_session_status.dfy`, `list_sessions.dfy`:
  the four operations.
- `properties.dfy`: lemmas that relate the operations to a map-backed store and to
  each other.

## Model

| member | source | states |
|---|---|---|
| Types.StatusIsEnumerated | src/types/index.ts:1-6 | Every status is one of exactly four distinct enum members. |
| Types.NameInjective | src/types/index.ts:2-5 | Two members have the same string value only if they are the same member. |
| Errors.BadRequest | src/utils/errors.ts:11-13 | The error has code 400 and keeps the given message. |
| Errors.Unauthorized | src/utils/errors.ts:15-17 | The error has code 401 and keeps the given message. |
| Errors.NotFound | src/utils/errors.ts:19-21 | The error has code 404 and keeps the given message. |
| Errors.InternalError | src/utils/errors.ts:23-25 | The error has code 500 and keeps the given message. |
| Errors.KindsAreDistinct | src/utils/errors.ts:4-25 | Errors from different constructors are never equal. Each of the four constructors is injective in its message. |
| JsString.SkipLeadingWs | src/utils/validation.ts:8 | The scan stops at the first non-white-space index at or after its start, or at the end of the string. Everything it skipped is white space. |
| JsString.SkipTrailingWs | src/utils/validation.ts:8 | The backward scan stops just after the last non-white-space character, or at its lower bound. Everything it skipped is white space. |
| JsString.Trim | src/utils/validation.ts:5-8 | The result has no white space at either end. It is empty exactly when the input is all white space. |
| JsString.TrimRemovesOnlyWs | src/utils/validation.ts:5-8 | There are bounds `lo <= hi` with `Trim(s) == s[lo..hi]`, and only white space lies before `lo` and after `hi`. |
| JsString.TrimIsCanonicalSlice | src/utils/validation.ts:5-8 | A slice with white space on both sides and none at its own ends is exactly what trim returns. |
| JsString.TrimIdempotent | src/utils/validation.ts:8 | Trimming twice gives the same result as trimming once. |
| Validation.ValidateRegion | src/utils/validation.ts:4-9 | The region is accepted exactly when it is a string with a non-white-space character. On acceptance the result is the trimmed string, non-empty, with clean ends. Otherwise the error is 400 "Region must be a non-empty string". |
| Validation.ValidateRegionIdempotent | src/utils/validation.ts:4-9 | Validating an accepted region again succeeds with the same string. |
| Validation.FindStatus | src/utils/validation.ts:16 | The membership scan finds a listed member whose string value is the input, or reports that none has it. |
| Validation.ValidateSessionStatus | src/utils/validation.ts:11-23 | A non-string fails with 400 "Session status must be a string". A string naming no member fails with 400 "Invalid session status: {value}". A member's name is accepted as exactly that member. |
| Validation.ValidateSessionStatusRoundTrip | src/utils/validation.ts:16-22 | Each member's string value validates to that member, so status validation is the identity on the four names. |
| Validation.TypeCheckPrecedesMembership | src/utils/validation.ts:12-20 | A non-string never gets the "Invalid session status" message. |
| Validation.CheckSessionId | src/sessions/getSession.ts:8-10 | The id is accepted exactly when it is a string with a non-white-space character. It is returned untrimmed. Otherwise the error is 400 "Session ID must be a non-empty string". |
| Create.CreateSession | src/sessions/createSession.ts:5-17 | An unacceptable region fails with the region 400 error and has no effects. Otherwise: the clock is read, then the id is generated. The session has the trimmed region, status pending, the supplied id, and both timestamps equal to the clock reading. |
| Get.GetSession | src/sessions/getSession.ts:4-19 | An invalid id fails with 400 and the fetcher is not called. A valid id is passed to the fetcher once, verbatim. No session gives 404 "Session not found: {id}"; a found session is returned unchanged. |
| Update.UpdateSessionStatus | src/sessions/updateSessionStatus.ts:5-24 | An invalid id fails with the id 400 error. A valid id with an invalid status fails with the status validator's error. In both cases nothing else happens. Otherwise the clock is read once. The updater is then called once with the untrimmed id, the validated status and that reading. A null result gives 404; any other result is returned verbatim. |
| List.ListSessions | src/sessions/listSessions.ts:4-20 | An invalid status filter, when present, fails first. An invalid region filter, when present, fails next. Neither failure calls the fetcher. Otherwise the fetcher is called once. A field that was not given is `None` in its filter (the key holds `undefined`); given ones hold the validated status and the trimmed region. Its list is returned as is. |
| SessionProperties.CreateEstablishesInvariant | src/sessions/createSession.ts:6-16 | A created session has a non-empty trimmed region and equal timestamps. |
| SessionProperties.UpdateThroughStore | src/sessions/updateSessionStatus.ts:14-23 | With a store-backed updater, a stored session comes back with only its status and update time changed. An unknown id gives 404. |
| SessionProperties.UpdatePreservesInvariant | src/sessions/updateSessionStatus.ts:15-23 | If the clock has not gone backwards, an update through the store keeps the region and timestamp invariant. |
| SessionProperties.AnyTransitionAllowed | src/sessions/updateSessionStatus.ts:14-17 | Any status can move to any other status: the current status is never consulted. |
| SessionProperties.GetThroughStore | src/sessions/getSession.ts:12-18 | With a store-backed fetcher, get returns exactly the stored session, or 404 when the id is absent. |
| SessionProperties.CreateErrorPolicy | src/sessions/createSession.ts:6 | Create fails only with 400, and only before any effect. |
| SessionProperties.GetErrorPolicy | src/sessions/getSession.ts:8-16 | Get fails with 400 before any call, or with 404 after exactly one fetcher call. |
| SessionProperties.UpdateErrorPolicy | src/sessions/updateSessionStatus.ts:10-21 | Update fails with 400 before any effect, or with 404 only after the updater was called. |
| SessionProperties.ListErrorPolicy | src/sessions/listSessions.ts:11-19 | List fails only with 400, and only before the fetcher is called. |
| SessionProperties.UpdateChecksIdFirst | src/sessions/updateSessionStatus.ts:10-14 | If both the id and the status are invalid, the id error is reported. |
| SessionProperties.ListChecksStatusFirst | src/sessions/listSessions.ts:11-17 | If both filters are invalid, the status validator's error is reported and the fetcher is not called. |
| SessionProperties.CreateTrimsRegion | src/sessions/createSession.ts:6-16 | Region " us-central1 " creates a pending session in region "us-central1". |
| SessionProperties.GetForwardsUntrimmedId | src/sessions/getSession.ts:8-12 | Id " abc " passes validation and reaches the fetcher with its spaces intact. |
| SessionProperties.ListWithoutFilters | src/sessions/listSessions.ts:8-19 | With no filters, the fetcher gets a filter whose status and region are both `None` (both keys hold `undefined`), and its list is returned. |
| SessionProperties.ListRejectsUnknownStatus | src/sessions/listSessions.ts:11-13 | Status "bogus" fails with 400 "Invalid session status: bogus" and the fetcher is not called. |

## Left out

- The Firebase HTTP adapter in `src/index.ts` is not modelled. That covers auth-token checks and their emulator/demo bypass, Firestore reads and writes, HTTP method checks (405), and mapping errors to responses. All of it is I/O and foreign-library code. `SessionProperties.StoreFetcher` and `StoreUpdater` are map-backed stand-ins for its closures.
- UUID generation (`crypto.randomUUID`) is a string parameter. Randomness and uniqueness are not modelled.
- The clock (`new Date()`) is an integer parameter. `Date` semantics are not modelled.
- `JsString.IsWs` fixes the ECMAScript white-space set. Only the example lemmas `SessionProperties.CreateTrimsRegion` and `SessionProperties.GetForwardsUntrimmedId` rely on its contents. UTF-16 code units are not modelled separately from code points: every character in the set lies in the Basic Multilingual Plane.
- The `HttpError` class is the `Errors.HttpErr` datatype constructor. Its `Error` subclassing and prototype fix-up are not modelled.
- The record invariant `updatedAt >= createdAt` is not enforced by the update code. The code returns whatever the updater returns, and the clock value is not compared with anything. So `SessionProperties.UpdatePreservesInvariant` assumes a store-backed updater and a clock that has not gone backwards. Callers might expect `updatedAt` never to fall behind `createdAt`; `updateSessionStatus` does not check this, and the model follows the code.
- Session-id uniqueness is a store property, so it is not modelled.
- Key presence in the list filter is not modelled. `listSessions` always builds `{ status, region }` with both keys, so a field that was not given holds `undefined`, and a fetcher could tell that apart from a missing key. `Filter` has no way to express a missing key: `None` means the key holds `undefined`.
- The injected fetcher and updater are total Dafny functions, so they cannot throw. In the source, an exception they throw propagates unchanged, because `getSession`, `updateSessionStatus` and `listSessions` have no try/catch. The error-policy lemmas (`SessionProperties.CreateErrorPolicy`, `GetErrorPolicy`, `UpdateErrorPolicy`, `ListErrorPolicy`) therefore hold only for injected functions that do not throw. The adapter's closures in `src/index.ts` never throw.
