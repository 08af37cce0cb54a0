/** `useLocationRequests`: a loading flag and an error, driven by
    `submitRequest`, which also returns the created row or null. */
module LocationRequestsHook {
  import opened Wrappers
  import opened Schema
  import opened Outcomes
  import Api

  datatype State = State(loading: bool, error: Option<string>)

  /** Not loading, no error. */
  const Initial: State := State(false, None)

  const SubmitFailed: string := "Failed to submit request"

  /** `setLoading(true); setError(null)` before the call. */
  function Begin(s: State): State {
    s.(loading := true, error := None)
  }

  /** `submitRequest(requestData)`, with the outcome `o` of `create`: the new
      state and the returned value (`None` for null). */
  function SubmitRequest(s: State, o: Outcome<LocationRequest>): (r: (State, Option<LocationRequest>))
    ensures !r.0.loading
    ensures o.Ok? ==> r.1 == Some(o.value) && r.0.error == None
    ensures o.Err? ==> r.1 == None && r.0.error.Some?
    ensures o.Err? && o.thrown.ErrorInstance? ==> r.0.error == Some(o.thrown.message)
    ensures o.Err? && o.thrown.OtherValue? ==> r.0.error == Some(SubmitFailed)
  {
    var b := Begin(s);
    match o
    case Ok(row) => (b.(loading := false), Some(row))
    case Err(t) => (b.(error := Some(InstanceMessageOr(t, SubmitFailed)), loading := false), None)
  }

  /** A row returned by a submission answered by the database is a stored
      "pending" request built from the payload. */
  lemma SubmittedRowIsPending(s: State, db: Api.Database, payload: Api.RequestPayload, id: string, now: int, o: Outcome<LocationRequest>)
    requires o.Ok? ==> Api.CreateRequest(db, Api.Reachable, payload, id, now).0 == Success(o.value)
    ensures var (_, result) := SubmitRequest(s, o);
      result.Some? ==>
        && result.value.status == Pending
        && result.value.name == payload.name
        && result.value in Api.CreateRequest(db, Api.Reachable, payload, id, now).1.requests
  {
  }
}
