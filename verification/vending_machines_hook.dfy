/** `useVendingMachines`: the machine list, a loading flag and an error,
    driven by `searchMachines`. */
module VendingMachinesHook {
  import opened Wrappers
  import opened Schema
  import opened Outcomes
  import Api

  datatype State = State(machines: seq<VendingMachine>, loading: bool, error: Option<string>)

  /** No machines, not loading, no error. */
  const Initial: State := State([], false, None)

  /** The message stored when the thrown value has no usable message. */
  const SearchFailed: string := "Failed to search machines"

  /** `setLoading(true)` before the query; the error is not cleared. */
  function Begin(s: State): State {
    s.(loading := true)
  }

  /** The state once the query has settled, `finally` included. */
  function Finish(s: State, o: Outcome<seq<VendingMachine>>): State {
    match o
    case Ok(data) => s.(machines := data, loading := false)
    case Err(t) => s.(error := Some(TruthyMessageOr(t, SearchFailed)), loading := false)
  }

  /** `searchMachines(query)`, with the query's outcome `o`. */
  function SearchMachines(s: State, o: Outcome<seq<VendingMachine>>): (t: State)
    ensures !t.loading
    ensures o.Ok? ==> t.machines == o.value && t.error == s.error
    ensures o.Err? ==> t.machines == s.machines && t.error.Some? && t.error.value != ""
    ensures o.Err? && o.thrown.ErrorInstance? && o.thrown.message != "" ==> t.error == Some(o.thrown.message)
    ensures o.Err? && o.thrown.ErrorInstance? && o.thrown.message == "" ==> t.error == Some(SearchFailed)
    ensures o.Err? && o.thrown.OtherValue? && o.thrown.messageField.GetOr("") != "" ==> t.error == Some(o.thrown.messageField.value)
    ensures o.Err? && o.thrown.OtherValue? && o.thrown.messageField.GetOr("") == "" ==> t.error == Some(SearchFailed)
  {
    Finish(Begin(s), o)
  }

  /** Once set, the error is never cleared: a later successful search keeps it. */
  lemma {:induction false} ErrorIsNeverCleared(s: State, outcomes: seq<Outcome<seq<VendingMachine>>>)
    requires s.error.Some?
    ensures SearchAll(s, outcomes).error.Some?
    ensures (forall k :: 0 <= k < |outcomes| ==> outcomes[k].Ok?) ==> SearchAll(s, outcomes).error == s.error
    decreases |outcomes|
  {
    if outcomes != [] {
      ErrorIsNeverCleared(SearchMachines(s, outcomes[0]), outcomes[1..]);
    }
  }

  /** A sequence of searches, one after the other. */
  function SearchAll(s: State, outcomes: seq<Outcome<seq<VendingMachine>>>): State
    decreases |outcomes|
  {
    if outcomes == [] then s else SearchAll(SearchMachines(s, outcomes[0]), outcomes[1..])
  }

  /** A search answered by the database shows exactly the active machines whose
      airport code or name contains the query. */
  lemma SearchShowsActiveMatches(s: State, db: Api.Database, query: string)
    ensures var r := Api.SearchByAirport(db, Api.Reachable, query);
      r.Success? && forall m :: m in SearchMachines(s, Ok(r.value)).machines <==>
        m in db.machines && m.status == Active && Api.MatchesAirport(m, query)
  {
  }
}
