/** `useRequestStats`: the request statistics, a loading flag and an error,
    driven by `fetchStats`. */
module RequestStatsHook {
  import opened Wrappers
  import opened Outcomes
  import Api

  datatype State = State(stats: Api.RequestStats, loading: bool, error: Option<string>)

  /** All counts zero, loading, no error. */
  const Initial: State := State(Api.RequestStats(0, 0, 0, 0), true, None)

  const FetchFailed: string := "Failed to fetch request stats"

  /** `setLoading(true); setError(null)` before the query. */
  function Begin(s: State): State {
    s.(loading := true, error := None)
  }

  /** The state once the query has settled, `finally` included. */
  function Finish(s: State, o: Outcome<Api.RequestStats>): State {
    match o
    case Ok(data) => s.(stats := data, loading := false)
    case Err(t) => s.(error := Some(InstanceMessageOr(t, FetchFailed)), loading := false)
  }

  /** `fetchStats()`, with the query's outcome `o`. */
  function FetchStats(s: State, o: Outcome<Api.RequestStats>): (t: State)
    ensures !t.loading
    ensures o.Ok? ==> t.stats == o.value && t.error == None
    ensures o.Err? ==> t.stats == s.stats
    ensures o.Err? && o.thrown.ErrorInstance? ==> t.error == Some(o.thrown.message)
    ensures o.Err? && o.thrown.OtherValue? ==> t.error == Some(FetchFailed)
  {
    Finish(Begin(s), o)
  }

  /** The error is cleared as the fetch starts, so a success leaves none. */
  lemma {:induction false} SuccessClearsError(s: State, o: Outcome<Api.RequestStats>)
    ensures Begin(s).error == None && Begin(s).loading
    ensures o.Ok? <==> FetchStats(s, o).error == None
  {
  }

  /** The three counts do not exceed the total. */
  ghost predicate Consistent(stats: Api.RequestStats) {
    stats.pending + stats.approved + stats.rejected <= stats.total
  }

  /** Fetching from the database keeps the statistics consistent, and a
      successful fetch shows the database's row count as the total. */
  lemma {:induction false} FetchKeepsStatsConsistent(s: State, db: Api.Database, link: Api.Link, o: Outcome<Api.RequestStats>)
    requires Consistent(s.stats)
    requires o.Ok? ==> Api.GetRequestStats(db, link) == Wrappers.Success(o.value)
    ensures Consistent(FetchStats(s, o).stats)
    ensures o.Ok? ==> FetchStats(s, o).stats.total == |db.requests|
  {
    if o.Ok? {
      assert link.Reachable?;
      Api.StatsAddUp(db);
      Api.StatsCountRows(db);
    }
  }
}
