/** `usePopularAirports(limit = 10)`: the suggested airports, a loading flag
    and an error, driven by `fetchPopularAirports`. */
module PopularAirportsHook {
  import opened Wrappers
  import opened Schema
  import opened Outcomes
  import Api

  datatype State = State(airports: seq<Api.AirportRef>, loading: bool, error: Option<string>)

  /** No airports, loading, no error. */
  const Initial: State := State([], true, None)

  const FetchFailed: string := "Failed to fetch popular airports"

  /** The `limit` the hook passes to the query: its argument, or 10 when omitted. */
  function LimitOf(limit: Option<nat>): (n: nat)
    ensures limit.None? ==> n == Api.DefaultPopularLimit
    ensures limit.Some? ==> n == limit.value
  {
    limit.GetOr(Api.DefaultPopularLimit)
  }

  /** `setLoading(true); setError(null)` before the query. */
  function Begin(s: State): State {
    s.(loading := true, error := None)
  }

  /** The state once the query has settled, `finally` included. */
  function Finish(s: State, o: Outcome<seq<Api.AirportRef>>): State {
    match o
    case Ok(data) => s.(airports := data, loading := false)
    case Err(t) => s.(error := Some(InstanceMessageOr(t, FetchFailed)), loading := false)
  }

  /** `fetchPopularAirports()`, with the query's outcome `o`. */
  function FetchPopularAirports(s: State, o: Outcome<seq<Api.AirportRef>>): (t: State)
    ensures !t.loading
    ensures o.Ok? ==> t.airports == o.value && t.error == None
    ensures o.Err? ==> t.airports == s.airports
    ensures o.Err? && o.thrown.ErrorInstance? ==> t.error == Some(o.thrown.message)
    ensures o.Err? && o.thrown.OtherValue? ==> t.error == Some(FetchFailed)
  {
    Finish(Begin(s), o)
  }

  /** Fetching with the hook's limit shows at most that many airports (10
      when the hook is given none), each the airport of an active machine. */
  lemma FetchedAirportsAreBoundedAndActive(s: State, db: Api.Database, limit: Option<nat>, o: Outcome<seq<Api.AirportRef>>)
    requires o.Ok? ==> Api.GetPopularAirports(db, Api.Reachable, LimitOf(limit)) == Success(o.value)
    requires forall a :: a in s.airports ==>
      exists m :: m in db.machines && m.status == Active && a == Api.AirportRef(m.airportCode, m.airportName)
    ensures var t := FetchPopularAirports(s, o);
      && (o.Ok? ==> |t.airports| <= (if limit.None? then 10 else limit.value))
      && forall a :: a in t.airports ==>
           exists m :: m in db.machines && m.status == Active && a == Api.AirportRef(m.airportCode, m.airportName)
  {
  }
}
