/** The data access layer of `src/lib/api.ts`, modelled over the rows of an
    in-memory database instead of the remote service. Each query first
    computes what the service answers, then `Settle` turns the `{ data, error }`
    response into a returned value or a thrown error, as the client code does. */
module Api {
  import opened Wrappers
  import opened Schema
  import Seqs
  import Text

  /** The error object a query reports. `NotExactlyOneRow` is what a query
      ending in `.single()` reports when it does not match exactly one row. */
  datatype RemoteError = QueryError(message: string) | NotExactlyOneRow(rows: nat)

  /** What an awaited query resolves to: `{ data, error }`. */
  datatype Response<T> = Response(data: Option<T>, error: Option<RemoteError>)

  /** Whether the remote service answers a query or reports an error. */
  datatype Link = Reachable | Unreachable(failure: RemoteError)

  /** The rows of the vending machine and location request tables. */
  datatype Database = Database(machines: seq<VendingMachine>, requests: seq<LocationRequest>)

  /** The two columns the popular-airports query selects. */
  datatype AirportRef = AirportRef(airportCode: string, airportName: string)

  /** The request status tally. */
  datatype RequestStats = RequestStats(total: nat, pending: nat, approved: nat, rejected: nat)

  /** The argument of `locationRequestApi.create`. Its static type omits `id`,
      `status` and `created_at`; `status` here stands for a status field an
      untyped caller could still put in the object. */
  datatype RequestPayload = RequestPayload(
    name: string,
    email: string,
    airport: string,
    location: Option<string>,
    message: Option<string>,
    status: Option<string>)

  /** The default `limit` of `getPopularAirports`. */
  const DefaultPopularLimit: nat := 10

  /** The response of a query whose answer, when the service is reachable, is `data`. */
  function Respond<T>(link: Link, data: T): (resp: Response<T>)
    ensures resp.error.None? <==> link.Reachable?
  {
    match link
    case Reachable => Response(Some(data), None)
    case Unreachable(e) => Response(None, Some(e))
  }

  /** `if (error) throw error; return data || []`: an error is thrown and no
      data is returned with it; a missing list with no error becomes []. */
  function Settle<T>(resp: Response<seq<T>>): (r: Result<seq<T>, RemoteError>)
    ensures r.Failure? <==> resp.error.Some?
    ensures r.Failure? ==> r.error == resp.error.value
    ensures r.Success? ==> r.value == resp.data.GetOr([])
  {
    if resp.error.Some? then Failure(resp.error.value) else Success(resp.data.GetOr([]))
  }

  /** An error is thrown even when the response also carries rows: no partial
      data is ever returned, and a missing list without an error is []. */
  lemma ErrorWinsOverData<T>(rows: seq<T>, e: RemoteError)
    ensures Settle(Response(Some(rows), Some(e))) == Failure(e)
    ensures Settle<T>(Response(None, Some(e))) == Failure(e)
    ensures Settle<T>(Response(None, None)) == Success([])
  {
  }

  predicate IsActive(m: VendingMachine) {
    m.status == Active
  }

  /** The search condition: the query occurs in the airport code or in the
      airport name, ignoring case. */
  predicate MatchesAirport(m: VendingMachine, query: string) {
    Text.ContainsIgnoringCase(m.airportCode, query) || Text.ContainsIgnoringCase(m.airportName, query)
  }

  function MachineCreatedAt(m: VendingMachine): int {
    m.createdAt
  }

  function RequestCreatedAt(r: LocationRequest): int {
    r.createdAt
  }

  /** `vendingMachineApi.getAll`: the active machines, newest first. */
  function GetAllMachines(db: Database, link: Link): (r: Result<seq<VendingMachine>, RemoteError>)
    ensures link.Unreachable? ==> r == Failure(link.failure)
    ensures link.Reachable? ==> r.Success?
    ensures r.Success? ==> forall m :: m in r.value ==> m in db.machines && IsActive(m)
    ensures r.Success? ==> forall m :: m in db.machines && IsActive(m) ==>
      multiset(r.value)[m] == multiset(db.machines)[m]
    ensures r.Success? ==> Seqs.SortedDescBy(r.value, MachineCreatedAt)
  {
    var active := Seqs.Filter(db.machines, IsActive);
    var sorted := Seqs.SortDescBy(active, MachineCreatedAt);
    assert forall m :: m in sorted ==> m in active by {
      forall m | m in sorted ensures m in active {
        assert m in multiset(sorted);
      }
    }
    Settle(Respond(link, sorted))
  }

  /** `vendingMachineApi.searchByAirport`: the active machines whose airport
      code or name contains the query, ignoring case. */
  function SearchByAirport(db: Database, link: Link, query: string): (r: Result<seq<VendingMachine>, RemoteError>)
    ensures link.Unreachable? ==> r == Failure(link.failure)
    ensures link.Reachable? ==> r.Success?
    ensures r.Success? ==> forall m :: m in r.value <==> m in db.machines && IsActive(m) && MatchesAirport(m, query)
    ensures r.Success? ==> forall m :: m in db.machines && IsActive(m) && MatchesAirport(m, query) ==>
      multiset(r.value)[m] == multiset(db.machines)[m]
  {
    Settle(Respond(link, Seqs.Filter(db.machines, (m: VendingMachine) => IsActive(m) && MatchesAirport(m, query))))
  }

  /** An empty query becomes the pattern `%%`, which every airport code
      matches: the search then returns every active machine. */
  lemma EmptyQueryMatchesEveryActiveMachine(db: Database)
    ensures var r := SearchByAirport(db, Reachable, "");
      r.Success? && forall m :: m in r.value <==> m in db.machines && IsActive(m)
  {
    forall m: VendingMachine ensures MatchesAirport(m, "") {
      assert Text.OccursAt(Text.Lower(m.airportCode), Text.Lower(""), 0);
    }
  }

  /** `vendingMachineApi.getById`: the one machine with this id, whatever its
      status; `.single()` turns zero or several matches into an error. */
  function GetMachineById(db: Database, link: Link, id: string): (r: Result<VendingMachine, RemoteError>)
    ensures link.Unreachable? ==> r == Failure(link.failure)
    ensures r.Success? <==> link.Reachable? && |Seqs.Filter(db.machines, (m: VendingMachine) => m.id == id)| == 1
    ensures r.Success? ==> r.value in db.machines && r.value.id == id
  {
    if link.Unreachable? then Failure(link.failure)
    else
      var rows := Seqs.Filter(db.machines, (m: VendingMachine) => m.id == id);
      if |rows| == 1 then
        assert rows[0] in rows;
        Success(rows[0])
      else Failure(NotExactlyOneRow(|rows|))
  }

  /** The object `{ ...request, status: 'pending' }` that `create` inserts:
      the spread copies every field, then `status` is overwritten. */
  function InsertObject(p: RequestPayload): (o: RequestPayload)
    ensures o.status == Some(Pending)
    ensures o.name == p.name && o.email == p.email && o.airport == p.airport
    ensures o.location == p.location && o.message == p.message
  {
    p.(status := Some(Pending))
  }

  /** `locationRequestApi.create`: inserts one row built from the payload with
      status "pending"; the service assigns `id` and `created_at`. Returns the
      created row and the database after the call. */
  function CreateRequest(db: Database, link: Link, payload: RequestPayload, id: string, now: int)
    : (r: (Result<LocationRequest, RemoteError>, Database))
    ensures link.Unreachable? ==> r.0 == Failure(link.failure) && r.1 == db
    ensures link.Reachable? ==> r.0.Success?
    ensures r.0.Success? ==>
      var row := r.0.value;
      && row.status == Pending
      && row.name == payload.name && row.email == payload.email && row.airport == payload.airport
      && row.location == payload.location && row.message == payload.message
      && row.id == id && row.createdAt == now
      && r.1 == db.(requests := db.requests + [row])
  {
    if link.Unreachable? then (Failure(link.failure), db)
    else
      var o := InsertObject(payload);
      var row := LocationRequest(id, o.name, o.email, o.airport, o.location, o.message, o.status.value, now);
      (Success(row), db.(requests := db.requests + [row]))
  }

  /** Whatever status a payload carries, `create` stores the same row. */
  lemma CreateIgnoresPayloadStatus(db: Database, link: Link, p: RequestPayload, s1: Option<string>, s2: Option<string>, id: string, now: int)
    ensures CreateRequest(db, link, p.(status := s1), id, now) == CreateRequest(db, link, p.(status := s2), id, now)
  {
  }

  /** Nothing prevents a duplicate: submitting the same payload twice stores two rows. */
  lemma {:induction false} RepeatedCreateStoresTwice(db: Database, p: RequestPayload, id1: string, id2: string, now: int)
    ensures var (r1, db1) := CreateRequest(db, Reachable, p, id1, now);
            var (r2, db2) := CreateRequest(db1, Reachable, p, id2, now);
            |db2.requests| == |db.requests| + 2 && db2.requests[|db.requests|].name == p.name
            && db2.requests[|db.requests| + 1].name == p.name
  {
  }

  /** `locationRequestApi.getAll`: every request, newest first. */
  function GetAllRequests(db: Database, link: Link): (r: Result<seq<LocationRequest>, RemoteError>)
    ensures link.Unreachable? ==> r == Failure(link.failure)
    ensures link.Reachable? ==> r.Success?
    ensures r.Success? ==> multiset(r.value) == multiset(db.requests)
    ensures r.Success? ==> Seqs.SortedDescBy(r.value, RequestCreatedAt)
  {
    Settle(Respond(link, Seqs.SortDescBy(db.requests, RequestCreatedAt)))
  }

  /** `locationRequestApi.updateStatus`: sets the status of the rows with this
      id. The status may be any declared value, including "pending" again. */
  function UpdateRequestStatus(db: Database, link: Link, id: string, status: string)
    : (r: (Result<(), RemoteError>, Database))
    requires IsDeclaredStatus(status)
    ensures link.Unreachable? ==> r.0 == Failure(link.failure) && r.1 == db
    ensures link.Reachable? ==> r.0.Success?
    ensures r.0.Success? ==>
      && r.1.machines == db.machines
      && |r.1.requests| == |db.requests|
      && forall k :: 0 <= k < |db.requests| ==>
           r.1.requests[k] == if db.requests[k].id == id then db.requests[k].(status := status) else db.requests[k]
  {
    if link.Unreachable? then (Failure(link.failure), db)
    else
      var rows := seq(|db.requests|, k requires 0 <= k < |db.requests| =>
        if db.requests[k].id == id then db.requests[k].(status := status) else db.requests[k]);
      (Success(()), db.(requests := rows))
  }

  /** `analyticsApi.getPopularAirports(limit)`: the airport columns of at
      most `limit` active machines, taken in storage order. */
  function GetPopularAirports(db: Database, link: Link, limit: nat): (r: Result<seq<AirportRef>, RemoteError>)
    ensures link.Unreachable? ==> r == Failure(link.failure)
    ensures link.Reachable? ==> r.Success?
    ensures r.Success? ==> |r.value| <= limit
    ensures r.Success? ==> |r.value| == Seqs.Min(limit, |Seqs.Filter(db.machines, IsActive)|)
    ensures r.Success? ==> forall a :: a in r.value ==>
      exists m :: m in db.machines && IsActive(m) && a == AirportRef(m.airportCode, m.airportName)
  {
    var active := Seqs.Take(Seqs.Filter(db.machines, IsActive), limit);
    var refs := seq(|active|, k requires 0 <= k < |active| => AirportRef(active[k].airportCode, active[k].airportName));
    assert forall k :: 0 <= k < |active| ==> active[k] in Seqs.Filter(db.machines, IsActive);
    Settle(Respond(link, refs))
  }

  /** Reference count: the requests whose status is exactly `status`. */
  ghost function CountWithStatus(rows: seq<LocationRequest>, status: string): nat {
    if rows == [] then 0
    else (if rows[0].status == status then 1 else 0) + CountWithStatus(rows[1..], status)
  }

  /** The `status` column, as `select('status')` returns it. */
  function Statuses(rows: seq<LocationRequest>): (r: seq<string>)
    ensures |r| == |rows|
    ensures forall k :: 0 <= k < |rows| ==> r[k] == rows[k].status
  {
    seq(|rows|, k requires 0 <= k < |rows| => rows[k].status)
  }

  /** `acc[key] || 0`. */
  function OrZero(acc: map<string, nat>, key: string): nat {
    if key in acc then acc[key] else 0
  }

  /** The `reduce` that counts the rows per status value. */
  function TallyStatuses(rows: seq<string>): (acc: map<string, nat>)
    ensures forall status :: OrZero(acc, status) == multiset(rows)[status]
  {
    if rows == [] then map[]
    else
      var init := rows[..|rows| - 1];
      var last := rows[|rows| - 1];
      assert rows == init + [last];
      var acc := TallyStatuses(init);
      acc[last := OrZero(acc, last) + 1]
  }

  /** The statistics computed from the fetched status column; a missing list counts as empty. */
  function StatsOf(data: Option<seq<string>>): (st: RequestStats)
    ensures st.total == |data.GetOr([])|
    ensures st.pending == multiset(data.GetOr([]))[Pending]
    ensures st.approved == multiset(data.GetOr([]))[Approved]
    ensures st.rejected == multiset(data.GetOr([]))[Rejected]
  {
    var rows := data.GetOr([]);
    var acc := TallyStatuses(rows);
    RequestStats(|rows|, OrZero(acc, Pending), OrZero(acc, Approved), OrZero(acc, Rejected))
  }

  /** The client side of `getRequestStats`: throw the reported error, or tally the rows. */
  function RequestStatsFrom(resp: Response<seq<string>>): (r: Result<RequestStats, RemoteError>)
    ensures r.Failure? <==> resp.error.Some?
    ensures r.Failure? ==> r.error == resp.error.value
    ensures resp.error.None? && resp.data.None? ==> r == Success(RequestStats(0, 0, 0, 0))
  {
    if resp.error.Some? then Failure(resp.error.value) else Success(StatsOf(resp.data))
  }

  /** `analyticsApi.getRequestStats`. */
  function GetRequestStats(db: Database, link: Link): (r: Result<RequestStats, RemoteError>)
    ensures link.Unreachable? ==> r == Failure(link.failure)
    ensures link.Reachable? ==> r.Success?
  {
    RequestStatsFrom(Respond(link, Statuses(db.requests)))
  }

  /** The multiplicity of a value in a mapped column is the count of rows holding it. */
  lemma {:induction false} StatusMultiplicity(rows: seq<LocationRequest>, status: string)
    ensures multiset(Statuses(rows))[status] == CountWithStatus(rows, status)
  {
    if rows != [] {
      assert Statuses(rows) == [rows[0].status] + Statuses(rows[1..]);
      StatusMultiplicity(rows[1..], status);
    }
  }

  /** `total` is the number of requests, and each status count is the number
      of requests holding exactly that status. */
  lemma {:induction false} StatsCountRows(db: Database)
    ensures var r := GetRequestStats(db, Reachable);
      && r.Success?
      && r.value.total == |db.requests|
      && r.value.pending == CountWithStatus(db.requests, Pending)
      && r.value.approved == CountWithStatus(db.requests, Approved)
      && r.value.rejected == CountWithStatus(db.requests, Rejected)
  {
    StatusMultiplicity(db.requests, Pending);
    StatusMultiplicity(db.requests, Approved);
    StatusMultiplicity(db.requests, Rejected);
  }

  /** The three status counts never exceed the total, and add up to it
      exactly when every request holds one of the declared statuses. */
  lemma {:induction false} DeclaredCountsBounded(rows: seq<LocationRequest>)
    ensures CountWithStatus(rows, Pending) + CountWithStatus(rows, Approved) + CountWithStatus(rows, Rejected) <= |rows|
    ensures CountWithStatus(rows, Pending) + CountWithStatus(rows, Approved) + CountWithStatus(rows, Rejected) == |rows|
      <==> forall k :: 0 <= k < |rows| ==> IsDeclaredStatus(rows[k].status)
  {
    if rows != [] {
      DeclaredCountsBounded(rows[1..]);
      if forall k :: 0 <= k < |rows[1..]| ==> IsDeclaredStatus(rows[1..][k].status) {
        if IsDeclaredStatus(rows[0].status) {
          forall k | 0 <= k < |rows| ensures IsDeclaredStatus(rows[k].status) {
            if k > 0 { assert rows[k] == rows[1..][k - 1]; }
          }
        }
      } else {
        var k :| 0 <= k < |rows[1..]| && !IsDeclaredStatus(rows[1..][k].status);
        assert rows[k + 1] == rows[1..][k];
      }
    }
  }

  /** The statistics of the database add up as the declared statuses promise. */
  lemma StatsAddUp(db: Database)
    ensures var s := GetRequestStats(db, Reachable).value;
      && s.pending + s.approved + s.rejected <= s.total
      && (s.pending + s.approved + s.rejected == s.total
          <==> forall k :: 0 <= k < |db.requests| ==> IsDeclaredStatus(db.requests[k].status))
  {
    StatsCountRows(db);
    DeclaredCountsBounded(db.requests);
  }
}
