# Airport baby-supply finder: a verified model of its client logic

The application lets airport travellers find vending machines that stock baby
supplies, ask for new machine locations and sign up for a discount. It is a
thin React front end over a hosted database. This project models in Dafny the
parts of it whose behaviour can be stated:

- the **supply ranking** of `useSupplyData`. It counts how often each supply
  occurs across all machines, orders the names by count, keeps the top four
  and attaches a catalogue icon and description (`SupplyRanking`);
- the **data access layer** `src/lib/api.ts`, run over an in-memory
  `Database` instead of the remote service (`Api`). A `Link` parameter says
  whether the service answers or reports an error. `Settle` is the client's
  `if (error) throw error; return data || []`. The module covers the
  active-only, newest-first machine list, the case-insensitive airport
  search, lookup by id, the `create` that forces status "pending", the
  request list, the status update, the popular-airports query and the
  request-status tally;
- the **search bar**: it trims the query, never submits an empty one and
  never changes the text it holds (`SearchBar`);
- the **four state hooks**, each a `{data, loading, error}` record with a pure
  transition. The transition takes the awaited call's `Outcome` (`Ok(value)`
  or `Err(thrown)`) in place of the `await` (`VendingMachinesHook`,
  `RequestStatsHook`, `PopularAirportsHook`, `LocationRequestsHook`).
  `Outcomes` holds the two ways a hook turns a thrown value into its
  message: `instanceof Error ? message : fallback`, and `message || fallback`;
- the **request form**: single-field edits, the payload it sends, and the
  clear-on-success / keep-on-failure rule (`RequestPage`);
- the **mock airport search** of the landing page (`IndexPage`).

Supporting modules:

- `Text`: ECMAScript `trim`, ASCII case folding and substring search.
- `Seqs`: filter, prefix and a descending insertion sort.
- `Schema`: the three row types.
- `Wrappers`: `Option` and `Result`.

Initial states are constants: `VendingMachinesHook.Initial`,
`RequestStatsHook.Initial`, `PopularAirportsHook.Initial`,
`LocationRequestsHook.Initial`, `RequestPage.InitialForm`,
`SearchBar.Initial` and `IndexPage.Initial`. Each holds the values the
source gives to `useState`.

Four behaviours of the code worth knowing, each modelled as written:

- `getById` does not filter on `status`, so it can return a machine that is not active.
- `updateStatus` accepts any declared status. A request can therefore go from
  "approved" back to "pending": status changes are not one-way.
- `searchMachines` never clears `error`. A successful search after a failed
  one still shows the old message (`VendingMachinesHook.ErrorIsNeverCleared`).
- "Popular" airports are the first `limit` active machines in whatever order
  the service returns them. They are not ranked, and the same airport can
  appear more than once.

## Model

| member | source | states |
|---|---|---|
| Text.Trim | src/components/SearchBar.tsx:21-22 | `trim` returns the slice of the text that has only whitespace before and after it and neither starts nor ends with whitespace; whitespace is the full ECMAScript WhiteSpace and LineTerminator set |
| Text.TrimEmptyIffAllSpace | src/components/SearchBar.tsx:21 | the trimmed query is empty exactly when every character is whitespace |
| Text.TrimIdempotent | src/components/SearchBar.tsx:21-22 | trimming a trimmed query changes nothing |
| Text.LowerSlice | src/pages/Index.tsx:52 | lower-casing a slice gives the same slice of the lower-cased text |
| Text.Contains | src/pages/Index.tsx:52 | `includes` is true exactly when the pattern occurs at some index |
| Text.ContainsIgnoringCase | src/lib/api.ts:21 | `ilike '%q%'` holds exactly when the lower-cased query occurs in the lower-cased column |
| Seqs.Filter | src/lib/api.ts:10 | an equality filter keeps exactly the rows that satisfy it, each as often as it is stored |
| Seqs.Take | src/lib/api.ts:85 | `limit(n)` / `slice(0, n)` keeps the first `min(n, length)` elements unchanged |
| Seqs.SortDescBy | src/hooks/useSupplyData.ts:27 | the descending sort is a permutation of its input in non-increasing key order |
| SupplyRanking.AllSupplies | src/hooks/useSupplyData.ts:19-20 | the nested loops visit each name exactly as often as it occurs, machine by machine |
| SupplyRanking.Bump | src/hooks/useSupplyData.ts:21 | one increment raises the count of that name by one, adds the name if new, and changes no other count |
| SupplyRanking.Tally | src/hooks/useSupplyData.ts:16-23 | the counter object has one positive entry per distinct name, and the count of each name is its number of occurrences |
| SupplyRanking.SupplyData | src/hooks/useSupplyData.ts:28 | the ranking has at most 4 entries |
| SupplyRanking.CountsAreOccurrences | src/hooks/useSupplyData.ts:19-23 | each shown count equals the number of times that name occurs across all machines' `supplies`, and is at least 1 |
| SupplyRanking.RankingIsOrdered | src/hooks/useSupplyData.ts:26-27 | the entries are in non-increasing order of count |
| SupplyRanking.NamesAreDistinctAndPresent | src/hooks/useSupplyData.ts:16-29 | no name is shown twice, and every shown name is in some machine's `supplies` |
| SupplyRanking.RankedCounts | src/hooks/useSupplyData.ts:26-27 | after sorting, every entry still carries its name's true count and names stay distinct |
| SupplyRanking.RankedIsComplete | src/hooks/useSupplyData.ts:26 | every supply that occurs somewhere is among the sorted entries |
| SupplyRanking.LeftOutIsNoMoreCommon | src/hooks/useSupplyData.ts:26-29 | a supply that occurs but is not shown leaves a full 4-entry ranking, and is no more common than any shown supply |
| SupplyRanking.DescriptionsComeFromCatalogue | src/hooks/useSupplyData.ts:32-47 | the icon and description are the catalogue's for the 8 listed names, otherwise Package and 'Essential baby supplies' |
| SupplyRanking.NoMachinesNoSupplies | src/hooks/useSupplyData.ts:19-29 | no machines give an empty ranking |
| Api.Settle | src/lib/api.ts:13-14 | the call throws exactly when an error is reported, and then returns no list; otherwise it returns the rows, or [] when there are none |
| Api.ErrorWinsOverData | src/lib/api.ts:13-14 | an error is thrown even when rows came with it, and a missing list with no error becomes [] |
| Api.GetAllMachines | src/lib/api.ts:6-15 | only active machines are returned, every active machine as often as stored, newest first; an unreachable service throws its error |
| Api.SearchByAirport | src/lib/api.ts:17-26 | a machine is returned exactly when it is active and its airport code or name contains the query ignoring case, as often as it is stored; a reachable service always answers, an unreachable one throws its error |
| Api.EmptyQueryMatchesEveryActiveMachine | src/lib/api.ts:21-22 | an empty query matches every airport, so the search returns every active machine |
| Api.GetMachineById | src/lib/api.ts:28-37 | succeeds exactly when one stored row has the id, and returns that row whatever its status |
| Api.InsertObject | src/lib/api.ts:46-48 | the inserted object copies name, email, airport, location and message from the payload and sets status to "pending", whatever the payload's status |
| Api.CreateRequest | src/lib/api.ts:41-54 | the stored and returned row has status "pending" and the payload's fields, and is appended to the table; on failure nothing is stored |
| Api.CreateIgnoresPayloadStatus | src/lib/api.ts:46-48 | two payloads that differ only in `status` create identical rows |
| Api.RepeatedCreateStoresTwice | src/lib/api.ts:41-54 | submitting the same payload twice stores two rows (no duplicate protection) |
| Api.GetAllRequests | src/lib/api.ts:56-64 | a reachable service returns every request, each as often as stored, newest first; an unreachable one throws its error |
| Api.UpdateRequestStatus | src/lib/api.ts:66-76 | the rows with the id take the new status, every other row and the machine table are unchanged |
| Api.GetPopularAirports | src/lib/api.ts:80-89 | at most `limit` airports, exactly `min(limit, active machines)` of them, each the code and name of an active machine |
| Api.TallyStatuses | src/lib/api.ts:98-101 | the `reduce` records, for every status value, the number of rows holding it (0 when absent) |
| Api.StatsOf | src/lib/api.ts:98-108 | `total` is the length of the fetched list (0 when missing), and pending, approved and rejected are the numbers of entries equal to that status |
| Api.RequestStatsFrom | src/lib/api.ts:96-108 | the call throws exactly when an error is reported, and throws that error; a missing list gives all-zero statistics |
| Api.GetRequestStats | src/lib/api.ts:91-109 | the statistics query fails exactly when the service is unreachable |
| Api.StatusMultiplicity | src/lib/api.ts:94-95 | the selected status column holds each value once per request holding it |
| Api.StatsCountRows | src/lib/api.ts:98-108 | `total` is the number of requests, and pending, approved and rejected are the numbers of requests with exactly that status |
| Api.DeclaredCountsBounded | src/lib/api.ts:98-108 | the three status counts sum to at most the row count, with equality exactly when every status is a declared one |
| Api.StatsAddUp | src/lib/api.ts:103-108 | pending + approved + rejected ≤ total, with equality exactly when every request holds a declared status |
| Outcomes.TruthyMessageOr | src/hooks/useVendingMachines.ts:15 | a non-empty message is stored whatever was thrown, from an `Error` or from a plain object's `message`; a missing or empty one gives the fallback |
| Outcomes.InstanceMessageOr | src/hooks/usePopularAirports.ts:16 | an `Error`'s message is stored even when empty; any other thrown value gives the fallback, whatever `message` it carries |
| Outcomes.MessageRulesDiffer | src/hooks/useVendingMachines.ts:15 | the truthy-message rule and the `instanceof` rule agree on an `Error` exactly when its message is non-empty (or the fallback is empty), and on another value exactly when it has no non-empty message or that message is the fallback |
| SearchBar.HandleSubmit | src/components/SearchBar.tsx:19-24 | `onSearch` is called at most once, and exactly once when a callback is given and the query has a non-whitespace character; the argument is the trimmed query, non-empty and without surrounding whitespace; the stored query is unchanged |
| SearchBar.SubmittedQueryIsStable | src/components/SearchBar.tsx:21-22 | submitting the text that was passed to `onSearch` passes it on unchanged |
| VendingMachinesHook.SearchMachines | src/hooks/useVendingMachines.ts:9-19 | afterwards not loading; success replaces the machines and keeps the error; failure keeps the machines and stores the thrown value's non-empty message, from an `Error` or a plain object, else 'Failed to search machines' |
| VendingMachinesHook.ErrorIsNeverCleared | src/hooks/useVendingMachines.ts:9-19 | once an error is stored, no sequence of searches clears it, and successes leave it as it was |
| VendingMachinesHook.SearchShowsActiveMatches | src/hooks/useVendingMachines.ts:12-13 | a search answered by the database shows exactly the active machines matching the query |
| RequestStatsHook.FetchStats | src/hooks/useRequestStats.ts:21-32 | afterwards not loading; success replaces the stats and leaves no error; failure keeps the stats and stores the message or 'Failed to fetch request stats' |
| RequestStatsHook.SuccessClearsError | src/hooks/useRequestStats.ts:23-26 | the fetch starts loading with the error cleared, and ends with no error exactly when it succeeded |
| RequestStatsHook.FetchKeepsStatsConsistent | src/hooks/useRequestStats.ts:25-26 | fetching from the database keeps pending + approved + rejected ≤ total, and a success shows the row count as total |
| PopularAirportsHook.FetchPopularAirports | src/hooks/usePopularAirports.ts:9-20 | afterwards not loading; success replaces the airports and leaves no error; failure keeps them and stores the message or 'Failed to fetch popular airports' |
| PopularAirportsHook.LimitOf | src/hooks/usePopularAirports.ts:4 | the hook's `limit` is its argument, or 10 when it is omitted |
| PopularAirportsHook.FetchedAirportsAreBoundedAndActive | src/hooks/usePopularAirports.ts:4-14 | with the limit passed through, a success shows at most that many airports (10 by default), and every shown airport belongs to an active machine |
| LocationRequestsHook.SubmitRequest | airport-baby-buddy-main/src/hooks/useLocationRequests.ts:9-23 | afterwards not loading; success returns the created row with no error; failure returns null and stores the message or 'Failed to submit request' |
| LocationRequestsHook.SubmittedRowIsPending | airport-baby-buddy-main/src/hooks/useLocationRequests.ts:15-16 | a row returned from a create answered by the database is stored, is "pending" and carries the payload's name |
| RequestPage.HandleInputChange | src/pages/Request.tsx:49-55 | an edit sets the named field and leaves every other field as it was |
| RequestPage.FieldsDetermineForm | src/pages/Request.tsx:13-18 | two forms whose five fields read the same are equal |
| RequestPage.EditsOfDifferentFieldsCommute | src/pages/Request.tsx:49-55 | edits of two different fields give the same form in either order |
| RequestPage.PayloadOf | src/pages/Request.tsx:25 | the payload carries the form's five fields as they are and no status |
| RequestPage.HandleSubmit | src/pages/Request.tsx:22-47 | the current form is sent as it is; a created row empties all five fields, `location` included; a failure leaves the form untouched |
| RequestPage.UntouchedFormIsSent | src/pages/Request.tsx:22-25 | `handleSubmit` does not re-validate; it sends whatever the form holds, the empty initial form included |
| IndexPage.HandleSearch | src/pages/Index.tsx:49-57 | any search sets `hasSearched`; both mock machines are shown exactly when the query contains "jfk" or "kennedy" ignoring case; otherwise nothing is shown |
| IndexPage.WordSurvivesTrim | src/pages/Index.tsx:52 | a word without whitespace occurs in a query exactly when it occurs in the trimmed query |
| IndexPage.MatchesMock | src/pages/Index.tsx:52 | the mock condition holds exactly when the lower-cased query contains "jfk" or "kennedy" |
| IndexPage.MockMatchSurvivesTrim | src/pages/Index.tsx:52 | a query and its trimmed form match the mock search alike |
| IndexPage.TrimmingKeepsMockResults | src/pages/Index.tsx:49-57 | the results for the query the search bar passes on are the results for the untrimmed text |
| IndexPage.SampleSearches | src/pages/Index.tsx:52-56 | "JFK" and "Kennedy" show both mock machines, and "LAX" shows none |

## Left out

- Client construction and the environment-variable check in both copies of
  `lib/supabase.ts`. These are configuration and I/O; only the row interfaces
  are modelled, in `Schema`.
- `insertEmail` and the realtime `subscriptions`. They are single foreign
  calls with no client logic.
- The remote query engine itself. The `.or(...)` filter is modelled as plain
  substring containment. A `%`, `_`, `,` or `)` in the query would change the
  remote filter, and that is not modelled.
- Full Unicode case mapping. `toLowerCase` and `ilike` are modelled as ASCII
  case folding only.
- `rating`, a floating-point display field.
- Timestamps are integers. Only their order matters here, and rows with equal
  timestamps are left in an unspecified order.
- Api.SearchByAirport: states which rows are returned and how often, not their order,
  because the query has no ORDER BY. The model keeps storage order.
- Api.GetPopularAirports: states the count and the origin of the rows, not
  which active rows are chosen, because the query has no ORDER BY. The model
  takes them in storage order.
- The tie order among equal counts in the supply ranking. It depends on
  JavaScript object key enumeration order.
- Supply names that are also `Object.prototype` properties (`__proto__`,
  `constructor`, …). The source's counter object treats them specially; the
  model treats them as ordinary names.
- Api.TallyStatuses: counts every status value as an ordinary key. The
  source's `{}` accumulator inherits from `Object.prototype`, so a status such
  as `constructor`, `toString` or `__proto__` does not get a plain count there.
  The three published counts (pending, approved, rejected) are unaffected.
- RequestPage.UntouchedFormIsSent: the browser's constraint validation
  (`required` on name, email and airport, `type="email"`) is not modelled.
  It can stop the form's submit event before `handleSubmit` runs.
- Negative or fractional `limit` values. The limit is a natural number.
- Database constraints such as required columns. An insert into a reachable
  service always succeeds.
- A thrown `null` or `undefined` in `searchMachines`. Reading `.message` from
  it would itself throw inside the `catch`.
- Whether the service's error object is an `Error` instance. Hook outcomes
  take the thrown value as a parameter instead.
- Async interleaving and races between concurrent hook calls, and React
  re-rendering, `useMemo` and `useEffect` scheduling, including the fetch on
  mount. Each hook action is one atomic transition.
- The hook in `airport-baby-buddy-main` imports its own `lib/api.ts`. That
  file is not part of this model; its calls are modelled by `src/lib/api.ts`.
- Toasts, including the failure toast that reads a stale `error` in
  `Request.tsx`.
- The 5-second discount popup timer and the simulated delay in the popup.
- Rendering: the navigation bar, the discount popup, the JSX of both landing
  pages and the second landing page's logic.
