# Verified model of the fileee client library

The `fileee` package is a Go client for a document service. This project models its stateful core in
Dafny and proves what that core promises: the shared transport with retries and automatic re-authentication,
the session life cycle, the back-off arithmetic, the incremental sync, the attribute codec, and the session
file. `dafny verify dfyconfig.toml` verifies everything.

| file | models |
|---|---|
| `Backoff.dfy` | `ratelimit.go`: the wrapping 64-bit shift, its repair, jitter, sums of delays |
| `RoundTripSpec.dfy` | `transport.go`: one `RoundTrip` as a step machine and what every step keeps |
| `RoundTripTrace.dfy` | what a caller of `RoundTrip` can observe, said without a program counter, and that the machine does exactly that |
| `Concurrency.dfy` | any number of these machines under one mutex and epoch, in every interleaving, with the handshake that re-enters the transport |
| `ClientSession.dfy` | `transport.go` and `auth.go` as one goroutine runs them: a class whose methods are proved against the step machine |
| `CookieJar.dfy` | the jar as `transport.go`, `auth.go` and `session.go` use it: cookies by name and path, queries, loading, clearing |
| `Sync.dfy` | the theory of cursors: canonical requests, merge, convergence |
| `SyncService.dfy` | `query.go`, `service.go`, `documenttypes.go`: the loops over maps, rows and pages |
| `Integers.dfy` | 64-bit bounds and powers of two |
| `Json.dfy` | JSON values, `float64` rounding of integers, `strconv.ParseInt`, date parsing |
| `Attributes.dfy` | `types.go`: the codec of `attributes.data` |
| `AttributesWire.dfy` | `types.go` from the wire: each key, the members the server sends under it, and the field they become |
| `SessionFile.dfy` | `session.go`: atomic replacement under concurrent writers, readers and crashes |

How the pieces fit: `RoundTripSpec.Step` is the one definition of what `RoundTrip` may do next.
`ClientSession.Client.RoundTrip` is the loop of the source and ends in a frame that this machine reaches;
`Concurrency.NextState` interleaves the same machine. What is proved about `FrameInv` therefore holds for
both. `RoundTripTrace` says independently which event may follow which, and the answers of the base transport
decide the outcome of the method. The class logs every call of `http.Client.Do` with its response, and the
results of the handshake, the probe and `EnsureSession` are stated over these responses. Requests marked to skip re-authentication, which `EnsureSession`, `Login` and `Logout` send outside the
mutex, are among the requests of `Concurrency` (the `skips` parameter).

## Where the code and its documentation differ

- README.md lines 161-164 of the repository and `transport.go:149-151` say that parallel requests hitting 403 in
  one expired session window share a single re-authentication. No two re-authentications happen for requests
  that began in one epoch (that is when `http.Client` puts on their cookies) if and only if both hold: no
  re-authentication but the last failed, and every caller took its snapshot in the epoch in which it began (`Concurrency.SharedReauthIff`). Each half fails by itself.
  A failure does not move the epoch, so every waiter tries again (`Concurrency.FailedReauthsStampede`). And the
  snapshot is taken after the limiter's wait and again after every back-off, so a request that waits across a
  publication sends its old cookies under a new snapshot: `Concurrency.SuccessfulReauthsStampede` has, for every
  n, requests that all entered before any re-authentication and go on to n successful ones.
- `transport.go:216-218` and docs/API.md lines 226-229 of the repository expect the repeated request to carry the
  fresh state. It carries the fresh XSRF token and the old Cookie header, so the two agree exactly when the XSRF
  cookie has not changed: `ClientSession.Client.RoundTrip`.
- `auth.go:397-399` says that `EnsureSession` after `Logout` necessarily re-authenticates. `logout` leaves the
  freshness window open, so it does so exactly when freshness is disabled or the window has expired by then:
  `ClientSession.Client.LogoutThenEnsureSession`.
- `auth.go:410-411` clears the jar so that no dead `rememberMe` cookie remains. The query it uses does not see
  cookies that the handshake endpoints set without a path (`CookieJar.HandshakeCookies`), so a token login
  still sends such a token: `ClientSession.Client.LogoutThenTokenLogin` has the exact condition.
- docs/API.md lines 223-229 of the repository expect a fresh XSRF token in the jar after `token/login`. The client
  reads the new token if and only if "/api/f/" sees its path and no longer path has one of that name
  (`CookieJar.FreshTokenIff`). Set without a path, as README.md lines 169-174 describe the server, it lands under
  "/api/f/token", where no query looks; set with "/", it loses to any the handshake had set without a path
  (`CookieJar.FreshTokenPaths`, `CookieJar.TokenLoginCookiesUnseen`).
- A saved session is a list of names and values, longer paths first, and loading puts all of them under one
  path, so the value of the shortest path survives while the running process uses the longest:
  `CookieJar.RestoreIff` and, for the ordinary sequence of load, login and save, `CookieJar.RestoreGoesBack`.
- `ratelimit.go:18-19` documents base * 2^attempt, capped. The repair of the overflow misses some base delays:
  `Backoff.CapExactIff` gives the exact bit condition, `Backoff.CapNotAlwaysExact` an example. The default
  policy is not affected.
- `types.go:265-295` reads integers given as strings exactly, but sends them back as numbers, which it reads
  through `float64`: `Attributes.NormaliseIdempotentIff` and `Attributes.NormaliseNotAlwaysIdempotent`.
- A document-type diff falls back to a full query on a 404 or 405 of the diff endpoint; it also does so when a
  login handshake met that status, because the error wraps it: `SyncService.DocumentTypesDiff`.

## Model

| member | source | states |
|---|---|---|
| `Backoff.Policy.NextDelay` | fileee/ratelimit.go:55-67 | the delay is half the cap plus a jitter between 0 and half the cap, whatever the generator draws; the cap is the repaired shift |
| `Backoff.JitterRangePositive` | fileee/ratelimit.go:64-65 | the range handed to the generator is positive for every base and attempt exactly when MaxDelay >= -1; below that it panics |
| `Backoff.ShiftKeepsLowBits` | fileee/ratelimit.go:56 | which bits of the base delay a wrapping shift keeps and which one becomes the sign |
| `Backoff.CapExactAt` | fileee/ratelimit.go:56-59 | for one attempt, the capped delay equals min(base * 2^attempt, max) on unbounded integers if and only if the base has no short-wrap bit there |
| `Backoff.CapExactIff` | fileee/ratelimit.go:56-59 | the same for all attempts at once, including those of 64 and more |
| `Backoff.CapExactWhenProductFits` | fileee/ratelimit.go:56-59 | base * max < 2^63 is enough |
| `Backoff.DefaultPolicyExact` | fileee/ratelimit.go:32-38 | the default policy waits min(200ms * 2^attempt, 5s) before jitter for every attempt |
| `Backoff.CapAtMostDocumented` | fileee/ratelimit.go:56-59 | the capped delay is positive and never above the documented one, short wrap or not |
| `Backoff.CapNotAlwaysExact` | fileee/ratelimit.go:56-59 | a base and cap of seconds for which attempts 1 to 31 reach the cap and attempt 32 waits half of it |
| `Backoff.SleepBetweenSums` | fileee/ratelimit.go:55-67 | the sum of the delays of attempts 0 to r-1 lies between the sums of the halved and the full caps |
| `Backoff.SumOfCapsBounded` | fileee/ratelimit.go:55-67 | the sum of the caps is at most min(base * (2^r - 1), r * max), for every positive base and cap |
| `RoundTripSpec.StepKeepsInv` | fileee/transport.go:158-233 | every step keeps the invariant: attempts within the budget, the i-th sleep belongs to attempt i, one re-auth at most, one limiter wait per request sent, every response body closed exactly once except the returned one |
| `RoundTripSpec.RunKeepsInv` | fileee/transport.go:152-234 | the invariant holds after every run, with what each outcome tells the caller (a returned 403 was already retried, a returned 429 or 5xx and a network error used up the attempts) |
| `RoundTripSpec.SendsBounded` | fileee/transport.go:158-233 | at most MaxAttempts + 2 requests to the base transport, MaxAttempts + 1 without re-auth, each with its own limiter wait |
| `RoundTripSpec.SendsBoundReached` | fileee/transport.go:158-233 | the bound MaxAttempts + 2 is reached under every policy with a positive cap |
| `RoundTripSpec.TotalSleepBounded` | fileee/transport.go:180-187 | the total sleep after r retries lies between the two sums over attempts 0 to r-1 and is at most min(base * (2^r - 1), r * max), for every positive base and cap and wherever a re-auth retry falls |
| `RoundTripSpec.StepDecreases` | fileee/transport.go:160-233 | a measure of attempts, re-auth and program counter decreases with every step |
| `RoundTripSpec.RunsAreShort` | fileee/transport.go:152-234 | hence every run is finite |
| `RoundTripTrace.RunIff` | fileee/transport.go:152-234 | a history is possible if and only if every event of it may follow those before; which event may follow is said over the last event, the sleeps, the 403 answers and the last epoch loaded |
| `RoundTripTrace.OutcomeIff` | fileee/transport.go:152-234 | the call has returned if and only if the history is over, with the outcome the last answer gives it, and then nothing follows |
| `RoundTripTrace.SettledEnds` | fileee/transport.go:224-226 | an answer that is not 403, not 429 and below 500 is the last event and is returned |
| `RoundTripTrace.LockedAfterRefusal` | fileee/transport.go:195-199 | the mutex is taken only directly after a 403, of an unmarked request with a callback |
| `RoundTripTrace.ReauthOnlyAfterRefusal` | fileee/transport.go:195-207 | the callback is called only after a 403, the mutex, and a comparison that found the epoch of the snapshot |
| `RoundTripTrace.RefusalLeads` | fileee/transport.go:195-226 | a 403 leads to the mutex if and only if it is the first, there is a callback and the request is not marked; otherwise it is returned |
| `RoundTripTrace.SleepIff` | fileee/transport.go:180-187 | a sleep follows exactly a network error, 429 or 5xx while fewer than MaxAttempts sleeps went before, and lasts what the policy allows for that attempt |
| `RoundTripTrace.OutcomeExplained` | fileee/transport.go:180-233 | the answers decide the outcome: only the last is settled, refusals and transient answers are bounded, and each kind of last answer has its outcome, but for failures without an answer and the result of the re-auth |
| `Concurrency.NextKeepsInv` | fileee/transport.go:195-222 | every step of any request, or of its handshake, keeps the global invariant (mutex owner, epoch, snapshots, history of re-auths) |
| `Concurrency.ReachableInv` | fileee/transport.go:152-234 | the global invariant holds in every reachable state of any number of requests |
| `Concurrency.InnerStaysClear` | fileee/auth.go:39-51 | a request marked to skip re-auth never comes near the mutex |
| `Concurrency.StageEnds` | fileee/auth.go:355-395 | how the handshake goes on and ends in the interleaving model: success is a 200 of token/login or login with the session stored; token/login may fail, the others may not |
| `Concurrency.EpochCountsSuccesses` | fileee/transport.go:199-221 | whenever the mutex is free the epoch is the number of successful re-auths, performed by requests with the snapshots 0, 1, .., epoch - 1 in this order, none of which began after its snapshot |
| `Concurrency.SecondCallOnlyAfterFailure` | fileee/transport.go:200-214 | a second re-auth for one snapshot happens only if every one since the first failed; so at most one succeeds |
| `Concurrency.OneCallPerSnapshotIff` | fileee/transport.go:200-220 | no two re-auths for one snapshot if and only if all but the last succeeded |
| `Concurrency.CallDespitePublicationIff` | fileee/transport.go:161-170 | a request re-authenticates although a re-auth was published since it began if and only if its snapshot is newer than its beginning |
| `Concurrency.SharedReauthIff` | fileee/transport.go:149-221 | in every reachable state, no two re-auths for requests that began in one epoch if and only if all but the last succeeded and every caller took its snapshot in the epoch in which it began |
| `Concurrency.FailedReauthsStampede` | fileee/transport.go:207-214 | for every n a schedule in which n requests of one epoch call the re-auth n times in vain |
| `Concurrency.SuccessfulReauthsStampede` | fileee/transport.go:160-170 | for every n a schedule in which n requests have entered before any re-auth and all n then re-authenticate successfully |
| `Concurrency.EpochMonotone` | fileee/transport.go:209 | the epoch never decreases, over all requests |
| `Concurrency.RetryOnlyAfterPublishedReauth` | fileee/transport.go:195-222 | a request returns to sending after a 403 at most once and only when the epoch exceeds its snapshot, now and ever after; otherwise it returns the re-auth error |
| `Concurrency.NoDeadlock` | fileee/transport.go:165-221 | in every reachable state with an unfinished request some request can move, although the mutex holder re-enters the transport |
| `Concurrency.SchedulesTerminate` | fileee/transport.go:160-233 | every schedule of n requests ends within n * (100 * (MaxAttempts + 2) + 6) steps |
| `Concurrency.EveryScheduleCompletes` | fileee/transport.go:152-234 | every schedule can be continued until all requests have returned |
| `Concurrency.RequestCostBounded` | fileee/auth.go:387-395 | in every interleaving one request sends at most MaxAttempts + 2 times itself and at most 4 * (MaxAttempts + 1) times inside the handshake it triggers, and its bodies are settled |
| `ClientSession.Client.RoundTrip` | fileee/transport.go:152-234 | the loop ends in a frame the step machine reaches with the same outcome, and the answers it got decide that outcome (RoundTripTrace.Explains); the token of the last request is the jar's current one, its Cookie header that from before the call, and they agree if and only if the XSRF cookie the request saw is the current one; cost of the request and its nested handshake; the slept time has passed; marked requests leave jar and store alone |
| `ClientSession.Client.Attempts` | fileee/transport.go:158-233 | the loop itself, proved against the machine with the answers, the sleeps and the cost it adds up |
| `ClientSession.Client.Round` | fileee/transport.go:160-233 | one loop round: it returns, or the remaining work decreases |
| `ClientSession.Client.Settle` | fileee/transport.go:180-232 | for each kind of answer whether the call returns, with what, and which attempt and re-auth flag go on; the first 403 of an unmarked request goes on only with a newer epoch, its own publication exactly after a successful callback |
| `ClientSession.Client.CheckAndReauth` | fileee/transport.go:199-221 | the loop goes on only with the epoch above the snapshot; it fails only with the epoch unchanged and after calls that are a failed re-auth; it publishes exactly after a successful one; the mutex is released on every path |
| `ClientSession.Client.ReauthUnlessNewer` | fileee/transport.go:200-215 | under the mutex the callback is called if and only if the epoch is still the one of the attempt, and the epoch grows by one exactly when it succeeded |
| `ClientSession.Client.SendOnce` | fileee/transport.go:161-179 | snapshot before sending; one limiter wait per request sent; the token is read from the jar for each attempt |
| `ClientSession.Client.Do` | fileee/auth.go:164-168 | one call in the log with its response; the cost of one request through the shared client; a returned status is the last answer of the base transport; a marked request changes the jar by the cookies of its response only |
| `ClientSession.Client.PersistSession` | fileee/auth.go:146-153 | the store holds the cookies of the jar, or what it held before |
| `CookieJar.Query` | fileee/auth.go:151 | a list of exactly the cookies a request sees, each once, longer paths first |
| `CookieJar.PathMatchMeaning` | fileee/auth.go:130-144 | which paths a request sees: its own, and those it continues after a "/" |
| `CookieJar.LookupMeaning` | fileee/auth.go:130-144 | a lookup gives the value under the longest path the request sees, and nothing only if there is none |
| `CookieJar.First` | fileee/auth.go:130-144 | the loop over the list returns that lookup, in whatever order the jar answers |
| `CookieJar.ListedFirst` | fileee/auth.go:138-142 | in every list the jar may give, the first cookie of a name is the one with the longest path |
| `ClientSession.Client.InjectXsrf` | fileee/transport.go:119-138 | the header of a POST, PUT or DELETE is the XSRF token seen at "/api/f/"; other requests get none |
| `CookieJar.LoadMeaning` | fileee/session.go:101-112 | loading sets, for every name, the last value of the list under one path and changes nothing else |
| `CookieJar.RestoredLookup` | fileee/session.go:101-112 | after saving and loading into a new jar, every name has the value it had under its shortest path |
| `CookieJar.RestoreIff` | fileee/session.go:101-112 | a new process sees the same cookies if and only if, for every name, the longest and shortest path hold the same value |
| `CookieJar.RestoreGoesBack` | fileee/auth.go:297-311 | load, log in, save, load: the process uses the new value and the next one gets the old one, for every base URL, name and pair of values |
| `CookieJar.ClearJar` | fileee/auth.go:417-434 | the loop that expires what the base URL sees removes exactly the cookies with path "/" |
| `CookieJar.ClearedLookup` | fileee/auth.go:417-434 | a name is still found after clearing if and only if its longest path was another than "/", and then with the same value |
| `CookieJar.HandshakeCookies` | fileee/transport.go:103-115 | cookies set without a path by the handshake endpoints are seen at "/api/f/", not at the base URL, and survive clearing |
| `CookieJar.ResponseLookup` | fileee/transport.go:132-137 | after a response that sets a name once, the client reads the new value if no longer path hides it, else what it read before |
| `CookieJar.FreshTokenIff` | fileee/auth.go:362-376 | a new token set by token/login is read if and only if its path is seen and no longer path has the name |
| `CookieJar.FreshTokenPaths` | fileee/auth.go:362-376 | never without a path; with "/" if and only if no other path the client sees has the name |
| `CookieJar.TokenLoginCookiesUnseen` | fileee/auth.go:362-376 | cookies set without a path by token/login change no lookup and no list the client makes |
| `ClientSession.Client.TokenLogin` | fileee/auth.go:355-377 | without a token it fails with ErrSessionExpired, and only then, and sends nothing; otherwise one POST to token/login, whose status 200 gives success or a store error and any other the API error; success means a persisted session; the next XSRF token is the one its response set if and only if no longer path hides it, and without paths token and stored session are those from before |
| `ClientSession.Client.Login` | fileee/auth.go:157-247 | the requests start, existent and login in this order, each sent only when the one before allows it, and the error each response gives; success means a persisted session; a failure leaves the store alone |
| `ClientSession.Client.AskExistent` | fileee/auth.go:170-219 | the handshake goes on exactly when existent answers a decodable 200 for a known account and the one-time code, if asked for, can be computed; the error for each other answer |
| `ClientSession.Client.PostLogin` | fileee/auth.go:221-246 | 200 gives success or a store error, 401 and 403 the error of the credentials or the second factor, all else the API error; a failure leaves the store alone |
| `ClientSession.Client.Reauthenticate` | fileee/auth.go:387-395 | token/login first if there is a token; the full login follows exactly unless that was accepted and stored; at most four requests' worth of sends; its error is ErrSessionExpired joined with the cause |
| `ClientSession.ReauthSucceedsOnly200` | fileee/auth.go:387-395 | a re-auth succeeds only if its last request, to token/login or login, answered 200; after a readable 200 of login only the store can fail it |
| `ClientSession.Client.UserSession` | fileee/auth.go:256-278 | it reports (authorized, secondsBlocked) exactly for a readable 200 whose body decodes to them, and otherwise what went wrong; it costs one request and changes no stored session |
| `ClientSession.Client.MarkFresh` | fileee/auth.go:97-104 | the window never moves back; it stays closed when freshness <= 0 |
| `ClientSession.Client.ProbeStored` | fileee/auth.go:298-305 | the stored cookies go to the jar and user-session is asked; the stored session is trusted if and only if the response authorizes it; then a verification is recorded exactly when the account is not blocked |
| `ClientSession.Client.ReauthAndMark` | fileee/auth.go:307-311 | a re-auth, and a verification recorded exactly when it succeeded |
| `ClientSession.Client.EnsureSession` | fileee/auth.go:289-312 | it skips the server exactly when not forced and a successful probe or re-auth was recorded less than `freshness` ago; it trusts the stored session exactly when there is one and the user-session response authorizes it; in all other cases with a readable store it re-authenticates; every success, and nothing else, records a verification; a blocked account is an error with the seconds left |
| `ClientSession.Client.Logout` | fileee/auth.go:400-414 | one POST; only a failed request or store is an error, the status is not looked at; the stored session is emptied; the jar is the old one with the cookies of the response, less those with path "/" |
| `ClientSession.Client.LogoutThenEnsureSession` | fileee/auth.go:397-414 | a full re-auth follows if and only if freshness <= 0 or the window has expired on the clock between the two calls; the window is the one before Logout unless another goroutine verified meanwhile |
| `ClientSession.Client.LogoutThenTokenLogin` | fileee/auth.go:400-434 | a token login right after a successful Logout still sends a token if and only if the jar held a non-empty one under a longer path than "/" |
| `ClientSession.Client.Get` | fileee/service.go:155-179 | EnsureSession, then one unmarked GET whose response decides the result or error; without that GET the error is that of EnsureSession; at most 10 * MaxAttempts + 11 requests, each with its own limiter wait; the mutex is released |
| `Sync.LessMeaning` | fileee/query.go:219 | the order is Go's on strings: a proper prefix first, else by the first character that differs |
| `Sync.LessTotal` | fileee/query.go:219 | Go's order on ids is total and asymmetric |
| `Sync.LessTransitive` | fileee/query.go:219 | and transitive |
| `Sync.CanonicalUnique` | fileee/query.go:214-221 | there is only one ascending list of the entries of a map, so the request does not depend on map iteration order |
| `Sync.RepresentsReadsBack` | fileee/query.go:214-221 | reading the list back gives the map |
| `Sync.AssignMeaning` | fileee/query.go:238-249 | after the rows, an id has the version of its last row, or else its old one |
| `Sync.MergeMeaning` | fileee/query.go:238-249 | deletions win over rows, rows over old entries |
| `Sync.RoundShrinks` | fileee/query.go:227-256 | after an honest answer nothing vanished remains, the stale ids are those not listed, and strictly fewer if there were any |
| `Sync.EmptyAnswerIffSynced` | fileee/query.go:227-256 | an honest answer is empty if and only if the cursor equals the server |
| `Sync.SyncProgress` | fileee/service.go:126-152 | after n rounds at most the initial number of stale ids minus n is stale |
| `Sync.SyncConverges` | fileee/service.go:126-152 | after as many rounds as there were stale ids, and at least one, the cursor equals the server's map, for every page limit and every honest answer |
| `Sync.SnapshotSyncsAtOnce` | fileee/query.go:227-256 | a complete snapshot answer gets there in one round |
| `Sync.FallbackRefinesDirect` | fileee/documenttypes.go:48-58 | the cursor rebuilt from scratch equals the merge of the old one with the same rows and deletions |
| `SyncService.NewCursor` | fileee/query.go:165-167 | a fresh empty cursor |
| `SyncService.Clone` | fileee/query.go:170-176 | equal content in a fresh map, nothing else written |
| `SyncService.BuildLocalResults` | fileee/query.go:214-221 | the ascending list of the cursor's entries, whatever the iteration order |
| `SyncService.MergeSays` | fileee/query.go:234-248 | over the wire fields of an answer: the last row of an id that is not deleted sets its version, a deleted id is gone, an id without a row keeps its entry; a missing id is "" and a missing version 0 |
| `SyncService.DecodeRows` | fileee/query.go:234-248 | all rows decode or it stops; the map is the old one with the rows assigned in order, each row with the id and version on the wire |
| `SyncService.DecodeDiff` | fileee/query.go:227-256 | it succeeds if and only if every row decodes; the next cursor is the merge in a fresh map and has, over the wire fields, what MergeSays states; the caller's cursor is untouched |
| `SyncService.QueryAllPages` | fileee/service.go:201-216 | against a fixed list exactly that list, or an error; one call per full page, one for an empty list, and never more calls than rows otherwise |
| `SyncService.RestDiff` | fileee/service.go:126-152 | the canonical request, and the result or error for every kind of response; rows and next cursor over the wire fields of the response |
| `SyncService.DiffIsRound` | fileee/service.go:126-152 | against a server whose rows carry, on the wire, ids and versions of its state, every Diff is one round of the runs that converge |
| `SyncService.QueryFallbackDiff` | fileee/documenttypes.go:43-59 | DeletedIDs is duplicate-free and equals the known ids minus the queried ones; the cursor is the merge a direct answer would give |
| `SyncService.DocumentTypesDiff` | fileee/documenttypes.go:31-41 | when the fallback is taken; either way the cursor is the merge of rows and deletions, on the direct path over the wire fields of the response; every error |
| `SyncService.FallbackSyncs` | fileee/documenttypes.go:43-59 | one fallback round brings any cursor to the server's state |
| `Json.SmallIntegersExact` | fileee/types.go:290-294 | integers up to 2^53 in magnitude survive float64 |
| `Json.RoundNearest` | fileee/types.go:290-294 | no double is nearer to an integer than the rounded one, and of two equally near it is the even multiple of the spacing |
| `Json.RoundedIsExact` | fileee/types.go:290-294 | rounding to nearest, ties to even, yields a double, and 0 only for 0 |
| `Json.DecodedIntIsExact` | fileee/types.go:290-294 | what the number path yields is a fixed point of the number path, overflow included |
| `Json.RereadFacts` | fileee/types.go:272-295 | an int sent as a number comes back unchanged if and only if it is a double |
| `Json.ParseDecimal` | fileee/types.go:284-288 | the decimal of an integer, sign included, parses to that integer if it fits int64 and is refused otherwise |
| `Json.ParseTime` | fileee/types.go:312-325 | a time is accepted only with a valid full-date, which is the first ten characters |
| `Json.DateIsFullDate` | fileee/types.go:318-325 | every date of the calendar, written as year, month and day, is accepted |
| `Json.FullDateIsDate` | fileee/types.go:318-325 | and nothing else is a full-date |
| `Attributes.AttributeStruct.UnmarshalJSON` | fileee/types.go:421-490 | the loop computes the decode specification for every iteration order; only objects and null are accepted |
| `Attributes.AttributeStruct.MarshalJSON` | fileee/types.go:558-585 | it computes the encode specification for every order of the raw members |
| `Attributes.Conservation` | fileee/types.go:427-488 | decode then encode keeps unknown, group and undecodable members verbatim, drops exactly the simple members whose value is zero, and invents none |
| `Attributes.EncodedAt` | fileee/types.go:558-585 | the output at each key |
| `Attributes.Frame` | fileee/types.go:558-585 | setting one field changes the output at its key alone |
| `Attributes.FieldSettles` | fileee/types.go:492-556 | a decoded field that is encoded and decoded again is the same but for the time of day and float64 rounding; zero stays zero |
| `Attributes.DecodeSettles` | fileee/types.go:421-490 | the same for whole structs, with RawExtra and the groups unchanged |
| `Attributes.RoundTripIff` | fileee/types.go:421-585 | decode of encode of decode loses the time of day only, if and only if every integer field is a double |
| `Attributes.NormaliseIdempotentIff` | fileee/types.go:421-585 | normalising twice equals once if and only if every integer field is a double |
| `Attributes.NormaliseSettles` | fileee/types.go:421-585 | normalising twice is final for every input |
| `Attributes.CountsExactWhenSmall` | fileee/types.go:272-295 | integers up to 2^53 meet the condition |
| `Attributes.CompaniesNormalise` | fileee/types.go:636-680 | company attributes normalise idempotently, always |
| `Attributes.DocumentsNormaliseIff` | fileee/types.go:466-469 | document attributes normalise idempotently if and only if the two page numbers are doubles |
| `Attributes.NormaliseNotAlwaysIdempotent` | fileee/types.go:272-295 | 2^53 + 1 pages sent as a string become 2^53 on the second trip |
| `AttributesWire.TextRead` | fileee/types.go:248-252 | a text wrapper gives exactly its text under its key; a missing, null or other value gives "" |
| `AttributesWire.TextsRead` | fileee/types.go:297-301 | a list of texts gives exactly that list; a missing, null or other value gives none |
| `AttributesWire.DateRead` | fileee/types.go:312-326 | every calendar date, alone or with an accepted time of day, gives that date; what does not start with one gives none |
| `AttributesWire.FlagRead` | fileee/types.go:254-263 | a boolean gives that boolean; a missing, null or other value gives none |
| `AttributesWire.CountRead` | fileee/types.go:272-295 | numbers up to 2^53 and the decimal text of any int64 are read exactly, sign included; a text out of range gives 0, a double out of range the smallest int |
| `AttributesWire.MoneyRead` | fileee/types.go:357-371 | value and currency of a money group, each plain or nested under "value", are read into the right field; absent ones are 0 and "" |
| `AttributesWire.BankRead` | fileee/types.go:373-391 | iban, bic, bank and account_holder of an account, each plain or nested, are read into the field of that name; absent ones are "" |
| `AttributesWire.DocumentTable` | fileee/types.go:421-490 | the keys of documents and the kind of each |
| `AttributesWire.DocumentDecodes` | fileee/types.go:421-490 | all of the above for the literal keys of documents at once, and which members are kept raw |
| `AttributesWire.CompanyDecodes` | fileee/types.go:636-666 | the same for companies |
| `AttributesWire.UnmarshalDocument` | fileee/types.go:421-490 | the loop run on a new document struct reads every key as stated |
| `AttributesWire.UnmarshalCompany` | fileee/types.go:636-666 | and on a new company struct |
| `AttributesWire.EncodedOnWire` | fileee/types.go:492-585 | every set field is sent as the literal wrapper of its kind under its key; empty fields and groups are not, and all else comes from RawExtra |
| `SessionFile.SaveStepKeepsInv` | fileee/session.go:68-99 | every system call of a Save keeps the invariant of names, files and renames |
| `SessionFile.LoadStepKeepsInv` | fileee/session.go:52-65 | so does every read of a Load |
| `SessionFile.AtomicReplace` | fileee/session.go:68-99 | at every moment of every schedule, crashes at any system call included, the session file holds the complete bytes of the last renamed Save or the initial content; session bytes are only ever in files of mode 0600, and a file is closed before it is renamed; nil means replaced, an error means not, and no temporary file is left by a Save that returned |
| `SessionFile.LoadNeverTorn` | fileee/session.go:52-65 | a Load that overlaps any number of Saves returns exactly what the session file held at the moment it opened it: the payload of the Save renamed last before, or the initial content |
| `SessionFile.ReusedNameTears` | fileee/session.go:78-83 | the assumption on temporary names is needed: if a name may come back while its earlier owner still has to remove it, a schedule of three Saves leaves a torn file |
| `SessionFile.FileSessionStore.Save` | fileee/session.go:68-99 | the sequence of system calls, interleaved with all others, follows the machine to its return |
| `SessionFile.FileSessionStore.WriteAll` | fileee/session.go:88-91 | a write that reaches the file in pieces ends with the whole payload or an error |
| `SessionFile.FileSessionStore.Load` | fileee/session.go:52-65 | the bytes read are what the session file held in one state between call and return |

## Left out

- ClientSession.Client.RoundTrip: bodies, headers other than Cookie and x-xsrf-token, and logging are not modelled; limiter, body provider and base transport answer arbitrarily and return, and a re-auth error is reported without its cause.
- ClientSession.Client.Do: redirects, TLS and timeouts of `http.Client` are not modelled; which cookies a response sets is arbitrary.
- ClientSession.Client.Login: a URL that cannot be parsed counts as a failed request; whether the seed yields a one-time code is a constant, and the code itself is not modelled; what a body decodes to is part of the response.
- ClientSession.Client.EnsureSession: other goroutines publish re-auths, mark the session fresh and let time pass, but do not change this goroutine's jar and store between two of its steps; jar and store are not part of the interleaving model either.
- CookieJar.Query: domains, expiry dates, secure and http-only flags and creation times (section 5.3 of RFC 6265) are not modelled; the order among cookies of one path is arbitrary. The base URL is its path, without query and fragment.
- Backoff.Policy.NextDelay: requires MaxDelay >= -1, because the source panics below; the generator is a number drawn by the caller.
- RoundTripSpec.StepKeepsInv: the policy is the exponential one; other implementations of `BackoffPolicy` are not modelled.
- Concurrency.ReachableInv: the epoch is unbounded, while the source wraps around after 2^64 successes; the handshake's answers are arbitrary; memory-model effects below mutex and atomics are not modelled.
- Concurrency.NoDeadlock: assumes that limiter, base transport and session store return.
- SyncService.QueryAllPages: the list does not change while it is paged; without that assumption nothing is promised.
- SyncService.RestDiff: criteria, sort order and the start of the request are constants in the source and left out; typed rows are reduced to whether they decode; a failed read of the response body counts as a transport error.
- SyncService.BuildLocalResults: `sort.Slice` is replaced by an insertion sort of our own.
- Json.ParseTime: what follows the full-date is a parameter (`timeTail`); time zones and sub-second digits are not interpreted.
- Json.RereadFacts: converting a double out of the int64 range gives the smallest int, as on amd64; Go leaves it to the platform.
- Attributes.AttributeStruct.UnmarshalJSON: JSON is a datatype of values; byte syntax, duplicate keys, case-insensitive matching of wrapper keys and repair of invalid UTF-8 belong to `encoding/json`; the typed struct fields are held in one map keyed by wire name, so documents and companies share a class with different tables; nil and empty lists are one value.
- Attributes.FieldSettles: fractions are kept as their literal, and only their truncation is used.
- SessionFile.AtomicReplace: assumes that rename is atomic and that `os.CreateTemp` picks no name whose deferred removal a running Save still owes; there is no fsync in the source, so power loss is not covered; JSON encoding of the session is not modelled.
- `golang.org/x/time/rate`, `pquerna/otp`, `net/http/cookiejar` and `encoding/json` are not part of this model beyond what is stated above.
- Keepalive, account status, user ids, `parseAPIError`, and the services for contacts, reminders, boxes, conversations, sharing, export, search and uploads: single requests with status handling, which would add only easy members.
