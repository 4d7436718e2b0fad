# A model of the MCP gateway in Dafny

The gateway sits between agents and a fleet of MCP tool servers. This project
models the parts of it that carry an algorithm or a protocol and proves what
they are relied on for. Each module says at its head what it stands for.

| file | subject |
|---|---|
| `NatsLimiter` | the shared rate limiter as a protocol of reads and conditional writes by many replicas |
| `CircuitBreaker`, `Retry` | the breaker under interleaving, the retry loop, and a tool call through both |
| `MetaRateLimiter` | the in-memory token bucket of the discovery endpoints |
| `CapabilityIndex`, `Names`, `SessionAffinity` | who serves which tool, published names, and the choice of a backend |
| `Leases`, `Sweeper` | registration leases, heartbeats, acknowledgements, and the sweep for silent servers |
| `Tokens`, `Bm25Postings`, `Bm25Scores`, `Bm25Idf`, `Bm25` | lexical search over inverted indexes against a plain scan |
| `Ranking`, `Totals`, `RankFusion`, `HybridSearch`, `Cosine`, `EmbeddingCache` | ordering and adding up scores, rank fusion, vector similarity, the embedding cache |
| `Sse`, `AuditCsv` | the event stream and the audit export, each with a reader |
| `Common`, `Text`, `Registry` | options, string operations of the Go library, the server record |

How the model is built:

- A protocol is a total `Step` function over events, and `Run` folds it over a
  sequence. An event that is not enabled leaves the state as it is, so a theorem
  over all event sequences covers every interleaving. Clocks, lost and late
  messages, key expiry, random draws and the answers of other systems are part of
  the events.
- Code that updates fields is a class whose methods are proved to make one step
  of the machine, or to compute one specification function, and the theorems are
  about that machine or function.
- Floating-point numbers are `real`. The logarithm, the square root and the hash
  are parameters; of the logarithm only that it is positive above one is used
  (and, in one lemma, that it increases), of the square root only that it is not
  negative and that its square is its argument.
- Go maps are walked in an arbitrary order (`:|`), so results are shown not to
  depend on it.

Where code and documentation differ, the model follows the code:

- `docs/OVERVIEW.md:338` has stale servers expire after three times the heartbeat
  TTL. The sweeper passes three times the TTL to a query that triples it again,
  so it takes nine (`Sweeper.SweepLoop.Sweep`).
- `docs/OVERVIEW.md:334` has an active server become stale once heartbeats are
  missed. Registering clears the last heartbeat, and a server without one is in
  no listing, so one that registers and stays silent is never swept
  (`Leases.SilentSinceRegistrationStaysActive`).
- `docs/OVERVIEW.md:347` calls expired servers permanently removed from routing.
  A late write of a concurrent sweep can move one back to stale
  (`Leases.ExpiredIsFinal`).
- The repository's `README.md:177` speaks of marking stale and then
  deregistering; the sweep marks records expired and removes none.
- Its `README.md:834` says registration fails on a conflicting tool name in reject
  mode. Registration does not look at names, and listing publishes
  server-qualified names in that mode.

Promises that do not hold on all inputs are proved with the exact condition
under which they do: `CapabilityIndex.AddAgrees`, `Names.AlwaysRoundTrip`,
`CircuitBreaker.OnlyLateSuccessEmptiesCounter`,
`CircuitBreaker.NoCallWhileOpenIff`, `Sse.EventRoundTrip`,
`AuditCsv.GuardCollisions`, `Leases.StaysActiveIff`, `Leases.ExpiredIsFinal`,
`SessionAffinity.TieDependsOnOrder` with `SessionAffinity.UniqueTopIgnoresOrder`,
`Bm25.RemovedKeyIsGone`, `MetaRateLimiter.RateBound` (one quota more for each eviction)
and `NatsLimiter.NewWindowNeedsAbsentKey` with `NatsLimiter.SpentWindowBlocks`.
The states in which they fail are reached by
`CapabilityIndex.AddKeepsStaleName`, `Names.OverlappingSeparatorLosesTheServer`,
`Names.EmptyDisplayNameLosesTheServer`, `MetaRateLimiter.EvictionsEarnQuotas`,
`CircuitBreaker.CallCanBeginWhileOpen`, `CircuitBreaker.LateSuccessEmptiesCounter`,
`Leases.HeartbeatDuringSweepIsOverwritten`,
`Leases.ConcurrentSweepsLeaveAStaleWrite`, `NatsLimiter.SpentWindowIsReachable`
and `AuditCsv.GuardLosesTheDifference`.

## Model

| member | source | states |
|---|---|---|
| NatsLimiter.GrantsNeverExceedBurst | internal/ratelimit/nats_backend.go:81-170 | In every interleaving of requests with any clocks, limits, lost or late messages and key expiry, the requests granted since the key was last created never exceed the stored count, which never exceeds the largest burst in use; every pending or late write carries the successor of the value its revision names |
| NatsLimiter.CountIsGrants | internal/ratelimit/nats_backend.go:98-117 | When no write takes effect without its caller being told, the stored count is exactly the number of grants since the key was created |
| NatsLimiter.TotalGrants | internal/ratelimit/nats_backend.go:81-170 | Over a whole run, grants are at most one burst per life of the key, and the key has at most one life more than it has expiries |
| NatsLimiter.LivesPerExpiry | internal/ratelimit/nats_backend.go:160-170 | Every creation after the first needs an expiry before it |
| NatsLimiter.GrantsPerLife | internal/ratelimit/nats_backend.go:98-117 | The grants of all earlier lives are covered by one burst each |
| NatsLimiter.StepKeepsInv | internal/ratelimit/nats_backend.go:98-170 | Each read, write, late arrival, expiry and new request keeps the invariant that ties pending and late writes to the stored value and its revision |
| NatsLimiter.RefusedExactlyWhenFull | internal/ratelimit/nats_backend.go:104-159 | A request is refused exactly when the window it reads is open on its own clock and full; after the wait it is told that window is over on that clock, and not before, except that a window ending at that very moment costs a second |
| NatsLimiter.WindowLength | internal/ratelimit/nats_backend.go:86-96 | The window is the whole microseconds in which the limit lets one burst through, for every limit and burst, those that are not positive counting as 10 and 20 |
| NatsLimiter.GrantedLeavesTheRest | internal/ratelimit/nats_backend.go:108-114 | In every reachable state a grant's remaining count and the stored count add up to the caller's burst |
| NatsLimiter.UndisturbedRequest | internal/ratelimit/nats_backend.go:98-115 | A request nobody disturbs opens a window where there is none, takes a place in one that is open and not full, is refused by a full one, and loses the attempt to one that has run out |
| NatsLimiter.ThreeLostAttempts | internal/ratelimit/nats_backend.go:98-121 | Three attempts lost to a spent window end in the fallback, no fewer and no more |
| NatsLimiter.NewWindowNeedsAbsentKey | internal/ratelimit/nats_backend.go:143-145 | A write that starts a new window succeeds exactly when the key has vanished since the read: a spent window that still exists cannot be replaced |
| NatsLimiter.SpentWindowBlocks | internal/ratelimit/nats_backend.go:143-170 | While a spent window's key is alive, no run of any length, late writes included, grants or refuses anything by the counted path; every request ends in the fallback |
| NatsLimiter.SpentWindowIsReachable | internal/ratelimit/nats_backend.go:98-117 | One granted request leads to such a state: to every request that begins after its window the key is spent |
| NatsLimiter.PlayedIsARun | internal/ratelimit/nats_backend.go:98-121 | Playing one request's attempts with arbitrary events of others before each read and write is one run of the protocol |
| NatsLimiter.Frame | internal/ratelimit/nats_backend.go:81-122 | Steps of other requests neither see nor change a request's own phase |
| NatsLimiter.Deployment.Interfere | internal/ratelimit/nats_backend.go:81-122 | Events of other requests change the shared state as the protocol says |
| NatsLimiter.Deployment.Attempt | internal/ratelimit/nats_backend.go:99-115 | One load, decide, write round ends as the protocol's own steps do, with any interference before the read and before the write |
| NatsLimiter.Deployment.Allow | internal/ratelimit/nats_backend.go:81-122 | The bounded loop ends with a verdict, and state and verdict are those of the run made of its own and the others' events |
| CircuitBreaker.ReachableStates | internal/resilience/circuit.go:59-135 | In every interleaving a closed breaker is below its threshold, at most one thread runs a probe, and nothing is admitted while one does |
| CircuitBreaker.ClosedCountsFailures | internal/resilience/circuit.go:113-135 | Whenever the breaker is closed, its counter is the number of failed calls finished since the last success, probe success or reset |
| CircuitBreaker.CounterIsTally | internal/resilience/circuit.go:96-134 | In every reachable state, closed or not, the counter is the failed calls since the last success, reset or probe, a failed probe filling it to the threshold |
| CircuitBreaker.QuietPeriod | internal/resilience/circuit.go:70-88 | Open with a last failure at t or later and never reset, the breaker admits no call before t + timeout, whatever late completions land meanwhile |
| CircuitBreaker.OpensByTripping | internal/resilience/circuit.go:90-135 | A breaker that is not open opens exactly when a probe fails or a failed call brings the counter to the threshold |
| CircuitBreaker.TripIsQuiet | internal/resilience/circuit.go:70-135 | A failure of that kind at time t, from a closed, half-open or open breaker, leaves it open, and without a reset nothing is admitted before t + timeout |
| CircuitBreaker.QuietPeriodEnds | internal/resilience/circuit.go:70-88 | A time d after such a failure a newcomer is turned away exactly when d is less than the timeout, and otherwise probes |
| CircuitBreaker.ProbeDecides | internal/resilience/circuit.go:90-111 | Once the timeout is over a probe is let through; its success closes the breaker with a clear counter, its failure opens it again |
| CircuitBreaker.ClosedAdmits | internal/resilience/circuit.go:83-135 | A closed breaker lets every caller through |
| CircuitBreaker.OutageBound | internal/resilience/circuit.go:70-111 | From an open breaker until it recovers or is reset, only probes are admitted, and n of them take n timeouts of clock time |
| CircuitBreaker.OutageAdmitsProbes | internal/resilience/circuit.go:70-111 | During an outage every admission is a probe |
| CircuitBreaker.OnlyLateSuccessEmptiesCounter | internal/resilience/circuit.go:120-134 | A breaker that is not closed keeps a full counter after an event if and only if the event is not the successful end of a call admitted while closed, with the mutex free |
| CircuitBreaker.FullWithoutLateSuccess | internal/resilience/circuit.go:120-134 | In every run without such an event the counter of a breaker that is not closed stays full |
| CircuitBreaker.LateSuccessEmptiesCounter | internal/resilience/circuit.go:120-134 | A run from a new breaker that ends open with an empty counter |
| CircuitBreaker.NoCallWhileOpenIff | internal/resilience/circuit.go:70-84 | From an open breaker, no continuation without a reset begins a closed call before the timeout, if and only if no thread holds an admission from before |
| CircuitBreaker.CallCanBeginWhileOpen | internal/resilience/circuit.go:82-84 | Such an admission is reachable: a call admitted while closed begins after the breaker opened |
| CircuitBreaker.CallCounts | internal/resilience/circuit.go:59-135 | A call among any others is part of a run of the machine; in it the thread begins a call to the backend exactly when the result says so, once, and is turned away exactly when short-circuited, as its last step |
| CircuitBreaker.ReleaseFrees | internal/resilience/circuit.go:70-111 | Waiting for the mutex ends with the mutex free and the waiting thread where it was |
| CircuitBreaker.Breaker.constructor | internal/resilience/circuit.go:40-56 | A new breaker is closed with no failures, threshold and timeout defaulted when not positive, and nobody uses it |
| CircuitBreaker.New | internal/resilience/circuit.go:40-56 | Positive settings are kept; otherwise one failure opens the breaker and the timeout is one second |
| CircuitBreaker.Breaker.Reset | internal/resilience/circuit.go:149-161 | After any events of others and the wait for the mutex, the breaker is closed with counter and time cleared, and nothing else changes |
| CircuitBreaker.Breaker.ExecuteClosed | internal/resilience/circuit.go:113-135 | With any events of others before and during the call, the closed path counts a failure, opens at the threshold, clears on success, and does nothing when the context is done |
| CircuitBreaker.Breaker.ExecuteProbe | internal/resilience/circuit.go:90-111 | With the mutex held throughout, a failed probe reopens with a full counter and a successful one closes, whatever others attempt meanwhile |
| CircuitBreaker.Breaker.Interfere | internal/resilience/circuit.go:59-161 | Events of other threads and the clock change the shared state as the machine says |
| CircuitBreaker.Breaker.AwaitMutex | internal/resilience/circuit.go:70 | The mutex is free once the probe that held it has ended, in whichever way it does |
| CircuitBreaker.Breaker.Execute | internal/resilience/circuit.go:59-111 | For every schedule of other callers, state and result are those of the machine's steps for one call |
| Retry.Normalize | internal/resilience/retry.go:149-163 | The result is always usable: each usable setting is kept, each other one replaced by its default of 1 attempt, 100 ms, 2 s or a factor of 2 |
| Retry.RetryableErrors | internal/resilience/retry.go:114-147 | Which errors are worth another attempt: never a done context, a request at fault or an open circuit; always a timeout on the way and the statuses of an overloaded or failing backend |
| Retry.BackoffMonotone | internal/resilience/retry.go:165-179 | Before jitter the waits never shrink and stay between one nanosecond and the cap |
| Retry.BackoffGrows | internal/resilience/retry.go:165-179 | The first wait is the initial one under the cap, and each following one is the one before times the multiplier, up to the fraction rounded off, under the cap |
| Retry.JitterSpreads | internal/resilience/retry.go:181-194 | The draw spreads a wait from three quarters to five quarters of it, half way leaving it as it is, and a larger draw never shortens it |
| Retry.DelayBounds | internal/resilience/retry.go:165-194 | Jitter moves a wait by at most a quarter either way, rounding down; without jitter, or when the random source fails, the wait is the base |
| Retry.RetryContract | internal/resilience/retry.go:55-111 | At most MaxAttempts calls; every attempt but the last failed in a retryable way; the first success is returned; a non-retryable error ends the loop; the waits add up to at most (MaxAttempts - 1) times 1.25 times the cap |
| Retry.OutcomeExplained | internal/resilience/retry.go:55-111 | For every script of attempts the outcome tells why the loop stopped and after which attempt, and the time waited is the sum of the full waits between the calls and of what the context left of the last |
| Retry.RetryLoop | internal/resilience/retry.go:55-111 | The attempt loop computes the specified report for every script of attempts |
| Retry.CalledIsRetried | internal/resilience/client.go:60-103 | On a shared breaker a resilient call is the retry loop over the attempts the breaker lets through, and reaches the backend at most once per attempt |
| Retry.TakeTurn | internal/resilience/client.go:71-78 | One attempt among other callers leaves the shared state and result of the machine's call and sets a result only when the backend gave one |
| Retry.TakenTells | internal/resilience/client.go:71-95 | An attempt has no error exactly when the backend was reached and answered; otherwise its error is the backend's, or the circuit's or the context's |
| Retry.CallTool | internal/resilience/client.go:46-103 | For every schedule of other callers around and between the attempts, report, shared state and number of backend calls are those of the specification; a result is returned exactly on success and is the answer of the last attempt |
| Retry.Wait | internal/resilience/retry.go:95-111 | The clock moves on by at least the wait, whatever others do meanwhile |
| Retry.CallIsARun | internal/resilience/client.go:60-103 | A call on a shared breaker is part of a run of the breaker's machine: its thread begins as many backend calls as reported, at most maxAttempts, and is turned away at most once, as the run's last step, which ends the call |
| Retry.ResilientCall | internal/resilience/client.go:46-103 | All together for every schedule of other callers: at most MaxAttempts calls begun, waits within (MaxAttempts - 1) times 1.25 times the cap, no attempt after a non-retryable error, success exactly when the last attempt succeeds |
| Retry.OpenBreakerEndsTheCall | internal/resilience/client.go:71-95 | An attempt that gets the mutex while the breaker is open and its timeout not over ends the call, without a backend call and with the breaker as it was |
| MetaRateLimiter.RateBound | internal/server/server.go:855-889 | After any earlier run, in any stretch of requests with times in any order, a key evicted k times meanwhile is granted at most (k + 1) * (burst + rate * (b - a)) requests with a time in [a, b]; one not evicted meanwhile at most burst + rate * (b - a) |
| MetaRateLimiter.EvictionsEarnQuotas | internal/server/server.go:867-905 | The bound is attained for every k: with a burst of one and room for one key, a key that takes turns with another is evicted k times and granted k + 1 requests at one instant |
| MetaRateLimiter.RefusedOnlyWhenSpent | internal/server/server.go:872-889 | Nothing is wasted: in any run a request is refused only when since some earlier request of its key all but a fraction of the burst and the refill has been granted |
| MetaRateLimiter.ConformingNeverRefused | internal/server/server.go:855-889 | A caller that between any two of its requests asks for no more than burst + rate * elapsed is never refused, whatever the others do, evictions or not |
| MetaRateLimiter.EvictsOnlyWhenFull | internal/server/server.go:867-870 | A run evicts nobody if and only if its distinct keys are at most maxEntries |
| MetaRateLimiter.EvictedIsOldest | internal/server/server.go:891-906 | In every run the evicted key asked last no later than any other tracked key |
| MetaRateLimiter.SpacedNeverRefused | internal/server/server.go:855-889 | With a burst of at least one, a caller that keeps 1/rate seconds between requests is never refused, evicted or not |
| MetaRateLimiter.NeverOverfull | internal/server/server.go:867-888 | Whatever the run, at most maxEntries keys are tracked, the two maps have the same keys, and no bucket exceeds the burst |
| MetaRateLimiter.RunKeepsPaid | internal/server/server.go:872-888 | From any state the grants in an interval since the key's last eviction are paid for by the burst and the refill, and those before it by one quota per eviction; every step keeps the account |
| MetaRateLimiter.SpendInTokens | internal/server/server.go:872-888 | Refilling and spending in seconds agrees with doing so in units of 1/rate seconds |
| MetaRateLimiter.MetaLimiter.constructor | internal/server/server.go:842-853 | A new limiter is empty with the given rate, burst and capacity |
| MetaRateLimiter.MetaLimiter.EvictOldest | internal/server/server.go:891-905 | Scanning in any order removes an entry that no other predates, from both maps |
| MetaRateLimiter.MetaLimiter.MakeRoom | internal/server/server.go:867-870 | An entry is evicted exactly when the key is new and the limiter is full |
| MetaRateLimiter.MetaLimiter.Take | internal/server/server.go:872-888 | Refill, cap, spend or refuse, and remember the time in both cases |
| MetaRateLimiter.MetaLimiter.Allow | internal/server/server.go:855-889 | The whole call is one step of the machine that the bounds are about |
| CapabilityIndex.IndexAgrees | internal/registration/index.go:41-141 | After every run of Rebuild, Add, Remove and RefreshServer in which no Add drops a name, each list of either map holds exactly the live servers advertising that trimmed name, once each, and no list is empty |
| CapabilityIndex.ServedAfter | internal/registration/index.go:41-121 | What each operation makes of one server: a rebuild serves exactly the active ones given, adding or refreshing serves the record exactly when it is active, removing ends it, and no other server is touched |
| CapabilityIndex.AddAgrees | internal/registration/index.go:61-88 | Add keeps that agreement if and only if the server still advertises every name it advertised before |
| CapabilityIndex.AddKeepsStaleName | internal/registration/index.go:61-88 | A concrete Add that leaves a server listed under a tool it no longer has |
| CapabilityIndex.DropAgrees | internal/registration/index.go:123-141 | Removing a server keeps the agreement with that server gone |
| CapabilityIndex.SnapshotAgrees | internal/registration/index.go:41-58 | Rebuilding from a snapshot with distinct identifiers agrees with its routable servers |
| CapabilityIndex.KeysAreAdvertised | internal/registration/index.go:72-88 | The keys of an agreeing map are exactly the non-blank names some live server advertises |
| CapabilityIndex.LongestPrefixIsUnique | internal/registration/index.go:173-182 | At most one key is a longest prefix, so the order of the walk does not matter |
| CapabilityIndex.LongestPrefixIsAdvertised | internal/registration/index.go:160-183 | Over an agreeing map, a key is the longest matching one exactly when it is the longest prefix any live server advertises |
| CapabilityIndex.ListHoldsTheAdvertisers | internal/registration/index.go:144-157 | The list found under a key is the live servers advertising it, once each |
| CapabilityIndex.LookupsAnswerForTheLive | internal/registration/index.go:144-183 | After every clean run a lookup by prefix answers with exactly the live servers of the longest advertised prefix, once each, and one by tool with exactly the live servers advertising it |
| CapabilityIndex.UpsertServer | internal/registration/index.go:302-310 | Replaces the record with the same identifier in place, or appends |
| CapabilityIndex.RemoveServer | internal/registration/index.go:312-320 | Keeps every record with another identifier, in order |
| CapabilityIndex.AddTo | internal/registration/index.go:74-80 | Each trimmed non-blank name gets the server upserted into its list |
| CapabilityIndex.DropFrom | internal/registration/index.go:124-131 | Walking the keys in any order filters every list and deletes the ones left empty |
| CapabilityIndex.CapabilityStore.constructor | internal/registration/index.go:41-58 | A new index is the index of the empty run |
| CapabilityIndex.CapabilityStore.AddLocked | internal/registration/index.go:72-88 | Adds the server under its tools and its resources |
| CapabilityIndex.CapabilityStore.RemoveLocked | internal/registration/index.go:123-141 | Removes the server from both maps |
| CapabilityIndex.CapabilityStore.Rebuild | internal/registration/index.go:41-58 | Replaces both maps by the snapshot's routable servers |
| CapabilityIndex.CapabilityStore.Add | internal/registration/index.go:61-70 | Adds a routable server and ignores any other |
| CapabilityIndex.CapabilityStore.Remove | internal/registration/index.go:91-99 | Removes by identifier and ignores a blank one |
| CapabilityIndex.CapabilityStore.RefreshServer | internal/registration/index.go:103-121 | Removes first, then adds when the stored record is routable; an error leaves the index alone |
| CapabilityIndex.CapabilityStore.LookupTool | internal/registration/index.go:144-157 | Returns the list of the trimmed name, nothing for a blank one |
| CapabilityIndex.CapabilityStore.LookupResource | internal/registration/index.go:160-183 | Returns the list of the longest matching prefix for every order of the walk, nothing when none matches |
| Leases.LeasesAreHonest | internal/registration/service.go:184-315 | In every run: at most one record per identity; its epoch is the number of its registrations since it was created; it is acknowledged exactly when an acknowledgement with its current epoch, and its hash or none, arrived after its last registration |
| Leases.RecordsAreAsRequested | internal/registration/service.go:205-237 | In every run each record carries the name, tools, resources and hash of its identity's last successful registration |
| Leases.RemovedByWhom | internal/registration/service.go:327-371 | A record goes away exactly when an administrator or the server itself deregisters it |
| Leases.CreatedByWhom | internal/registration/service.go:184-260 | A record appears only by a valid and allowed registration of its own identity over mutual TLS |
| Leases.ChangedByWhom | internal/registration/heartbeat.go:51-177 | Only its owner renews a record or its heartbeat; others can change no more than the acknowledgement, and a sweeper the status |
| Leases.HeartbeatAnswers | internal/registration/heartbeat.go:131-177 | An owner's heartbeat for another lease is told to register again and changes nothing, an expired server is refused, any other becomes active and is asked for its capabilities exactly when it reports another hash |
| Leases.OldLeaseIsTurnedAway | internal/registration/heartbeat.go:145-155 | In every run a heartbeat whose epoch is not the number of registrations since the record was created is told to register again and changes nothing |
| Leases.AcceptedBeatActivates | internal/registration/state.go:31-59 | An accepted heartbeat comes from the owner and makes the server active, stale or not |
| Leases.BeatRevives | internal/registration/heartbeat.go:157-177 | After any run an accepted heartbeat makes the server active again, and it stays so or is removed in every timely continuation when no other status is still to be written |
| Leases.RegisterKeepsInv | internal/registration/service.go:220-237 | A first registration starts at epoch one, each later one raises the epoch by one and makes the record unacknowledged |
| Leases.AcknowledgeKeepsInv | internal/store/server_store.go:293-332 | An acknowledgement takes effect exactly for the current epoch and, if it names one, the current hash |
| Leases.TimelyServerStaysActive | internal/registration/sweeper.go:117-211 | In every run from the start, a server whose accepted heartbeats, read off the log, are at most one TTL old whenever a sweeper lists is never moved out of active, although listing and writing are separate steps, and the store holds its last accepted heartbeat |
| Leases.TimelyRun | internal/registration/heartbeat.go:157-177 | Every timely continuation keeps an active server active and its last accepted heartbeat in the store: refused beats, re-register answers and registrations accounted for |
| Leases.PunctualServerStaysActive | internal/registration/sweeper.go:117-211 | A server whose next heartbeat always comes within one TTL of the last is active at every point of every run |
| Leases.StaysActiveIff | internal/registration/sweeper.go:137-211 | An active server stays active, or is removed, in every timely continuation if and only if no write of another status is pending for it |
| Leases.SilentSinceRegistrationStaysActive | internal/store/server_store.go:353-399 | Registering clears the last heartbeat, so a server that registers and never sends one is never listed and stays active |
| Leases.HeartbeatDuringSweepIsOverwritten | internal/registration/sweeper.go:137-203 | Such a pending write is reached from the empty store: after registering and beating, a heartbeat between listing and writing is answered as active and then overwritten by stale |
| Leases.ExpiredIsFinal | internal/registration/state.go:31-59 | An expired server stays expired, or is removed, in every continuation without a new registration, if and only if no write of another status is still pending |
| Leases.ConcurrentSweepsLeaveAStaleWrite | internal/registration/sweeper.go:137-172 | From the empty store, a registered server and two replicas sweeping at once reach a state where the expired server still has a stale write pending |
| Leases.OtherStepsKeepLeases | internal/registration/heartbeat.go:157-177 | Heartbeats, sweeps and deregistration change no lease of a surviving record |
| Leases.Service.constructor | internal/registration/service.go:73-91 | A new service has no records |
| Leases.Service.GetBySpiffe | internal/store/server_store.go:135-144 | Finds the record of an identity exactly when there is one |
| Leases.Service.Register | internal/registration/service.go:184-260 | Refuses callers without mutual TLS, invalid and disallowed requests in that order; otherwise replaces the identity's record or creates one |
| Leases.Service.Heartbeat | internal/registration/heartbeat.go:51-177 | Refuses blank identifiers, callers, unknown records and foreign identities in that order; a stale lease is told to re-register without any change; otherwise status and time are updated |
| Leases.Service.Acknowledge | internal/registration/service.go:282-315 | Refuses blank identifiers and epochs below one; otherwise marks the matching lease or reports it missing |
| Leases.Service.Deregister | internal/registration/service.go:327-371 | Only an administrator or the server itself removes a record |
| Sweeper.SweepLoop.Sweep | internal/registration/sweeper.go:117-134 | Run without interference, with any failing listings and writes, one sweep leaves every active server silent for more than one interval stale and every active or stale one silent for more than nine expired where the database lets it, removes exactly the newly expired ones from the index and changes nothing else |
| Sweeper.CleanSweep | internal/registration/sweeper.go:117-134 | Without faults the status after a sweep is expired past nine intervals of silence and stale past one |
| Sweeper.CleanSweepMakesUp | internal/registration/sweeper.go:117-134 | A later sweep without faults leaves the store as if the failed one had not been |
| Sweeper.PassIsMoves | internal/registration/sweeper.go:137-172 | Moving the listed servers whose write works one by one gives exactly the due records the target status |
| Sweeper.SweepLoop.SweepStale | internal/registration/sweeper.go:137-151 | Exactly the overdue active servers whose write works become stale, and their number is returned; a failing listing changes nothing |
| Sweeper.SweepLoop.SweepExpired | internal/registration/sweeper.go:155-172 | Exactly the long silent servers whose write works become expired and leave the index; a failing listing changes nothing |
| Sweeper.SweepLoop.MarkListed | internal/registration/sweeper.go:144-150 | Every listed server whose write works is moved and counted |
| Sweeper.SweepLoop.ExpireListed | internal/registration/sweeper.go:162-171 | Every listed server whose write works is moved and removed from the index, in order |
| Sweeper.SweepLoop.TransitionServer | internal/registration/sweeper.go:177-211 | Writes the status the transition table gives, or reports that it gives none or that the write failed |
| Sweeper.SweepLoop.constructor | internal/registration/sweeper.go:32-44 | A sweeper works on the given store and index |
| Sweeper.Interval | internal/registration/sweeper.go:223-228 | The interval is the heartbeat TTL, or 30 seconds when that is not positive |
| Sweeper.AllMoved | internal/registration/sweeper.go:144-150 | Moving the listed servers one by one gives the matching records the target status and leaves the others alone |
| Sweeper.Query | internal/store/server_store.go:353-399 | A listing holds each matching record once |
| Sweeper.RemovedAllAgrees | internal/registration/sweeper.go:162-171 | After the sweep the index agrees with the live servers that were not removed |
| Names.AlwaysRoundTrip | internal/proxy/namespace.go:65-104 | In always mode, for every tool and server name that is not blank, resolving undoes publishing if and only if the display name begins with a character trimming keeps and the separator first occurs in display + separator at its end (for an empty display name: only if the separator is white space absent from the tool) |
| Names.OverlappingSeparatorLosesTheServer | internal/proxy/namespace.go:93-104 | A display name free of the separator that nevertheless does not resolve |
| Names.EmptyDisplayNameLosesTheServer | internal/proxy/namespace.go:65-104 | A server registered as mcp- has an empty display name, and its published tools do not resolve |
| Names.PublishedNameResolves | internal/proxy/router.go:158-165 | In all three modes a published name, called over the same index, reaches at least one live backend advertising the resolved tool, and the publishing one unless the name is itself an advertised raw tool that it does not have; a prefixed name reaches only servers that go by the display name it carries |
| Names.PrefixedNameReachesItsServer | internal/proxy/router.go:158-229 | A prefixed name that is no raw tool reaches exactly the live servers that offer the tool and whose name or identifier is the display name, with or without mcp- and in any case; the publishing one alone when it is the only one |
| Names.LegacyNameReachesItsServer | internal/proxy/router.go:231-261 | The older form mcp.server.tool reaches exactly the servers offering the tool that go by its middle part |
| Names.PublishedNameByMode | internal/proxy/tools.go:276-322 | A server is published by its name, or its identifier when that is blank: on every tool in always mode, on tools of several servers in on-conflict mode, and otherwise on tools that do not carry it yet |
| Names.FederatedNamesCoincideIff | internal/proxy/tools.go:287-322 | Without namespaces two published names are the same exactly when the display names are and the tools are up to that prefix |
| Names.OnConflictNamesAreDistinct | internal/proxy/namespace.go:65-113 | In on-conflict mode, with distinct display names and a one-character separator absent from display and tool names, different server-tool pairs get different names |
| Names.FilteredExactly | internal/proxy/router.go:211-229 | Filtering keeps exactly the candidates whose trimmed name or identifier, with or without mcp-, is the hint up to case |
| Names.FilterCandidatesByServer | internal/proxy/router.go:211-219 | The loop keeps the matching candidates in order, and those are exactly the ones that go by the hint |
| Text.EqualFoldMeans | internal/proxy/router.go:221-225 | Comparing up to case: same length, and at each place the same character or the same letter in the other case |
| Names.AggregateTool | internal/proxy/tools.go:197-274 | Appends, never one twice, exactly the names that stand for a listed backend's tool and whose definition is cached or offered by that backend, and caches what it fetched |
| Names.ListTools | internal/proxy/tools.go:157-274 | Publishes, once each, exactly the names that stand for a listed server and tool and whose definition is cached or offered; a backend that cannot be asked offers nothing |
| Names.ListedNeedsADefinition | internal/proxy/tools.go:227-241 | A name no earlier listing cached is published only for a listed server that offers the tool now |
| Names.ListedNamesReach | internal/proxy/tools.go:157-188 | Every name a listing publishes can be called |
| EmbeddingCache.CacheIsRecencyList | internal/search/embedding_cache.go:36-69 | After any run the cache holds exactly the maxSize most recently touched keys, in order of last touch, each with the value set last; what counts as a touch is defined without the cache; maxSize zero means no bound |
| EmbeddingCache.CacheIsBounded | internal/search/embedding_cache.go:52-69 | At most maxSize keys, the order list free of duplicates and with the map's keys |
| EmbeddingCache.RecencyIsByLastTouch | internal/search/embedding_cache.go:90-98 | Earlier in the reference list means touched less recently |
| EmbeddingCache.RecencyKeys | internal/search/embedding_cache.go:90-98 | The reference list holds each touched key once |
| EmbeddingCache.KeptTouched | internal/search/embedding_cache.go:36-49 | Touching a kept key moves it to the end of what is kept |
| EmbeddingCache.KeptInserted | internal/search/embedding_cache.go:52-69 | A new key comes in at the end and pushes out the first when full |
| EmbeddingCache.LruCache.constructor | internal/search/embedding_cache.go:25-33 | A new cache is empty; a non-positive size means no bound |
| EmbeddingCache.LruCache.MoveToEndLocked | internal/search/embedding_cache.go:90-98 | Moves the key to the end, others keep their order |
| EmbeddingCache.LruCache.EvictLocked | internal/search/embedding_cache.go:101-108 | Drops the least recently used key from both |
| EmbeddingCache.LruCache.Get | internal/search/embedding_cache.go:36-49 | Returns the value and touches the key, or reports a miss |
| EmbeddingCache.LruCache.Set | internal/search/embedding_cache.go:52-69 | Replaces and touches, or inserts, evicting when full |
| Ranking.RankingIsUnique | internal/search/bm25.go:134-144 | A score map has exactly one listing by descending score and ascending key, whatever order it is walked in |
| Ranking.SortedIsUnique | internal/search/hybrid.go:158-163 | A list strictly sorted by that order is determined by its elements |
| Ranking.Rank | internal/search/hybrid.go:153-163 | Collecting the map in any order and sorting gives that listing |
| Ranking.LimitedIsBest | internal/search/bm25.go:146-148 | A limited list is the start of the ranking, as long as the limit or all there is, and everything in it comes before everything left out |
| Ranking.RankedCounts | internal/search/bm25.go:134-144 | A ranking has exactly one place for every scored key |
| Ranking.KeyLessMeans | internal/search/bm25.go:139-144 | Ties go by key: a proper start comes first, otherwise the smaller first difference |
| RankFusion.FuseRRF | internal/search/hybrid.go:143-166 | The result is the ranking of the sums of 1 / (60 + rank + 1) over all occurrences in both lists |
| RankFusion.PlaceEarns | internal/search/hybrid.go:143-152 | In a list without repeats the first place earns 1/61, the second 1/62, and so on |
| RankFusion.FusionListsTheUnion | internal/search/hybrid.go:143-166 | Exactly the keys of either list, once each, duplicates in the inputs or not, and as many as that |
| RankFusion.FusionIsSymmetric | internal/search/hybrid.go:143-166 | Swapping the arguments changes nothing |
| RankFusion.DominatingKeyComesFirst | internal/search/hybrid.go:143-166 | For duplicate-free lists, a key no worse in both and better in one comes before the other |
| Totals.SumForRemove | internal/search/bm25.go:127-131 | A key's total is the same whichever document is added last |
| Totals.TotalledOneMore | internal/search/bm25.go:127-131 | Adding one document's score to the running totals gives the totals of one document more, when zero scores are skipped |
| Tokens.BreakSplits | internal/search/tokenize.go:13-15 | Tokens on either side of a break are found independently |
| Tokens.WordIsOneToken | internal/search/tokenize.go:13-15 | A run without breaks is one token |
| Tokens.PartsOfAName | internal/search/tokenize.go:11-19 | White space, dots, underscores and hyphens separate, letters and digits do not, and case does not matter |
| Tokens.ExpansionIsExact | internal/search/synonyms.go:97-130 | The expansion holds each query token and each synonym of one, once, and the query's own tokens come first in order |
| Tokens.ExpandQueryWith | internal/search/synonyms.go:97-130 | The two loops give the first occurrences of the tokens followed by all synonym groups |
| Tokens.AppendNew | internal/search/synonyms.go:106-112 | Appends the tokens not seen before, in order |
| Bm25Postings.IndexField | internal/search/bm25.go:291-299 | Adds the token counts of one document to the postings and records its length; other documents are untouched |
| Bm25Postings.ComputeAvgDocLen | internal/search/bm25.go:301-310 | The average field length over the documents, zero for none |
| Bm25Postings.BuildPartition | internal/search/bm25.go:251-282 | For all four fields the posting of a token for a document is its number of occurrences there, no entry is zero, lengths and average are right |
| Bm25Postings.CollectTagTokens | internal/search/bm25.go:262-265 | The tokens of all tags in order |
| Bm25Idf.AddPostings | internal/search/bm25.go:230-237 | Walking a field's postings in any order adds exactly the documents that hold each token |
| Bm25Idf.AddPartitionPostings | internal/search/bm25.go:226-239 | A partition adds each of its documents once per token, in however many fields the token occurs |
| Bm25Idf.RecomputeGlobalIDF | internal/search/bm25.go:217-248 | The table has an entry for exactly the tokens some document holds, computed from the number of documents and the number that hold it |
| Bm25Scores.IdfIsPositive | internal/search/bm25.go:241-246 | A token is held by at most all documents, so every inverse document frequency is positive |
| Bm25Scores.RarerWeighsMore | internal/search/bm25.go:241-246 | With an increasing logarithm, a token held by fewer documents weighs more |
| Bm25Scores.TfScoreShape | internal/search/bm25.go:326-328 | More occurrences score more, below a ceiling of k1 + 1; longer fields score less; at average length the damping is k1, and for an empty field a quarter of that |
| Bm25Scores.HeavierFieldGainsMore | internal/search/bm25.go:314-330 | Other things equal, a match in the name gains more than one in the title or the tags, which gain alike, and those more than one in the description |
| Bm25Scores.RarerTokenGainsMore | internal/search/bm25.go:314-330 | A token with a larger inverse document frequency gains more wherever it occurs |
| Bm25Scores.MoreOccurrencesGainMore | internal/search/bm25.go:314-330 | Of two equally long fields of a partition the one with more occurrences gains more |
| Bm25Scores.AverageLengthIs | internal/search/bm25.go:301-312 | The average length times the number of documents is the number of tokens they hold |
| Bm25Scores.RarityIs | internal/search/bm25.go:241-246 | The argument of the logarithm is (total + 1) / (holders + 1/2) |
| Bm25Scores.DocScoreSign | internal/search/bm25.go:314-330 | A document's score is positive exactly when it holds one of the terms in some field, and never negative |
| Bm25Scores.ScanFindsExactly | internal/search/bm25.go:114-132 | A plain scan totals exactly the keys of documents holding some term, all positive |
| Bm25.AccumulateField | internal/search/bm25.go:314-330 | Adds to every document the field's share computed from its own token count, length and average |
| Bm25.AccumulateTerm | internal/search/bm25.go:121-125 | Adds the four fields' shares with their weights |
| Bm25.LookedUpIdf | internal/search/bm25.go:121 | A term without a table entry is in no document, so its default of zero changes no score |
| Bm25.ScorePartition | internal/search/bm25.go:119-126 | The score array of a partition holds the scan's score of every document |
| Bm25.AddPartitionScores | internal/search/bm25.go:127-131 | Adding a partition's positive scores gives the totals of the partitions visited so far |
| Bm25.ScoreAll | internal/search/bm25.go:112-132 | Over all partitions in any order, the posting lists give the totals of the plain scan |
| Bm25.SearchFindsExactly | internal/search/bm25.go:96-151 | Without a limit a search lists, once each and by score then key, exactly the keys of documents holding a query token or a synonym, all with positive scores |
| Bm25.LimitedSearchFindsBest | internal/search/bm25.go:96-152 | With a limit a search returns the start of the full ranking, that many or as many as there are matching keys, each ahead of every one left out |
| Bm25.Engine.Search | internal/search/bm25.go:96-151 | The result is the ranking of the plain scan of the current documents for the expanded query, cut to a positive limit; an empty query or corpus gives nothing; with a limit the best of that ranking and no others |
| Bm25.Engine.constructor | internal/search/bm25.go:59-78 | A new engine has no documents |
| Bm25.Engine.Index | internal/search/bm25.go:82-91 | All documents are replaced by one default partition |
| Bm25.Engine.AddPartition | internal/search/bm25.go:186-195 | One partition is added or replaced, the others kept, the table recomputed |
| Bm25.Engine.RemovePartition | internal/search/bm25.go:198-203 | One partition is removed, the table recomputed |
| Bm25.Engine.Remove | internal/search/bm25.go:155-183 | The first document with the key in one partition is removed, an emptied partition with it; without such a document nothing changes |
| Bm25.RemovedKeyIsGone | internal/search/bm25.go:155-183 | Removing takes the key away if and only if it occurred at most once; no other key comes or goes |
| HybridSearch.Search | internal/search/hybrid.go:46-90 | The fused ranking, or the lexical one when the vector engine failed, cut to a positive limit; with a limit the best of that ranking and no others |
| HybridSearch.HybridFindsBoth | internal/search/hybrid.go:46-90 | Without a limit the keys found are those of either engine, once each |
| Cosine.CosineSimilarity | internal/search/vector.go:313-331 | The accumulating loop computes the similarity; unequal lengths, empty vectors and zero norms give zero |
| Cosine.CauchySchwarz | internal/search/vector.go:318-324 | The square of the accumulated dot product is at most the product of the accumulated norms, for vectors of any length |
| Cosine.SimilarityIsBounded | internal/search/vector.go:326-330 | Similarity lies between -1 and 1 |
| Cosine.SimilarityTimesNorms | internal/search/vector.go:313-331 | Similarity times the two norms is the dot product, also when a norm is zero |
| Cosine.SimilarityIsSymmetric | internal/search/vector.go:313-331 | Swapping the vectors changes nothing |
| Cosine.SelfSimilarity | internal/search/vector.go:313-331 | A vector is similar to itself with one, or zero when its norm is zero |
| SessionAffinity.Select | internal/proxy/session_affinity.go:28-55 | No candidates give none, no session gives the fallback's choice, otherwise the first candidate of maximal score |
| SessionAffinity.WinnerIsFirstMaximal | internal/proxy/session_affinity.go:36-46 | Nobody scores more than the winner and nobody before it as much |
| SessionAffinity.RemovalKeepsTheWinner | internal/proxy/session_affinity.go:36-46 | Whichever other candidates are removed, the winner stays |
| SessionAffinity.InsertionMovesOnlyToTheNew | internal/proxy/session_affinity.go:36-46 | A candidate inserted anywhere leaves the choice alone or becomes it |
| SessionAffinity.UniqueTopIgnoresOrder | internal/proxy/session_affinity.go:36-46 | A unique top score is chosen in every order of the candidates |
| SessionAffinity.TieDependsOnOrder | internal/proxy/session_affinity.go:40 | A tie between different candidates is broken by the order, so uniqueness is needed |
| Sse.SseWriter.constructor | internal/proxy/stream.go:21-35 | A new stream is empty |
| Sse.SseWriter.WriteEvent | internal/proxy/stream.go:38-63 | Appends the event line unless the name is blank, one data line per payload line and a blank line |
| Sse.SseWriter.WriteDataLines | internal/proxy/stream.go:52-56 | Appends one data line per payload line |
| Sse.SseWriter.WriteKeepalive | internal/proxy/stream.go:93-99 | Appends a comment line and a blank line |
| Sse.CutStream | internal/proxy/stream.go:38-99 | Read line by line, a stream is the lines of its messages, newlines in event names starting lines of their own |
| Sse.ExtractSSEData | cmd/mcpgw/proxy.go:217-235 | The scanning loop joins the trimmed non-blank data lines, and stops for good at a line of 1048576 characters |
| Sse.ExtractReadsTheLines | cmd/mcpgw/proxy.go:217-235 | For every list of messages the extract is made of their lines up to the first that is too long |
| Sse.ExtractReadsTheStream | cmd/mcpgw/proxy.go:217-235 | When all lines fit, the extract is the payload lines together with any data lines that event names spell out |
| Sse.ExtractIsThePayloads | cmd/mcpgw/proxy.go:217-235 | With newline-free event names the extract is the trimmed non-blank lines of all payloads, keepalives or not |
| Sse.EventRoundTrip | internal/proxy/stream.go:38-63 | One event comes back unchanged if and only if its payload is empty or made of trimmed non-blank lines |
| Sse.PayloadsRoundTrip | internal/proxy/stream.go:38-99 | A stream of one-line trimmed payloads is read back payload by payload |
| Sse.SplitOfJoined | cmd/mcpgw/proxy.go:226-229 | Splitting joined one-line parts gives the parts back |
| Sse.JoinedOfSplit | internal/proxy/stream.go:52 | Joining the pieces of any text gives the text back |
| AuditCsv.WriteAuditCSV | internal/admin/handler.go:629-641 | The export is the header followed by one row per entry |
| AuditCsv.ExportIsReadBack | internal/admin/handler.go:615-641 | A reader after section 2 of RFC 4180 reads every export as the header and one six-field record per entry, each text field up to the leading-quote guard |
| AuditCsv.QuotedIsRead | internal/admin/handler.go:623-626 | A field printed with quotes where needed is read back as itself, whatever it contains |
| AuditCsv.CommasAreRead | internal/admin/handler.go:633-638 | Fields with commas between them are read back one by one |
| AuditCsv.GuardIsSafe | internal/admin/handler.go:617-622 | A guarded field never starts with a formula character, and differs from the original exactly when that did |
| AuditCsv.GuardCollisions | internal/admin/handler.go:617-622 | Two different texts are exported alike if and only if one is the other with the guard in front |
| AuditCsv.GuardLosesTheDifference | internal/admin/handler.go:617-622 | A concrete pair of such texts |

## Left out

- HTTP handlers, middleware, templates, command line, TLS, OIDC, metrics, tracing, the MCP and LLM clients: input and output, and wrappers of libraries.
- The grants of the rate limiter's fallback (internal/ratelimit/nats_backend.go:177-182): outside the counted path; the model says only that a request ended there.
- The other rate limiter backends: one is a library bucket, the other a script that runs elsewhere.
- NatsLimiter.GrantsNeverExceedBurst: counts and times are unbounded integers, so 64-bit wrap-around of microsecond times is not modelled; the window length is computed in exact arithmetic and rounded toward zero.
- Retry.DelayBounds: durations are exact, so the rounding of floating-point multiplication is not modelled.
- MetaRateLimiter.RateBound: elapsed time is exact and does not saturate.
- Postgres: an abstract store that keeps the identifier it is given; the real Create leaves it out of its INSERT (internal/store/server_store.go:51-70).
- Concurrent Register calls for one identity, whose lookup and write are separate statements, and the capability refresh after a heartbeat, which is off where no tool lister is set.
- Sweeper.SweepLoop.Sweep: the health events it publishes; interference during a sweep is in the lease machine.
- Leases.Service.Register: payload validation and the allow list of identities are given as their outcomes; database errors are not modelled.
- ListServers, ListTools, ListResources and LookupServer of the capability index: counts and sorted key lists over maps whose contents are proved.
- Names.ListTools: definitions are names only, and none expires from the cache during a listing.
- Names.AggregateTool: as for the whole listing, definitions are names only.
- Case folding outside ASCII, in `EqualFold` and in `Tokenize`; characters stand for both bytes and runes, so the 1 MB line limit is counted in characters.
- SessionAffinity.Select: the hash is any function of the two identifiers put together; the round-robin fallback is a parameter. The router passes no session identifier (internal/proxy/router.go:168), so its calls always take the fallback.
- The vector engine around the similarity: embedding, partitions, and its cache key, which ignores title and tags.
- Bm25.Engine.Search: floating-point rounding, so that scores equal in exact arithmetic are ties here; the static synonym table is a parameter.
- AuditCsv.ExportIsReadBack: the time stamp is any text of the characters RFC 3339 uses, and the details are any text rather than JSON.
- Policy keywords, role checks, configuration: one branch each.
