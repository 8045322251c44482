# Verified model of the `r` web framework's state machines

This project models the parts of the web framework that keep state between and during
requests, and proves what they promise over whole runs:

- the **circuit breaker**: one whole call at a time (`Breaker.dfy`), cut into single atomic
  steps that any number of threads interleave (`BreakerSteps.dfy`), what overlapping calls do to
  two of its promises, and exactly when (`BreakerOverlap.dfy`, `BreakerPeriods.dfy`), and one
  breaker per endpoint behind the middleware (`Endpoints.dfy`);
- the **token-bucket rate limiter** with lazy refill, fixed-point tokens and background
  cleanup (`RateLimiter.dfy`, `RateLimiterProofs.dfy`);
- the **re-entrant handler chain**, with aborts, panics and recovery (`Chain.dfy`,
  `ChainProofs.dfy`), its meaning step by step (`ChainSteps.dfy`), what a panic does to it
  (`ChainPanics.dfy`), the error it leaves on its context (`ChainErrors.dfy`), the middleware lists of routers and groups (`Routing.dfy`) and the
  framework's own gates on a live context (`Middleware.dfy`);
- the **WebSocket bookkeeping**: the circular message buffer (`MessageBuffer.dfy`), the
  connection table and run-once close under any interleaving (`ConnectionSteps.dfy`), whole calls and refusals
  there (`ConnectionCalls.dfy`), and the
  sweep of stale connections (`ConnectionManager.dfy`);
- the **metrics**: canonical keys (`MetricKeys.dfy`), counters under any interleaving
  (`MetricCounters.dfy`) and the truncating average of a route (`RouteMetrics.dfy`).

## How it is built

Objects that the program updates in place are classes, and each method is proved against a
function of the old state (`Breaker.Effect`, `RateLimiter.Effect`, `Chain.Drain`,
`MessageBuffers.Apply`, ...). Lemmas then speak about those functions over every sequence of
calls. Concurrent parts are step machines: a run is a sequence of actions (a thread begins a
call, or takes its next atomic step), an action that is not possible changes nothing, and so
every interleaving of any number of threads is such a sequence. `BreakerSteps` shows that the
steps of a call that nobody interrupts are the whole call.

Handlers are finite scripts of what they do to the chain. A handler is entered at most once in
a request (which is proved), so for one request any handler that terminates is such a script.

The HTTP library gives the path of every request a leading slash; `Endpoints` takes that of the
requests it speaks about.

Times are integer nanoseconds and are parameters. Floating-point arithmetic is taken as exact;
the refill and the average are also written in the program's own form, over reals, and shown
equal to the integer form. Counters are unbounded integers.

Where the code and its documentation differ, the code is followed: half-open needs two
successes whatever `HalfOpenRequests` says (circuit_braker.go:174), and half-open does not
limit how many requests are let in. A threshold below one behaves like one, so the breaker
results need no assumption on it.

## Model

| member | source | states |
|---|---|---|
| Breaker.CircuitBreaker.constructor | circuit_braker.go:169-181 | a new breaker is closed with empty counters, and needs two successes to close again |
| Breaker.CircuitBreaker.IsOpen | circuit_braker.go:31-49 | the new cells and the answer are those of a whole poll |
| Breaker.CircuitBreaker.TryTransitionFromOpenToHalfOpen | circuit_braker.go:52-57 | open becomes half-open with no successes; any other state is left alone |
| Breaker.CircuitBreaker.CheckThresholdAndTransition | circuit_braker.go:74-83 | the state is open afterwards exactly when the count reached the threshold or it was open before |
| Breaker.CircuitBreaker.RecordFailure | circuit_braker.go:66-71 | the new cells are those of a whole failure report |
| Breaker.CircuitBreaker.HandleHalfOpenSuccess | circuit_braker.go:109-118 | the new cells are those of a success in half-open |
| Breaker.CircuitBreaker.RecordSuccess | circuit_braker.go:94-105 | the new cells are those of a whole success report |
| Breaker.FollowsAutomaton | circuit_braker.go:31-128 | after any sequence of calls the breaker is in the phase of a three-state reference automaton, and every answer is the automaton's |
| Breaker.CountersRecordHistory | circuit_braker.go:66-104 | closed, the failure counter is the number of failures after the last success and below the threshold; the stamp is the time of the last failure |
| Breaker.TripsAtThreshold | circuit_braker.go:66-83 | without successes, a closed breaker stays closed exactly while the run of failures is short of the threshold |
| Breaker.ClosesAtCloseCount | circuit_braker.go:94-118 | without failures, a half-open breaker closes at exactly the success that completes the count |
| Breaker.OpenRejectsUntilTimeout | circuit_braker.go:34-48 | until the timeout has passed since the last failure, every poll is rejected and nothing changes, late successes included |
| BreakerSteps.ActionKeepsClosedExplained | circuit_braker.go:66-118 | no step of any thread ends the explanation of a full failure count in a closed breaker |
| BreakerSteps.ActionKeepsHalfOpenExplained | circuit_braker.go:52-57 | no step of any thread ends the explanation of a full success count in a half-open breaker |
| BreakerSteps.EveryInterleavingIsExplained | circuit_braker.go:52-118 | in every interleaving, closed with a full failure count means that a failure has yet to trip or a closing success has yet to clear; dually for half-open |
| BreakerSteps.QuiescentNeverStuck | circuit_braker.go:52-118 | with no call in flight, closed is below the threshold and half-open below the closing count |
| BreakerSteps.LostSwapChangesNothing | circuit_braker.go:52-118 | a call that loses its swap changes nothing more; a poll that loses it lets its request through |
| BreakerSteps.RejectedExactlyWithinTimeout | circuit_braker.go:31-49 | in every interleaving, a poll rejects exactly when it found the breaker open and, as it reads the clock, the timeout has not passed since the failure last stamped |
| BreakerSteps.TransitionsBalance | circuit_braker.go:52-118 | in every interleaving only four transitions occur, and entries into each state balance the exits from it |
| BreakerSteps.FinishedCall | circuit_braker.go:31-118 | the steps of a call taken alone leave and answer what the whole call does |
| BreakerSteps.UninterruptedCallIsAtomic | circuit_braker.go:31-118 | with any other calls in flight but pausing, a call's steps have the effect and answer of the whole call |
| BreakerSteps.SerialRunIsSequential | circuit_braker.go:31-118 | calls that never overlap lead to the cells of the sequential model |
| BreakerOverlap.LateResetEmptiesOpenBreaker | circuit_braker.go:95-100 | overlapping calls can leave a breaker open and at rest with no failure counted |
| BreakerOverlap.TimelyRunsAreNeverEmptied | circuit_braker.go:66-118 | in every interleaving in which no call clears the failures once the breaker has tripped or a call holds a full count to trip it with, an open or half-open breaker has a full count of failures |
| BreakerOverlap.EmptiedExactlyAfterLateClear | circuit_braker.go:94-128 | an action lets that fail, with no further late clear, if and only if it is such a late clear |
| BreakerOverlap.OneThreadIsTimely | circuit_braker.go:94-118 | calls of one thread never clear late |
| BreakerPeriods.LeftOverSuccessCloses | circuit_braker.go:109-118 | a success left over from one half-open period can let a single success of the next one close the breaker |
| BreakerPeriods.SteadyRunsNeverCloseEarly | circuit_braker.go:52-118 | in every interleaving in which no success is left over when a half-open period begins and none completes the count on top of successes not yet cleared, it takes a full count of calls that found the breaker half-open in one period to close it |
| BreakerPeriods.ClosesEarlyExactlyAfterStray | circuit_braker.go:52-118 | an action lets that fail, with no further stray success, if and only if it lets a success stray in one of these two ways |
| BreakerPeriods.OneThreadIsSteady | circuit_braker.go:52-118 | no success of calls of one thread strays |
| Endpoints.CircuitBreakerMiddleware.constructor | middleware_circuit_breaker.go:13-19 | the table of breakers starts empty |
| Endpoints.CircuitBreakerMiddleware.LoadOrStore | middleware_circuit_breaker.go:26-32 | a breaker already in the table is the one returned and stays in the table |
| Endpoints.CircuitBreakerMiddleware.Guard | middleware_circuit_breaker.go:34-59 | a request is refused, and changes nothing, exactly while its breaker is open and the timeout has not passed since the last failure; otherwise an error or an overrun adds a failure stamped with its own time, and anything else adds none |
| Endpoints.CircuitBreakerMiddleware.Handle | middleware_circuit_breaker.go:21-63 | only the endpoint's own entry changes, no entry is ever replaced by the breaker each request offers |
| Endpoints.KeyIdentifiesEndpoint | middleware_circuit_breaker.go:22-24 | two endpoints share a key if and only if they are equal or the method of one is the other's with a colon and the text by which the other's path is longer |
| Endpoints.VerbsCollideExactlyWhenRunningOn | middleware_circuit_breaker.go:22-24 | two methods share a key on some paths that begin with a slash if and only if one is the other with a colon and a slash and some text after it |
| Endpoints.ColonInVerbSharesBreaker | middleware_circuit_breaker.go:24 | two different endpoints that can be received share a key |
| Endpoints.EndpointProjection | middleware_circuit_breaker.go:19-63 | for any mix of requests whose methods cannot collide with its own, an endpoint's breaker is where its own requests alone lead |
| Endpoints.AnswersProject | middleware_circuit_breaker.go:34-43 | every request among methods that cannot collide with its own gets the verdict it would get if no other endpoint existed |
| Endpoints.EndpointFollowsAutomaton | middleware_circuit_breaker.go:19-63 | an endpoint's breaker follows the reference automaton on exactly the calls of its requests |
| Endpoints.VerdictsFollowAutomaton | middleware_circuit_breaker.go:34-43 | in any mix of requests, each one is rejected exactly when the reference automaton, after the calls of its own endpoint, rejects a poll |
| RateLimiter.RefillFormsAgree | middleware_rate_limiter.go:108-119 | the refill in seconds and scaled tokens, truncated, is the integer refill, for all tokens and times, also when the clock goes back |
| RateLimiter.TokenBucket.constructor | middleware_rate_limiter.go:94-96 | a bucket starts with the given tokens, stamped now, with empty statistics |
| RateLimiter.DefaultRateLimiter.constructor | middleware_rate_limiter.go:286-305 | a limiter of any rate and period starts with no buckets |
| RateLimiter.DefaultRateLimiter.GetOrCreateBucket | middleware_rate_limiter.go:91-105 | an existing bucket is returned untouched; a missing one is created with maxRate million micro-tokens, stamped now, with one request counted in advance |
| RateLimiter.DefaultRateLimiter.RefillBucket | middleware_rate_limiter.go:108-119 | the bucket gets the integer refill and the new stamp |
| RateLimiter.DefaultRateLimiter.Spend | middleware_rate_limiter.go:64-87 | a request passes exactly when a million micro-tokens are there, and then pays them |
| RateLimiter.DefaultRateLimiter.Allow | middleware_rate_limiter.go:56-88 | the table and the verdict are those of the specification; no other bucket changes |
| RateLimiter.DefaultRateLimiter.Reset | middleware_rate_limiter.go:230-236 | exactly the bucket of the key goes |
| RateLimiter.DefaultRateLimiter.Cleanup | middleware_rate_limiter.go:263-276 | exactly the buckets idle for more than two periods go |
| RateLimiterProofs.RefillBounds | middleware_rate_limiter.go:108-116 | a refill never lowers the tokens, never exceeds the capacity, and never gives more than the time brought |
| RateLimiterProofs.RunsAreGood | middleware_rate_limiter.go:56-119 | in every run every bucket holds between nothing and its capacity, and allows plus rejects is refills plus one |
| RateLimiterProofs.StaleRefillsFull | middleware_rate_limiter.go:268-269 | a bucket idle for more than two periods refills to what a new one starts with |
| RateLimiterProofs.EventKeepsSwept | middleware_rate_limiter.go:56-119 | a limiter that swept and one that did not give the same verdict and stay related |
| RateLimiterProofs.CleanupIsTransparent | middleware_rate_limiter.go:257-279 | in every run of requests, resets and cleanups, every verdict is that of a limiter that never cleans up |
| RateLimiterProofs.EventPaysForGrant | middleware_rate_limiter.go:56-119 | whatever happens, what a key could spend falls by the price of what it was granted |
| RateLimiterProofs.RateBound | middleware_rate_limiter.go:56-119 | in any stretch of D nanoseconds without a reset of the key, at most floor(maxRate + maxRate * D / per) of its requests pass |
| RateLimiterProofs.BurstIsExact | middleware_rate_limiter.go:56-88 | of requests that come at once for a new key exactly the first maxRate pass, so the bound is reached |
| RateLimiterProofs.StatisticsRecordVerdicts | middleware_rate_limiter.go:64-118 | from when a key has no bucket until a reset or cleanup removes its bucket, its statistics count its verdicts: one more than it passed, what it was refused, and all it asked |
| RateLimiterProofs.WithoutRateNothingPasses | middleware_rate_limiter.go:56-119 | with no rate, or a negative one, no request passes, whatever the clock does |
| RateLimiterProofs.EventKeepsTracks | middleware_rate_limiter.go:56-119 | requests, resets and cleanups keep every stored bucket beside an ideal one that nothing truncates and nobody cleans up |
| RateLimiterProofs.RefillKeepsClose | middleware_rate_limiter.go:108-119 | one refill widens the gap to the ideal bucket by less than a millionth of a token |
| RateLimiterProofs.DriftIsBounded | middleware_rate_limiter.go:108-119 | in every run the stored tokens are at most those of the ideal bucket, and short of them by less than a millionth of a token per refill |
| RateLimiterProofs.RefusalMeansNearlyEmpty | middleware_rate_limiter.go:64-87 | a request for which the ideal bucket has no token is refused; a refusal means it holds less than one token plus a millionth of one per refill |
| RateLimiterProofs.SpacedRequestPasses | middleware_rate_limiter.go:56-119 | a request at least per / maxRate after the key's previous one passes, whatever came between |
| RateLimiterProofs.FirstRequestPasses | middleware_rate_limiter.go:91-105 | the first request for a key passes |
| Chain.Drain | r.go:123-129 | calling Next never un-enters a handler, and does nothing once the chain is aborted |
| Chain.Run | r.go:123-129 | a handler that runs after an abort enters nothing and cannot undo it |
| Chain.ContextImpl.Abort | context.go:223-226 | the chain is aborted with the index at the end |
| Chain.ContextImpl.ErrorResponse | context.go:241-246 | the answer is noted and the chain aborted, as a script that emits and aborts |
| Chain.ContextImpl.AbortWithError | context.go:228-239 | the error is set, the answer noted and the chain aborted, as a script that does the three |
| Chain.ContextImpl.Next | r.go:123-129 | the loop over the shared, re-entrantly moved index means taking handlers off the front of the rest of the chain; without a panic it ends with the index past the end |
| Chain.ContextImpl.EnterHandler | r.go:126 | one handler is entered and left, or unwound by its panic |
| Chain.ContextImpl.Perform | r.go:123-129 | a handler with nested Next, Abort, panics and recovery means what its script means |
| Chain.ContextImpl.ExecuteHandlerChain | router_wrap_handlers.go:18-21 | the whole chain, started at -1, means draining it from the first handler, and terminates |
| ChainSteps.LoopReaches | r.go:123-129 | the loop of Next, taken in small steps with an explicit stack, ends where the chain from there on means |
| ChainSteps.PlayReaches | r.go:123-129 | a handler, taken in small steps, ends as its script means; a panic takes the stack down to the nearest recover |
| ChainSteps.ChainEndsAsItMeans | r.go:123-129 | every chain terminates, with the entered handlers, marks and panic that its meaning says |
| ChainProofs.DrainEntersInOrder | r.go:123-129 | whatever panics and recovers, the handlers entered are consecutive: none skipped, none twice |
| ChainProofs.DrainIsBalanced | r.go:123-129 | handlers are left, or unwound, in the reverse of the order in which they were entered |
| ChainProofs.UnabortedChainIsComplete | r.go:123-129 | a chain that ends without panic or abort has entered every handler, also after recovered panics |
| ChainProofs.NothingBehindRefusal | context.go:223-239 | behind a handler that aborts before calling Next nothing is entered, whatever the handlers before it do |
| ChainProofs.DrainUnfolds | r.go:123-129 | without panics, the index machine's meaning is a plain recursion on the list of handlers |
| ChainProofs.QuietChainEntersPrefix | r.go:123-129 | without panics exactly the handlers up to the first that aborts before calling Next are entered, all if there is none |
| ChainProofs.RefusedRequestGoesNoFurther | middleware.go:134-146 | a request refused by the rate limit or an open breaker enters no later handler |
| ChainProofs.RecoveryContinuesTheChain | middleware.go:297-365 | recovering a panic does not stop the chain: the handler after the one that panicked is entered exactly when there is one and nobody aborted |
| ChainPanics.PanicSkipsTheRest | r.go:123-129 | a handler that panics is unwound, and nothing behind it is entered |
| ChainPanics.PanicPassesThrough | r.go:123-129 | a panic passes through every handler that does not recover it and comes out of the chain |
| ChainPanics.RecoveryRuns | middleware.go:297-365 | the nearest handler that recovers runs its recovery, with the chain as the panic left it, and then the rest of itself |
| ChainPanics.AnsweringRecovery | middleware.go:297-365 | a recovery that answers: its answers follow the panic, and none comes out |
| ChainErrors.OpenBreakerLeavesError | middleware_circuit_breaker.go:35-43 | an open breaker that is reached leaves an error on the context, whatever the handlers before it do, if none of them clears errors |
| ChainErrors.NoErrorIsLeft | context.go:241-250 | handlers that set no error, a refusing rate limit among them, leave none |
| Middleware.RateLimit | middleware.go:134-146 | on a live context, a refused request is answered 429 and aborted without entering anything, an allowed one runs the rest of the chain |
| Middleware.CircuitBreaker | middleware_circuit_breaker.go:21-92 | while the breaker is open and its timeout has not passed, a request is answered 503, leaves an error, is aborted and enters nothing; otherwise the rest of the chain runs, its panics recovered, and a panic, an error or an overrun is recorded as a failure |
| Middleware.InnerRejectionIsOuterFailure | middleware_circuit_breaker.go:68-98 | a request that an open breaker further in rejects is a failure to every breaker before it |
| Middleware.PanicIsFailure | middleware_circuit_breaker.go:68-98 | a request that panics behind a breaker is a failure to it |
| Middleware.RateLimitedRequestIsNoFailure | middleware_circuit_breaker.go:88-98 | behind a breaker, handlers that set no error, a refusing rate limit among them, make a failure only by a panic or by taking too long |
| Middleware.Recovery | middleware.go:297-365 | a panic from behind runs the recovery handler in the state the panic left; without one nothing is added |
| Routing.RouterImpl.Use | r.go:189-203 | the middleware is appended, in place or after moving, and nothing before it changes |
| Routing.RouterImpl.Group | r.go:171-186 | a group starts with the router's middleware in an array of its own |
| Routing.RouterImpl.BuildHandlerChain | router_wrap_handlers.go:10-15 | the chain is the middleware followed by the handler |
| Routing.RouterImpl.Serve | router_wrap_handlers.go:34-46 | a request means draining the router's middleware and its handler on a context of its own |
| Routing.GroupsAreIndependent | r.go:171-203 | in whatever order middleware is added to a router and to its group, none of it reaches the other |
| Routing.RefusalGuardsGroups | r.go:171-186 | a refusing middleware of a router keeps every request of its groups from their handlers |
| MessageBuffers.NothingLostNothingReordered | ws.go:201-246 | in every run, the accepted writes are the values read followed by what is still there |
| MessageBuffers.RefusedExactlyWhenFull | ws.go:205-232 | a write is refused exactly when the buffer is full by count of writes and reads, a read finds nothing exactly when it is empty |
| MessageBuffers.After | ws.go:201-246 | every operation is answered and the queue never exceeds the size |
| MessageBuffers.MessageBuffer.constructor | ws.go:190-199 | a buffer of any size, also zero, starts empty |
| MessageBuffers.MessageBuffer.Write | ws.go:201-224 | the circular array with wrap-around acts as the queue, and what joins it is a fresh copy |
| MessageBuffers.MessageBuffer.Read | ws.go:226-246 | the circular array acts as the queue, and what was read is no longer part of it |
| MessageBuffers.Drive | ws.go:201-246 | every run of the object is a run of the queue, with every slice overwritten by the caller right after use |
| ConnectionSteps.ActionKeepsInv | ws.go:155-181 | no step of any thread breaks the lock, the count, the run-once guard or the accounting of drops |
| ConnectionSteps.EveryInterleavingIsSound | ws.go:155-313 | these invariants hold in every interleaving |
| ConnectionSteps.CounterMatchesTable | ws.go:279-313 | with the lock free the counter is the number of stored connections; they never exceed the limit |
| ConnectionSteps.ClosedAtMostOnce | ws.go:155-181 | however many threads close, the handler is notified, the channel closed and the counter lowered at most once |
| ConnectionSteps.DroppedExactlyWhenGone | ws.go:302-313 | with the lock free the counter dropped for exactly the connections that were in the table and are no more |
| ConnectionSteps.ReturnedCloseIsFinal | ws.go:155-181 | once any close has returned the connection is out of the table for ever, notified once, with its channel closed once, and in the closed state |
| ConnectionSteps.NeverActiveAgain | ws.go:157-173 | a connection that left the active state never returns to it |
| ConnectionSteps.QuiescentClosesAreComplete | ws.go:155-181 | with no call in flight, every close that was begun has been completed |
| ConnectionSteps.NeverDeadlocked | ws.go:155-313 | while any call is in flight some thread can take a step |
| ConnectionCalls.AddAlone | ws.go:279-300 | uninterrupted, a registration stores and counts its connection if there is room, and otherwise leaves table and counter alone |
| ConnectionCalls.RemoveAlone | ws.go:302-313 | uninterrupted, a removal takes out and off the counter what is in the table, and nothing else |
| ConnectionCalls.FirstCloseAlone | ws.go:155-181 | uninterrupted, a first close notifies, closes the channel, settles the connection as closed and removes it |
| ConnectionCalls.LaterCloseAlone | ws.go:155-181 | a later close returns without doing anything |
| ConnectionCalls.Waits | ws.go:157-304 | a call waits for the lock, and a close for the one that is running |
| ConnectionCalls.PeerCloseOnlySettles | ws_read_pump.go:60 | a close frame settles the connection as closed and changes nothing else |
| ConnectionCalls.RefusedExactlyWhenFull | ws.go:283-286 | in every interleaving, a registration that ended was refused if and only if the table was full when it looked |
| ConnectionManagers.WsConnection.Close | ws.go:155-181 | the first close shuts the connection and takes it out of the table; any later one changes nothing |
| ConnectionManagers.ConnectionManager.Add | ws.go:279-300 | a connection is stored and counted exactly when there is room; the counter stays the number of connections exactly if its id was not stored already |
| ConnectionManagers.ConnectionManager.Remove | ws.go:302-313 | the counter drops only if the connection was in the table |
| ConnectionManagers.ConnectionManager.Evict | ws_connection_cleanup.go:35-36 | a connection removed twice is taken off the counter once |
| ConnectionManagers.ConnectionManager.CleanupStaleConnections | ws_connection_cleanup.go:24-43 | exactly the connections whose last ping is more than ten minutes ago are closed and removed, no other is touched, and the counter drops by the number returned |
| MetricKeys.StrLeIsByteOrder | metrics.go:88 | the comparison used for sorting is byte order: a prefix comes first, otherwise the smaller byte where two keys first differ |
| MetricKeys.FormatKey | metrics.go:78-99 | for every order in which the tags are visited the result is the name with the tags in the byte order of their keys |
| MetricKeys.OrderIsUnique | metrics.go:84-88 | there is only one sorted order of a set of tag keys |
| MetricKeys.SortSorts | metrics.go:88 | sorting gives the same keys in byte order |
| MetricKeys.KeyIsCanonical | metrics.go:78-99 | a name and tags have one key |
| MetricKeys.KeyReadsBackExactlyWhenPlain | metrics.go:78-99 | a parser recovers name and tags if and only if name and values have no colon and tag keys no colon or equals sign |
| MetricKeys.PlainKeysDoNotCollide | metrics.go:78-99 | two such metrics never share a key |
| MetricKeys.ColonInValueCollides | metrics.go:92-97 | with a colon in a value, two different tag maps share a key |
| MetricCounters.CounterIsAdditions | metrics.go:33-38 | in every interleaving the counter of a key is the number of completed additions |
| MetricCounters.NoCountIsLost | metrics.go:33-38 | in every interleaving it is the number of increments begun less those in flight |
| MetricCounters.IncrementAlone | metrics.go:33-38 | uninterrupted, an increment ends, adds one to its key and leaves every other key alone |
| MetricCounters.CellIsFixed | metrics.go:36 | the cell of a key never changes once stored and no other key ever gets it |
| Numbers.TruncateDropsFraction | route_metrics.go:48 | conversion to an integer drops less than one, towards zero |
| RouteMetrics.Route.UpdateAverageLatency | route_metrics.go:44-49 | the average in floating form, truncated, is the integer form |
| RouteMetrics.Route.IncrementRouteCounters | route_metrics.go:31-41 | one call is counted, an error only if there was one, and the average updated |
| RouteMetrics.StaysInRange | route_metrics.go:44-49 | the average never leaves the range of the durations |
| RouteMetrics.UpdateApproaches | route_metrics.go:44-49 | one update moves towards the duration, never past it, and stands still exactly at rest |
| RouteMetrics.ComesToRest | route_metrics.go:44-49 | under a constant duration the average stops after finitely many updates, at the duration from above, otherwise at most nine below |

## Left out

- Integer width: 64-bit wrap-around of counters and times is not modelled, and floating-point rounding is taken as exact.
- GetQuota and the debug statistics of the limiter: they only read, and cleaning up is visible in them.
- The Redis limiter and the unused local limiter (middleware_rate_limiter.go:122-201): not reached from Allow.
- A clock that goes back: the operations and the refill cover it, the run theorems of the limiter assume it does not.
- A limiter whose period is zero or less: the refill divides by the period, so the operations and theorems assume it is positive.
- Counting of breaker metrics, logging and the monitor loop: they do not touch the breaker's cells.
- Overlapping requests on one endpoint: `Endpoints` takes whole requests, `BreakerSteps` has the interleavings of the breaker's own calls.
- Context pool and Timeout middleware: a context is returned to the pool twice and Timeout runs Next in a racing goroutine; contexts here are used by one request.
- Response bodies, headers and the text of errors: an answer is one note in the trace, and an error is set or not.
- Handlers that do not terminate, and handlers that keep a context after the request.
- OnClose handlers that close their own connection or panic: the run-once guard then waits for itself or counts as done without removal.
- Message pumps, rate limiting of writes, pings and buffer notification channels: delivery is not modelled, staleness is given by the last-ping stamp, which never changes after creation.
- wrapHandlers: a route with several handlers is served by one chain per handler, each as in `Serve`; how the routing library runs them in turn is not part of this model.
- Timings and gauges of the metrics collector: stored like counters, with the last value instead of a sum.
