# Verification of the load balancer's admission and routing core

A Dafny 4.11 model of how this load balancer decides who may send a request and where it goes, with proofs of what
those decisions guarantee over whole runs. `dafny verify dfyconfig.toml` checks all of it.

What the program updates in place is modelled by classes whose methods follow the Go code statement by statement; each
method is proved against a function on values, and the theorems are about those functions, over all runs, all
interleavings and all inputs.

| files | part of the system |
|---|---|
| `Options.dfy`, `GoInts.dfy` | values that may be missing; 32- and 64-bit counters that wrap, conversion to a signed int, truncating division and remainder |
| `Breaker.dfy`, `BreakerRuns.dfy`, `BreakerRecovery.dfy`, `BreakerObservers.dfy`, `BreakerScenarios.dfy` | the circuit breaker; runs of overlapping requests; recovery and the probe rate; calls of `State()`; runs from a new breaker that reach its corners |
| `Limiter.dfy`, `LimiterRuns.dfy` | the token-bucket limiter; its window bound, optimality and isolation of keys |
| `Rotation.dfy`, `Balancer.dfy`, `PeerTurns.dfy` | cyclic scans and their fairness; the plain round robin; the unweighted rotation of the pool and the wrap of its counter |
| `Backends.dfy`, `PoolIndex.dfy`, `Pool.dfy` | a backend with its averages and score; the derived lists; the server pool and the choice of a peer |
| `Redis.dfy`, `SharedStore.dfy` | the session and scaling records; several instances on one store |
| `Policies.dfy` | the traffic policy engine |
| `Handlers.dfy` | interleaved request handlers, active counts and breaker tokens |

Conventions. Time is an integer number of nanoseconds (a real number of seconds in the limiter and the averages), read
once per locked section and passed in. It does not decrease in breaker runs, nor while candidates are scored, which
reads the clock twice for each of them; in the limiter and in scaling it is arbitrary. A locked section is one atomic
step; that includes `State()`, which moves the breaker under a read lock (loadbalancer/circuitbreaker.go:259-263), and
the sticky lookup, which reads the backends without a lock (serverpool.go:406). A call of `GetNextPeer` is also taken as
one step, though it draws its ticket and moves the counter in two (serverpool.go:181, 197). Floating point is modelled by reals.

The breaker's counters wrap at 2^32 and its generation at 2^64. Nothing is assumed about the number of requests: the
accounting says what the counters are up to the wrap, and that they are exact outside the closed state and in every
generation of fewer than 2^32 requests. Only results that tell tokens of different generations apart stop where the
generation has used up its 64 bits; the probe rate and the transparency of `State()` do not. The ticket counter wraps at
2^64, and past 2^63 the code may index its list with a negative number; the methods that take tickets ask for exactly
the tickets with which it does not, which `PoolIndex.StartSlotExact` describes.

## Where the code differs from its comments

The model follows the code.

- A half-open breaker is said to count successful requests (loadbalancer/circuitbreaker.go:248), but counts every
  request that is not among the consecutive failures. It closes on the first success once all probes are admitted,
  even if the others are still in flight (`BreakerRecovery.ClosingExact`; a run that does so is in
  `BreakerScenarios.OneSuccessCloses`). The count is right exactly when nothing is in flight and no success comes after
  a failure (`BreakerRuns.SuccessesExact`).
- The interval is said to clear the statistics of the closed state periodically (loadbalancer/circuitbreaker.go:53),
  but a new breaker has no deadline: a closed window ends exactly if there is an interval and it is not the first one
  (`BreakerRuns.RollsExact`, `BreakerRuns.FirstWindowNeverRolls`).
- `State()` is a getter, but a call that comes upon a closed window that is over restarts it, and callers can tell
  (`BreakerObservers.RollingIsSeen`). It goes unnoticed exactly otherwise (`BreakerObservers.ObservationExact`). Such
  windows come about after the first recovery (`BreakerScenarios.RollingReached`).
- Policies are said to be ordered with higher priorities first (loadbalancer/trafficpolicies.go:81); the comparison
  puts the smallest number first (`Policies.SmallestNumberWins`), so that a policy of priority 1 lets a request through
  that one of priority 9 denies (`Policies.LargerNumberPassedOver`). The promise is kept exactly when all policies that
  would decide have one priority (`Policies.PromisedOrderExact`). Policies of equal priority keep their order exactly
  under the condition of `Policies.StableExact`.
- A policy that merely allows a request sends it to the first known backend named by any of its rules. The request
  gets what its own rule asks for exactly under the condition of `Policies.AllowExact`, and with the configured
  geographic policy it does not (`Policies.AllowTakesAnotherRulesBackend`). A denied request gets a
  peer unless no living backend has a positive weight (`Pool.ServerPool.SelectBackendWithPolicy`,
  `Pool.DenialIsServed`).
- The function the handler gives the breaker never returns an error (main.go:180-184), so only panics are counted as
  failures: the breaker of a backend opens exactly on the panic that completes a run of them (`Handlers.OpensExact`).
- The unweighted rotation is fair exactly in those turns in which its counter does not wrap or the wrap does not show
  (`PeerTurns.EachPeerOnce`; `PeerTurns.WrapServesTwice` is a turn in which it does).

## Model

| member | source | states |
|---|---|---|
| Breaker.CircuitBreaker.constructor | loadbalancer/circuitbreaker.go:82-97 | a new breaker is closed, in generation 0, with no counts and no deadline |
| Breaker.CircuitBreaker.ToNewGeneration | loadbalancer/circuitbreaker.go:229-246 | the next generation: counts cleared, deadline by the state entered, none after a half-open entry or without an interval |
| Breaker.CircuitBreaker.SetState | loadbalancer/circuitbreaker.go:213-226 | moving to another state starts a generation; moving to the same one changes nothing |
| Breaker.CircuitBreaker.CurrentState | loadbalancer/circuitbreaker.go:198-210 | the lazy transitions, taken strictly after the deadline, and the state and token they leave |
| Breaker.CircuitBreaker.BeforeRequest | loadbalancer/circuitbreaker.go:126-145 | admits in the closed state, and in the half-open state while fewer than `maxRequests` were admitted; counts what it admits and hands out the generation |
| Breaker.CircuitBreaker.OnSuccess | loadbalancer/circuitbreaker.go:166-179 | the counters after a success, and the closing test |
| Breaker.CircuitBreaker.OnFailure | loadbalancer/circuitbreaker.go:182-195 | the counters after a failure, and the trip |
| Breaker.CircuitBreaker.AfterRequest | loadbalancer/circuitbreaker.go:148-163 | a settlement counts only if its token is the current generation |
| Breaker.CircuitBreaker.GetState | loadbalancer/circuitbreaker.go:259-265 | reports the state after taking the lazy transitions |
| Breaker.CircuitBreaker.Execute | loadbalancer/circuitbreaker.go:106-123 | a rejected request leaves no token; an admitted one settles its token once, a panic as a failure |
| BreakerRuns.StartInv | loadbalancer/circuitbreaker.go:82-97 | the accounting invariant holds of a new breaker |
| BreakerRuns.ExecutedIsRun | loadbalancer/circuitbreaker.go:106-123 | a request given to `Execute` is an admission and one settlement of its token, a success only if it returns without an error, or a mere rejection |
| BreakerRuns.CurrentInv | loadbalancer/circuitbreaker.go:198-210 | lazy transitions keep the invariant, and nobody holds a token of the generation they begin |
| BreakerRuns.BeginInv | loadbalancer/circuitbreaker.go:126-145 | admissions and rejections keep the invariant |
| BreakerRuns.SettleInv | loadbalancer/circuitbreaker.go:148-195 | settlements keep the invariant, whether current or stale |
| BreakerRuns.StepInv | loadbalancer/circuitbreaker.go:126-195 | every step of every interleaving keeps the invariant and begins at most one generation |
| BreakerRuns.RunInv | loadbalancer/circuitbreaker.go:126-265 | so does every run in which the generation cannot reach 2^64 |
| BreakerRuns.Accounting | loadbalancer/circuitbreaker.go:126-195 | over every run with generations below 2^64, the counters are the true numbers modulo 2^32; outside the closed state, and in any generation of fewer than 2^32 requests, requests = successes + failures + tokens of the generation still out, and `Successes()` never underflows |
| BreakerRuns.SuccessesExact | loadbalancer/circuitbreaker.go:248-251 | `Successes()` is the number of successes if and only if no token of the generation is out and no success comes after a failure in its log |
| BreakerRuns.OpenCountsNothing | loadbalancer/circuitbreaker.go:148-163 | in the open state nobody holds a current token, so `onSuccess` and `onFailure` are never reached there |
| BreakerRuns.TailIsSuffix | loadbalancer/circuitbreaker.go:166-185 | the consecutive counters are the lengths of the runs of equal outcomes at the end of the generation's log |
| BreakerRuns.TripExact | loadbalancer/circuitbreaker.go:148-195 | a closed breaker opens exactly when a settlement inside its window makes the last k outcomes of its generation failures, stale ones left out |
| BreakerRuns.ClosedRunsStayBelow | loadbalancer/circuitbreaker.go:182-195 | over every run with generations below 2^64, whatever the number of requests, the log of a closed breaker's generation never ends in k failures |
| BreakerRuns.TailStep | loadbalancer/circuitbreaker.go:166-195 | a step adds at most its own failure to the run of failures of a closed breaker, and opens it only if that makes k |
| BreakerRuns.RollsExact | loadbalancer/circuitbreaker.go:198-203 | a closed window ends at some later instant if and only if there is an interval and the generation is not the first |
| BreakerRuns.FirstWindowNeverRolls | loadbalancer/circuitbreaker.go:83-90 | until it first opens, a new breaker stays in one generation whatever the interval |
| BreakerRuns.ConfiguredThresholds | main.go:427-430 | backends trip on five failures in a row, the default breaker on six |
| BreakerRecovery.HalfOpenNeverStuck | loadbalancer/circuitbreaker.go:137-144 | a half-open breaker admits a probe or waits for one it admitted |
| BreakerRecovery.HalfOpenProgress | loadbalancer/circuitbreaker.go:137-195 | while it stays half-open, each admission and each current settlement lowers 2 * (maxRequests - requests) + tokens out, and nothing else changes the breaker |
| BreakerRecovery.ClosingExact | loadbalancer/circuitbreaker.go:174-177 | it closes exactly on a current success that finds `maxRequests` requests made |
| BreakerRecovery.ClosingSuccesses | loadbalancer/circuitbreaker.go:248-251 | the successes that close it are `maxRequests` if and only if the last of them is the last request of the generation in flight, and fewer otherwise |
| BreakerRecovery.SequentialProbes | loadbalancer/circuitbreaker.go:137-179 | probes that do not overlap close it after exactly as many successes as it has places left, whatever became of its other probes |
| BreakerRecovery.NoProbesNoRecovery | loadbalancer/circuitbreaker.go:137-140 | with `maxRequests` zero it never changes again |
| BreakerRecovery.Recovery | loadbalancer/circuitbreaker.go:137-179 | otherwise some continuation closes it, no longer than the measure |
| BreakerRecovery.RecoveryExact | loadbalancer/circuitbreaker.go:137-179 | a half-open breaker can close again if and only if `maxRequests` is positive |
| BreakerRecovery.OpeningTrips | loadbalancer/circuitbreaker.go:182-195 | only a failed settlement opens the breaker, and the timeout runs from that moment |
| BreakerRecovery.AdmissionBound | loadbalancer/circuitbreaker.go:126-145 | away from the closed state, at most `maxRequests` admissions per half-open episode |
| BreakerRecovery.EpisodeTime | loadbalancer/circuitbreaker.go:204-207 | k half-open episodes take more than k timeouts |
| BreakerRecovery.ProbeRate | loadbalancer/circuitbreaker.go:126-246 | after a trip and until the breaker closes: at most `maxRequests` * k admissions, k * timeout below the time passed, and none up to and including trip time + timeout |
| BreakerRecovery.ProbeRateLaw | loadbalancer/circuitbreaker.go:126-246 | the same as a rate: admissions * timeout < maxRequests * time passed |
| BreakerObservers.SameStep | loadbalancer/circuitbreaker.go:126-163 | breakers equal up to an overdue half-open transition give the same answers and stay so |
| BreakerObservers.Transparency | loadbalancer/circuitbreaker.go:198-265 | removing the `State()` calls from a run changes no decision, token or count, unless one of them rolls a closed window |
| BreakerObservers.TransparentWithoutInterval | loadbalancer/circuitbreaker.go:235-237 | with interval zero they are invisible in every run |
| BreakerObservers.ObservationExact | loadbalancer/circuitbreaker.go:198-210 | one observation goes unnoticed at all later instants if and only if it does not roll a closed window |
| BreakerObservers.RollingIsSeen | loadbalancer/circuitbreaker.go:200-203 | one that does changes the token of a later request |
| BreakerScenarios.FailuresTrip | loadbalancer/circuitbreaker.go:182-195 | the failures missing to the threshold, inside one window, open a closed breaker |
| BreakerScenarios.SuccessesClose | loadbalancer/circuitbreaker.go:166-179 | the successes missing to `maxRequests` close a half-open one |
| BreakerScenarios.ReturnsKeepClosed | loadbalancer/circuitbreaker.go:106-123 | any number of requests that return leave a closed breaker closed, whenever they come |
| BreakerScenarios.JobStep | loadbalancer/circuitbreaker.go:106-195 | inside the window a return counts one success and ends the row of failures, an error or a panic makes the row longer |
| BreakerScenarios.FailuresInARow | loadbalancer/circuitbreaker.go:106-195 | of requests that err or panic in a row inside the window, the one that makes it k opens the breaker, and none before it |
| BreakerScenarios.RollingReached | loadbalancer/circuitbreaker.go:198-203 | for every configuration that trips and recovers and has an interval, a run from a new breaker to a closed window that an observation rolls, one instant after it is due and not before |
| BreakerScenarios.OneSuccessCloses | loadbalancer/circuitbreaker.go:174-177 | a run from a new breaker in which one success counts as `maxRequests` of them and closes it, with all other probes in flight |
| BreakerScenarios.BackendScenarios | main.go:422-434 | both with the breaker of every backend: five failures, thirty seconds, then three successes, or one with two probes out |
| Limiter.TokenBucket.Ask | loadbalancer/ratelimiter.go:42-61 | warm-up, refill, cap and the whole-token test on one bucket; what that amounts to in tokens is `LimiterRuns.BurstExact` |
| Limiter.RateLimiter.constructor | loadbalancer/ratelimiter.go:25-32 | no buckets; a warm-up of three times the capacity, for settings of any sign |
| Limiter.RateLimiter.Allow | loadbalancer/ratelimiter.go:34-62 | the bucket of the key, made full if it is new, is asked; no other bucket changes, and no two keys share one |
| LimiterRuns.AskedOnce | loadbalancer/ratelimiter.go:48-61 | after warm-up one call keeps tokens within [0, capacity], never moves `last` back, and pays for an admission |
| LimiterRuns.RunBound | loadbalancer/ratelimiter.go:48-61 | a run admits at most what was in the bucket and what flowed in, less what is left |
| LimiterRuns.WindowBound | loadbalancer/ratelimiter.go:34-62 | a run of calls, in whatever order their instants arrive, admits at most capacity + refillRate * (last at the end - last after the first call) |
| LimiterRuns.Warmup | loadbalancer/ratelimiter.go:42-47 | the first calls of a bucket are admitted up to the allowance exactly, without using tokens |
| LimiterRuns.BurstExact | loadbalancer/ratelimiter.go:48-61 | after warm-up, n calls at one instant are admitted as long as there are whole tokens, of those left by the last call and those that flowed in since, up to the capacity: neither more nor fewer |
| LimiterRuns.LeftAlone | loadbalancer/ratelimiter.go:48-61 | a bucket left alone for d seconds admits n calls if n is at most the capacity and its tokens + d * refillRate |
| LimiterRuns.NewKeyBurst | loadbalancer/ratelimiter.go:25-61 | a burst on a new key is admitted up to exactly four times the capacity |
| LimiterRuns.FirstCallsFree | loadbalancer/ratelimiter.go:30-47 | the first 3 * capacity calls of a key are all admitted |
| LimiterRuns.LifetimeBound | loadbalancer/ratelimiter.go:25-62 | admissions since creation, however few or many: the free calls of the allowance and the window bound |
| LimiterRuns.AheadStep | loadbalancer/ratelimiter.go:48-61 | the limiter's lead over any other choice stays non-negative and covers its shortage of tokens |
| LimiterRuns.GreedyOptimal | loadbalancer/ratelimiter.go:48-61 | after any number of calls, no choice that never overdraws a bucket with the same tokens, rate and capacity has admitted more |
| LimiterRuns.KeyIsolation | loadbalancer/ratelimiter.go:34-62 | in any interleaving of keys, one key's decisions are those of a single bucket on its own calls |
| LimiterRuns.KeyBound | loadbalancer/ratelimiter.go:34-62 | from an empty limiter and in any interleaving of keys, each key is admitted at most its free calls and the window bound |
| Rotation.NoneExact | serverpool.go:214-221 | a cyclic scan finds nothing if and only if nothing is up |
| Rotation.TurnIsFair | serverpool.go:205-222 | any full turn of consecutive tickets serves each living backend at least once per slot, exactly so if all live, never a dead one, and every ticket unless all are dead |
| Rotation.FoundAt | loadbalancer/balancer.go:36-50 | a scan finds the next of the slots that are up, in their order |
| Rotation.ScansGoRound | loadbalancer/balancer.go:36-50 | successive scans read the slots that are up cyclically |
| Balancer.LoadBalancer.GetNextServer | loadbalancer/balancer.go:36-50 | ends by cyclic distance; returns the first healthy server at or after the index and moves the index behind it, or nothing and leaves it |
| Balancer.NoServerExact | loadbalancer/balancer.go:45-48 | nothing is returned if and only if no server is healthy |
| Balancer.EachHealthyServerOnce | loadbalancer/balancer.go:36-50 | as many calls as healthy slots return each of them exactly once, in cyclic order |
| Backends.Backend.RecordMetrics | serverpool.go:63-82 | one step of both running averages |
| Backends.SampleMoves | serverpool.go:63-82 | a sample moves the latency a fifth of the way to it, and the success a tenth of the way to one or zero, starting from the first latency and from one |
| Backends.Settling | serverpool.go:63-82 | n samples alike leave 0.8^n of the latency's distance from them, and 0.9^n of the success average's from one or zero |
| Backends.AveragesInRange | serverpool.go:63-82 | after any samples the latency average lies within their range and the success average in (0, 1] |
| Backends.Backend.Score | serverpool.go:108-140 | the top score for an open breaker, else the product of the factors, as of the first look at the breaker; the second look, at any later instant, agrees with it, and neither changes what later looks find |
| Backends.ScoreOrder | serverpool.go:108-140 | the score is the top one exactly for open breakers, rises with the connections, and is lower for a closed than for a half-open breaker |
| Backends.ScoreValue | serverpool.go:126-139 | latency per weight, times one over the success average, times one more than the connections, doubled for a half-open breaker |
| Backends.HeavierScoresLower | serverpool.go:126 | all else equal, of two weights the larger scores lower |
| Backends.SuccessScoresLower | serverpool.go:127 | of two success averages the larger scores lower |
| Backends.SlowerScoresHigher | serverpool.go:126 | of two latencies the larger scores higher |
| Backends.ScoreFloors | serverpool.go:120-126 | no samples count as a latency and a success average of 0.1, less success than that as 0.1, less weight than one as one |
| Backends.Backend.GetCircuitBreakerState | serverpool.go:94-101 | a missing breaker counts as closed |
| Backends.Backend.ExecuteRequest | serverpool.go:85-91 | a missing breaker rejects nothing |
| Backends.Backend.Serve | main.go:170-195 | the active count is back where it was on every way out, the breaker has executed a request that returns no error whatever the status, and the metrics were recorded unless it panicked |
| PoolIndex.FiledIndexes | serverpool.go:164-169 | filing a backend keeps the index equal to a scan, with or without the empty region |
| PoolIndex.SlotsAreWeight | serverpool.go:161-163 | a backend that was added once has exactly its weight in slots |
| PoolIndex.ExpandedMembers | serverpool.go:161-163 | the weighted list holds exactly the backends of positive weight |
| PoolIndex.UnservedExact | serverpool.go:205-222 | weighted routing finds nobody if and only if no living backend has a positive weight, an empty list included |
| PoolIndex.UnservedByTotalWeight | serverpool.go:451-461 | with non-negative weights, if and only if the total weight is zero |
| PoolIndex.TotalWeightIsSlots | serverpool.go:451-461 | with non-negative weights, the total weight is the number of slots that are up |
| PoolIndex.CandidatesExact | serverpool.go:499-519 | the candidates are exactly the living backends of a named region that has any, else exactly the living ones, in the order of the pool |
| Pool.WeightedTurn | serverpool.go:205-222 | any full turn of tickets below 2^63 gives each living backend its weight, or more if others are dead, a dead one nothing, and leaves no ticket unserved unless all must be |
| PoolIndex.StartSlotExact | serverpool.go:213 | the computed start is a place in the list if and only if the ticket is below 2^63 or the length divides what it lacks to 2^64 |
| PoolIndex.NegativeStart | serverpool.go:213 | with three slots, ticket 2^63 asks for place -2 |
| PeerTurns.NextCallExact | serverpool.go:174-182 | the next call starts behind the slot the counter stands for if and only if the counter does not wrap or the number of backends divides 2^64 |
| PeerTurns.PeerCallsAreScans | serverpool.go:184-203 | unless a wrap shows, each call goes on behind the slot found before, whether the counter was left or moved |
| PeerTurns.WrapServesTwice | serverpool.go:174-203 | with three backends, a turn across the wrap serves the first twice and the last not at all |
| PeerTurns.EachPeerOnce | serverpool.go:184-203 | with any backends dead: in a turn of as many calls as living backends each of them is served once if and only if the counter does not wrap in the turn or the scans from the first slot and from the slot that was due find the same; and then in cyclic order |
| PeerTurns.AllAliveTurn | serverpool.go:184-203 | with all alive that is, if and only if the turn ends before 2^64 or the number of backends divides 2^64 |
| Pool.ServerPool.AddBackend | serverpool.go:158-172 | appends the backend and keeps the weighted list and the index in agreement with the list |
| Pool.ServerPool.Rebuild | serverpool.go:264-316 | new living backends with new breakers, one for each service and in their order, and both derived lists in agreement |
| Pool.HolderExact | serverpool.go:205-222 | a ticket of any size with which the code does not fail finds nobody if and only if no living backend has a positive weight; below 2^63 it goes to the first living slot at or after its place |
| Pool.HolderByTotalWeight | serverpool.go:205-222 | with non-negative weights, if and only if the total weight is zero |
| Pool.ServerPool.GetNextPeerWeighted | serverpool.go:205-222 | takes one ticket and returns the first living slot at or after its start; nil exactly when no living backend has a positive weight, and with non-negative weights exactly when `GetTotalWeight` is zero |
| Pool.ServerPool.NextIndex | serverpool.go:174-182 | advances the counter and reduces it to a place |
| Pool.ServerPool.GetNextPeer | serverpool.go:184-203 | the first living backend at or after the next place, and the counter it leaves, which is one call of the turns in `PeerTurns` |
| Pool.ServerPool.GetTotalWeight | serverpool.go:451-461 | the sum of the weights of the living backends |
| Pool.ServerPool.GetHealthyByRegion | serverpool.go:499-519 | through the index, exactly the living backends of a named region that has any, else exactly the living ones, in the order of the pool |
| Pool.LeaderIsFirstBest | serverpool.go:487-496 | the scan keeps the first minimal score, and nothing if all scores are the top one |
| Pool.RegionalChoice | serverpool.go:487-496 | the regional choice is the first minimal candidate, each scored when the scan comes to it, and nobody if and only if every candidate's breaker is open at that moment |
| Pool.ServerPool.SelectionExact | serverpool.go:479-497 | with a named region and somebody alive, the first minimal score among the living of the region, or among all living if it has none, and nobody exactly when all their breakers are open; else the next ticket's holder |
| Pool.ServerPool.SelectBackend | serverpool.go:479-497 | makes that selection; with a living backend in a named region, whoever is chosen is of that region |
| Pool.ServerPool.FindAlive | serverpool.go:406-410 | the first living backend of a URL, or nobody if there is none |
| Pool.ServerPool.GetBackendForStickySession | serverpool.go:397-448 | answers from the store, from its own memory or by selection, leaves the store and its memory as `SharedStore` says, and draws a ticket only if it comes to select by weight |
| Pool.MapExact | serverpool.go:346-356 | the engine's table has the URLs of the pool, each for the last backend that has it |
| Pool.MapDistinct | serverpool.go:346-356 | no two names of the table stand for one backend |
| Pool.ServerPool.CreateBackendMap | serverpool.go:346-356 | of several backends with one URL the last is kept |
| Pool.ServerPool.EnableTrafficPolicies | serverpool.go:335-343 | a new engine with that table and the given policies added in turn |
| Pool.ServerPool.SelectBackendWithPolicy | serverpool.go:364-387 | the backend the engine rules for, else weighted routing, without an engine and after a denial too: a denied request gets nobody if and only if no living backend has a positive weight |
| Pool.DenialIsServed | serverpool.go:371-375 | a request that the only policy denies, and the living backend it gets |
| Pool.ServerPool.NextHolder | main.go:158-161 | when a lookup finds nobody, the ticket drawn after it is for whom the next one was |
| Pool.ServerPool.ChoosePeer | main.go:137-161 | which peer the chain ends with: without a session the engine's choice, else the weighted one, else the region's, after a denial too; with a session where the lookup sends it, else the weighted one. Nobody if and only if no living backend has a positive weight and the other links have nobody |
| Redis.KeysApart | loadbalancer/redis.go:115-117 | under one prefix session keys are injective and differ from the scaling key |
| Redis.StickySessionManager.GetSession | loadbalancer/redis.go:46-68 | returns the record and stamps its last access |
| Redis.StickySessionManager.UpdateSession | loadbalancer/redis.go:105-112 | overwrites the record of the session |
| Redis.StickySessionManager.SetSession | loadbalancer/redis.go:71-86 | stores a new record for the session |
| Redis.StickySessionManager.DeleteSession | loadbalancer/redis.go:89-92 | removes the record of the session |
| Redis.AutoScalingStateManager.GetAutoScalingState | loadbalancer/redis.go:146-170 | the stored record, or three replicas and two minutes of cooldown |
| Redis.AutoScalingStateManager.SetAutoScalingState | loadbalancer/redis.go:173-180 | stores the record |
| Redis.AutoScalingStateManager.UpdateRequestCount | loadbalancer/redis.go:183-191 | changes nothing of the record but the request count |
| Redis.AutoScalingStateManager.ShouldScale | loadbalancer/redis.go:194-229 | when it scales up, when down, never both, and the record it leaves |
| Redis.DecisionsExact | loadbalancer/redis.go:204-220 | up exactly above the threshold, down exactly from a positive load with 2 * load + 2 at most the threshold and two replicas, both only more than a cooldown after the last of the kind |
| Redis.NeverBothWays | loadbalancer/redis.go:204-220 | no load is too high and too low for one threshold of any sign |
| SharedStore.TargetIsStored | serverpool.go:397-448 | whatever backend a lookup returns, the store then holds its URL for the session |
| SharedStore.OthersDoNotDisturb | loadbalancer/redis.go:46-117 | other sessions and the scaling state leave a session's record alone |
| SharedStore.Sticky | serverpool.go:397-448 | once the store has a URL for a session, every lookup on any instance goes there as long as each finds a living backend under it |
| SharedStore.StickyFromFirstAnswer | serverpool.go:397-448 | from the first answer of any instance on |
| SharedStore.LookupCases | serverpool.go:397-448 | where a lookup goes and what it writes: store, own memory, selection, in this order |
| SharedStore.MemorySticks | serverpool.go:416-430 | a session whose record is deleted, any number of times, stays where it was as long as the instances that look it up remember a living backend there |
| SharedStore.ScalingStep | loadbalancer/redis.go:194-229 | one event's whole effect on the scaling record |
| SharedStore.ReplicasConserved | loadbalancer/redis.go:194-229 | replicas = initial + ups - downs, and at least one is left |
| SharedStore.CooldownHolds | loadbalancer/redis.go:204-218 | n >= 2 scale-ups span more than n - 1 cooldowns, and so do scale-downs |
| Policies.CarriedSorted | loadbalancer/trafficpolicies.go:82-88 | the pass over a sorted list and a newcomer leaves a sorted list |
| Policies.CarriedPermutes | loadbalancer/trafficpolicies.go:82-88 | the pass keeps every policy as it is, the newcomer included |
| Policies.StableExact | loadbalancer/trafficpolicies.go:82-88 | it is a stable insertion if and only if no two different policies above the newcomer share a priority |
| Policies.TrafficPolicyEngine.AddPolicy | loadbalancer/trafficpolicies.go:72-91 | the nested swap loop after the append computes that pass, and the list stays sorted |
| Policies.TrafficPolicyEngine.EnablePolicy | loadbalancer/trafficpolicies.go:94-107 | switches the first policy of the name and says whether there is one |
| Policies.ListRefinement | loadbalancer/trafficpolicies.go:72-107 | any additions and switches leave the added policies, up to flags and update stamps, each as often as it was added and in ascending priority |
| Policies.TrafficPolicyEngine.EvaluatePolicy | loadbalancer/trafficpolicies.go:147-269 | the first matching rule's action, by the type of the policy |
| Policies.TrafficPolicyEngine.SelectBackendByPolicy | loadbalancer/trafficpolicies.go:272-283 | the first known backend any rule names |
| Policies.RulingExact | loadbalancer/trafficpolicies.go:110-144 | the ruling on a request is the decision of the first enabled policy that decides, and nothing if none does |
| Policies.RuleDecides | loadbalancer/trafficpolicies.go:119-140 | for every header, geo or path policy, by the index of the first rule the request matches: a redirect chooses the backend it names, if known, and else decides nothing; a denial denies; an allowance allows; other actions decide nothing |
| Policies.NoMatchDecidesNothing | loadbalancer/trafficpolicies.go:163-251 | without a matching rule nothing is decided |
| Policies.KindDecides | loadbalancer/trafficpolicies.go:147-161 | default policies allow, unknown ones decide nothing, canary policies decide on hashes below their percentage modulo a hundred |
| Policies.CanaryShare | loadbalancer/trafficpolicies.go:254-269 | of every block of a hundred hashes a canary policy takes as many as its percentage says |
| Policies.RedirectFollowed | loadbalancer/trafficpolicies.go:126-131 | if the first enabled policy that decides redirects to a known backend, the request goes there |
| Policies.TrafficPolicyEngine.EvaluateRequest | loadbalancer/trafficpolicies.go:110-144 | returns the ruling; redirects to unknown backends fall through |
| Policies.SmallestNumberWins | loadbalancer/trafficpolicies.go:81-88 | of all enabled policies that would decide, one with the smallest priority number does |
| Policies.PromisedOrderExact | loadbalancer/trafficpolicies.go:81-88 | no policy of a larger number is passed over if and only if all that would decide have the same number |
| Policies.LargerNumberPassedOver | loadbalancer/trafficpolicies.go:81-88 | a request that the policy of priority 9 denies is let through by the one of priority 1, although it was added first |
| Policies.AllowExact | loadbalancer/trafficpolicies.go:133-138 | for every header, geo or path policy, with a table like that of `Pool.MapDistinct`: a request that rule m allows gets what m asks for if and only if the first rule naming a known backend names the same one as m, or none does |
| Policies.AllowTakesAnotherRulesBackend | main.go:477-500 | with the configured geographic policy, an allowed us-east request goes to the backend meant for asia |
| Policies.AsiaIsRedirected | main.go:477-500 | and a request from asia is redirected to it |
| Handlers.StepConserved | main.go:170-184 | every step of every handler keeps counts and tokens in agreement with the handlers present |
| Handlers.HolderIsExpected | loadbalancer/circuitbreaker.go:106-123 | every token that is brought back is one its breaker still waits for |
| Handlers.NewWorldConserved | main.go:422-434 | new backends without requests satisfy all of this |
| Handlers.Conservation | main.go:170-184 | over all interleavings and panics of any length, a backend's active count is the number of handlers between increment and decrement, is never negative, and bounds its tokens out over all generations |
| Handlers.BreakersAccount | loadbalancer/circuitbreaker.go:126-195 | and every breaker's accounting holds, with generations below 2^64 |
| Handlers.Quiescence | main.go:170-175 | with all handlers gone, nothing is active and no token is out |
| Handlers.OpensExact | main.go:180-184 | a closed breaker of a backend opens in a step if and only if the step is a handler's panic, inside the window, that makes the last k outcomes of its generation failures |
| Handlers.OpeningTakesPanics | main.go:180-184 | over every run with generations below 2^64: a breaker found not closed any more has seen at least as many panics of its handlers as it was short of k, whatever statuses the backends answered |
| Handlers.OnlyPanicsTrip | main.go:180-184 | over every run at all: without a panic it stays closed |

## Left out

- HTTP serving, proxying, cookies, the dashboard, metrics endpoints, telemetry and logging; what a request comes to is an argument.
- The state-change callback of a breaker: it only logs in every configuration.
- A request that ends its goroutine by `runtime.Goexit`: its token would never settle, because the deferred function only acts on a panic.
- Health probing, tickers and background loops: liveness and health may change between any two calls.
- Mutexes and Go's memory model: locked sections are atomic, and an observation under a read lock is one of them.
- Interleaving inside one sticky lookup or one scaling decision, between its reading and its writing of the store.
- Errors and expiry of a real Redis, and JSON: the store is the in-memory one, and holds decoded values.
- Handlers: the choice of the peer is not a step of the interleaved handlers; any peer may be chosen.
- The failure of weighted routing past 2^63 tickets is not an outcome of the methods; they ask for tickets that do not fail.
- Pool.ServerPool.Rebuild: URL parsing is taken to succeed, and the sessions remembered by the pool are kept, as in the code, so nothing is claimed about a remembered backend still being in the pool.
- Pool.WeightedTurn: the pool and the liveness are fixed during the turn, and only weighted routing takes tickets.
- PoolIndex.UnservedByTotalWeight: negative weights, which can cancel in the sum.
- PeerTurns.EachPeerOnce: the pool and the liveness are fixed during the turn, and nothing else moves the counter.
- BreakerRuns.Accounting: generations past 2^64, where a token may be taken for a new one.
- LimiterRuns.WindowBound: negative capacity or refill rate.
- Matching of headers, paths, regions and regular expressions, and the hash of a request: given with the request.
- Floating-point rounding.
- The Consul client, mTLS, the mock servers, `autoscaler.go` and `metrics.go`.
