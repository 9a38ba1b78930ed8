# Portkeeper: a verified model

Portkeeper runs MCP servers on Kubernetes. A controller turns each `MCPServer` resource into a Deployment and a
Service and reports readiness; a gateway polls those resources, authenticates callers by ServiceAccount token,
limits each caller with a token bucket, checks the server's allowlist, and forwards the request; a benchmark client
drives both paths. This project models those parts in Dafny and proves what they guarantee over every history of
calls, every interleaving and every schedule. `dafny verify dfyconfig.toml` checks all of it.

## How it is laid out

| file | what it models |
|---|---|
| `RateLimit.dfy`, `Evictions.dfy`, `AgentLimiter.dfy` | the token-bucket limiter: as a function of a table with its theorems over call histories, what evictions do to the rate bound when timestamps are out of order, and as a class over a map of heap buckets |
| `Api.dfy`, `Workload.dfy`, `Controller.dfy`, `Reconciler.dfy` | the resources, the in-place mutation of the children, Reconcile cut at its API calls, and Reconcile as it runs |
| `Auth.dfy`, `Registry.dfy`, `Routing.dfy`, `Metrics.dfy`, `Router.dfy` | the gateway's parts, and ServeHTTP over them |
| `Cluster.dfy`, `ControllerSafety.dfy`, `GatewaySafety.dfy` | everything as one transition system, and what holds in every reachable state of every run |
| `Availability.dfy` | what can still happen from every reachable state: readiness, a token, a forwarded request |
| `Percentiles.dfy`, `Progress.dfy`, `Plan.dfy`, `Benchmark.dfy` | the benchmark engine |
| `Text.dfy`, `Sets.dfy` | splitting, joining and printing strings; sizes of sets |

## What the transition system assumes

- A List answers with the store as it was at one instant between the call and the answer.
- A Get by the reconciler may answer with any past version, for each object on its own.
- A write is refused unless the version sent is the one stored; every write makes a new version. A write may also take
  effect with its answer lost, or fail for any other reason.
- An edit of an MCPServer's spec makes a new generation; only the reconciler writes an MCPServer's status.
- Anyone may create, change, re-own, mark for deletion or delete any Deployment or Service at any time.
- Any number of passes, for any MCPServers, run at once; so do any number of requests. There is one registry poll at
  a time, as in the program.
- A run starts with both processes, before any stored MCPServer is ready.

Clock readings, TokenReview answers, the SDK's results, cancellation and scheduling are arbitrary. Time, tokens and
latencies are real numbers.

## Where the code's promise needs a condition

The limiter reads the clock before it takes its lock, so timestamps can reach the buckets out of order. While a bucket
stays in the table its rate bound holds all the same (`RateBoundAnyClock`). Across an eviction it does not:
`OutOfOrderEvictionBreaksBound` gives, at every capacity of two or more, calls that let one agent exceed the bound.
`BoundSafeIff` says exactly when it holds: no bucket may be opened again at a timestamp at which the one it replaces
would not be full. Under a clock that never goes back none ever is (`BoundedRefinesUnbounded`, `LimiterExact`).

The bound on metric series needs namespaces without a slash, which Kubernetes guarantees; `SlashesShareAKey` shows two
servers that would otherwise share one admission.

## Model

| member | source | states |
|---|---|---|
| RateLimit.LimiterExact | internal/gateway/ratelimit.go:53-86 | under a nondecreasing clock, a call that reaches a bucket is allowed if and only if no window of its agent's calls ending with it would exceed burst + rate * duration, across evictions and whatever other agents do |
| RateLimit.OwnRefillExact | internal/gateway/ratelimit.go:74-85 | the tokens after refill are the minimum over all earlier calls i of burst + rate * (now - now_i) - allowed since i, and burst; for timestamps in any order |
| RateLimit.ExactWhenFollowing | internal/gateway/ratelimit.go:74-85 | soundness and maximal permissiveness for timestamps in any order, for an agent whose bucket follows its own history |
| RateLimit.BoundedRefinesUnbounded | internal/gateway/ratelimit.go:57-72 | under a nondecreasing clock every call not turned away for capacity gets the answer and the bucket of a limiter that never evicts and looks at that agent's calls only |
| RateLimit.EvictionInvisibleIff | internal/gateway/ratelimit.go:57-72 | for any order of timestamps, the bounded limiter agrees with the never-evicting one throughout a history if and only if every reopened bucket would have been full at that call's timestamp |
| RateLimit.OpeningIsHarmlessIff | internal/gateway/ratelimit.go:62-71 | opening a full bucket in place of an old one gives the same answer and bucket exactly if the old one is full again |
| RateLimit.ExactAfterCleanOpenings | internal/gateway/ratelimit.go:53-86 | for timestamps in any order: if every bucket opened again so far would have been full, a call that reaches a bucket is allowed if and only if no window of its agent's calls would exceed burst + rate * duration |
| Evictions.BoundSafeIff | internal/gateway/ratelimit.go:49-86 | the exact condition for the bound across evictions: no call of a history puts its agent in a position to exceed the bound, then or later, if and only if every bucket opened again would have been full at that call's timestamp |
| Evictions.BoundSurvivesIff | internal/gateway/ratelimit.go:57-86 | the same for one call that reaches a bucket: whatever its agent does next and whenever, the bound holds, if and only if that call did not reopen a bucket too early |
| Evictions.EarlyOpeningGetsOver | internal/gateway/ratelimit.go:62-85 | a bucket reopened too early always lets its agent exceed the bound, by this call or by later calls of its own |
| Evictions.OutOfOrderEvictionBreaksBound | internal/gateway/ratelimit.go:49-86 | under every accepted configuration with room for two agents or more (the gateway has room for 10000) there are calls, one stamped out of order, that get an agent over the bound |
| RateLimit.RateBoundAnyClock | internal/gateway/ratelimit.go:49-85 | for any timestamps, a bucket that stays in the table lets at most burst + rate * (now_j - now_i) of the calls from i to an allowed j through |
| RateLimit.TableBounded | internal/gateway/ratelimit.go:59-71 | the table never holds more than maxAgents buckets |
| RateLimit.CapacityDenialExact | internal/gateway/ratelimit.go:57-69 | a call is turned away for capacity exactly if its agent has no bucket and the table is full of buckets used within the idle time or not yet replenished; it then changes nothing |
| RateLimit.OthersKept | internal/gateway/ratelimit.go:57-72 | another agent's bucket is never changed, and is dropped only if it is idle and replenished while a new agent finds the table full |
| AgentLimiting.AgentLimiter.EvictIdle | internal/gateway/ratelimit.go:60-65 | the sweep over the map in any order leaves the same table |
| AgentLimiting.AgentLimiter.AllowAt | internal/gateway/ratelimit.go:53-86 | the answer and the whole new table are those of one step of the history model; buckets stay unshared |
| AgentLimiting.AgentLimiter.constructor | internal/gateway/ratelimit.go:37-45 | an empty table, capacity 10000, idle time 15 minutes |
| Workload.DesiredIsProjection | internal/controller/mcpserver_controller.go:118-153 | the Deployment mutation is idempotent, changes nothing exactly if the Deployment already runs the wanted image, port, probe, label, selector and replica count, and leaves other containers, labels, probe fields and the rest alone |
| Workload.DeploymentDraft.Mutate | internal/controller/mcpserver_controller.go:119-153 | the in-place mutation computes that projection, refuses a foreign or deleting object untouched, sets the controller reference, and reports changed exactly if the object did not already run what is wanted |
| Workload.DesiredServiceIdempotent | internal/controller/mcpserver_controller.go:164-178 | applying the Service mutation twice is applying it once |
| Workload.DesiredServiceIsProjection | internal/controller/mcpserver_controller.go:157-178 | the Service mutation makes the Service select the wanted label and send one TCP port to the same port of the pods, changes nothing exactly if it already does, and keeps the first port's other fields and the rest of the spec |
| Workload.WantedConnects | internal/controller/mcpserver_controller.go:111-178 | children that are as wanted fit together: the Service selects what the Deployment selects and labels its pods with, and its one port leads to the port that the mcp-server container opens and is probed on |
| Workload.OwnershipExact | internal/controller/mcpserver_controller.go:180-195 | an existing child may be touched if and only if its controller is the MCPServer of this API with this name and UID, and it is not being deleted |
| Workload.ReadinessExact | internal/controller/mcpserver_controller.go:88-108 | every outcome and exactly when it is reported: waiting for the Deployment controller, failed with the reason and message of the first failed condition, ready, waiting for replicas |
| Workload.ReadyIffRolledOut | internal/controller/mcpserver_controller.go:88-108 | Ready is reported exactly for an unchanged, observed Deployment without a failed rollout whose desired replicas are all updated, ready and available |
| Workload.FailedIffRolloutFailed | internal/controller/mcpserver_controller.go:89-101 | Failed is reported exactly for an unchanged, observed Deployment one of whose conditions reports a failed rollout |
| Controller.SetConditionFrame | internal/controller/mcpserver_controller.go:73-76 | other conditions keep value and place; the set one reads back, and its transition time moves exactly when its status does |
| Controller.StatusReportsOutcome | internal/controller/mcpserver_controller.go:69-79 | a written status carries phase, condition, reason, message and generation of the outcome, and makes the MCPServer ready exactly if the outcome says so and it is not being deleted |
| Controller.PassReportsTruth | internal/controller/mcpserver_controller.go:37-67 | an undisturbed pass leaves the MCPServer ready if and only if its own Deployment already ran what it wants and had rolled out and nobody else holds its Service |
| Controller.PassReportsExactly | internal/controller/mcpserver_controller.go:37-108 | what an undisturbed pass writes into phase, Ready condition and reason, case by case for every store: deletion, a child it may not touch, a Deployment it changed, and the rollout otherwise |
| Controller.ThirdPassWritesNothing | internal/controller/mcpserver_controller.go:37-86 | from every store the third pass with no other actor writes nothing |
| Controller.PassesConverge | internal/controller/mcpserver_controller.go:37-86 | all later passes, at any times, leave the store of the second |
| Controller.PassBuildsChildren | internal/controller/mcpserver_controller.go:110-178 | one pass for an MCPServer that is not being deleted leaves both children existing, its own and as it wants them, if and only if each was absent or its own and not being deleted; the Service then reaches the container of the wanted image at the wanted port |
| Controller.PassesBuildAndReport | internal/controller/mcpserver_controller.go:37-108 | from such children, all passes after the first keep what it built, and from the second on the stored status is ready if and only if the Deployment has rolled out |
| Reconciling.ApiServer.Reconcile | internal/controller/mcpserver_controller.go:37-67 | the imperative pass, with in-place mutation, produces the store of the stepwise model |
| Cluster.VersionPinsObject | internal/controller/mcpserver_controller.go:80 | over every run, an object read once and the object stored now under the same version are equal, for all three kinds |
| Cluster.GenerationPinsSpec | internal/controller/mcpserver_controller.go:72 | over every run, a generation of an MCPServer names one spec and never goes back |
| Cluster.UnansweredIsReported | internal/controller/mcpserver_controller.go:54-64 | a write that was refused, or whose answer was lost, makes the pass report the failure and nothing else; a refused one changes nothing |
| Api.ReadyExact | api/v1alpha1/readiness.go:11-17 | ready means not being deleted, with a status and a first Ready condition that are both of the current generation, and the condition true |
| ControllerSafety.OwnershipSafety | internal/controller/mcpserver_controller.go:119-195 | in every interleaving, each Deployment or Service write of a pass creates an absent object or replaces one controlled by the MCPServer it read and not being deleted; what it leaves runs or routes what is wanted and keeps everything else |
| ControllerSafety.ReadyNeverLies | internal/controller/mcpserver_controller.go:37-155 | in every state of every run, an MCPServer that IsReady has had its own Deployment running the current spec's image and port, observed and rolled out |
| Auth.Authenticate | internal/gateway/auth.go:49-87 | a principal is returned exactly for an authenticated, error-free review of the audience with a UID and a valid ServiceAccount name, and is that name |
| Auth.ValidExactlyForAccounts | internal/gateway/auth.go:82-87 | the accepted usernames are exactly system:serviceaccount:namespace:name with a DNS label and a DNS subdomain, and each names its account |
| Auth.AllowsExactlyTheNamedAccount | internal/gateway/registry.go:35-42 | for every valid username the string comparison decides exactly whether the account it names is listed, for arbitrary entries |
| Routing.ParseInvertsJoin | internal/gateway/router.go:131-145 | parsing inverts joining two or three nonempty slash-free components, whatever slashes surround them; legacy exactly for two |
| Routing.ParseExact | internal/gateway/router.go:131-145 | a path parses if and only if its trimmed form is such a join, and rejoining the result gives it back |
| GatewayRegistry.Registry.Refresh | internal/gateway/registry.go:104-141 | a failed list changes nothing; a successful one publishes exactly the listed servers, each with its name, readiness, allowlist and address, stamped with the time read before the list; the address is that of the Service the controller builds for it, or of the override, at its port |
| GatewayRegistry.AddressesDiffer | internal/gateway/registry.go:123 | without an override, servers with different names, namespaces or ports have different addresses, if namespaces have no dots |
| GatewayRegistry.ListOfStore | internal/gateway/registry.go:121-135 | a list that names every server, in any order, is the store |
| GatewayRegistry.Registry.Lookup | internal/gateway/registry.go:153-178 | whatever the map order: exact match in a namespace; by name alone not found, found or ambiguous for 0, 1 or more matches |
| GatewaySafety.AuthorizationIsFresh | internal/gateway/router.go:61-96 | in every run, a forwarded request's account was in the allowlist of the ready server its route led to (the unique one on a legacy route), at the routed address, at one instant of the 15 seconds before the check; and that server's Deployment had by then rolled out that spec |
| GatewaySafety.RevocationBites | internal/gateway/router.go:83-91 | a revocation never undone admits nothing checked more than 15 seconds later |
| GatewaySafety.FailedPollsFailClosed | internal/gateway/registry.go:104-112 | if no poll succeeds from some instant on, nothing passes the checks more than 15 seconds later |
| GatewaySafety.RefreshSeen | internal/gateway/registry.go:105-140 | the published snapshot is always the store at an instant no earlier than its stamp |
| GatewaySafety.TokensAreSpentOnce | internal/gateway/router.go:66-96 | every forwarded request holds an allowed limiter call of its own agent that no other request holds |
| GatewaySafety.ForwardedWithinRate | internal/gateway/router.go:66-96 | the requests an agent gets through on limiter calls i..j are at most burst + rate * (now_j - now_i), while its bucket stays |
| Routers.Router.ServeHTTP | internal/gateway/router.go:26-129 | a request is forwarded if and only if it is authenticated, its path parses, the limiter allows it, its route resolves, the backend's policy is at most 15 seconds old, lists the account and is ready; 400, 401, 403, 404, 409, 429 and 503 are each answered exactly when the check they stand for is the first to fail; one observation and at most one rate-limit label are recorded, with exactly these labels; and the limiter's new table |
| Routers.StagesDecide | internal/gateway/router.go:41-96 | the stages of an interleaved request, each at its own instant, come to the answer that the same checks give |
| Routers.CapturedExact | internal/gateway/router.go:149-159 | the recorded status is the last code written that is at least 200, and 200 if there is none (so a 101 answer is recorded as 200) |
| Routers.StatusCapturingWriter.WriteHeader | internal/gateway/router.go:154-159 | the recorded status after one more code is that of the codes so far |
| Availability.UndisturbedPass | internal/controller/mcpserver_controller.go:37-67 | from every reachable state, the interleaved steps of one pass, taken without a disturbance, do exactly what the sequential pass does |
| Availability.CanBecomeReady | internal/controller/mcpserver_controller.go:69-178 | from every reachable state, whatever passes are under way, an MCPServer that is not being deleted can become ready by the controller's own writes: other actors only remove a child it may not touch and report the status of the Deployment that a pass left |
| Availability.LetInAfterWaiting | internal/gateway/ratelimit.go:53-86 | with a positive rate, a burst of at least one and a capacity, an agent that is refused is let in once it has waited long enough, from every table, provided that no other agent calls in between (a table kept full of buckets in use refuses a new agent for ever) |
| Availability.GrantedCanBeForwarded | internal/gateway/router.go:26-129 | the other direction of the authorization theorem, with the same restriction on other actors: from every reachable state a listed account's request for a server that is not being deleted can be forwarded to that server |
| Metrics.BoundedLabels.TryAdmit | internal/gateway/metrics.go:57-68 | admission is one step of the history model |
| Metrics.DecisionIsPermanent | internal/gateway/metrics.go:57-68 | a value is admitted at every call or none, exactly if fewer than limit distinct values came before its first |
| Metrics.OwnNameIff | internal/gateway/metrics.go:70-75 | a server is recorded under its own name exactly if fewer than 256 others were named before it first was |
| Metrics.AgentLabelExact | internal/gateway/metrics.go:84-89 | a limited agent is counted under its own name exactly if fewer than 128 others were limited before it first was |
| Metrics.RecordedExact | internal/gateway/metrics.go:70-107 | whatever the interleaving, the series are exactly those of the requests that ended: under the labels of where each got to, its code by number, family or other, and whether it was completed |
| Metrics.SeriesBounded | internal/gateway/metrics.go:70-107 | however admissions and recordings of concurrent requests interleave, the request counter never has more than 259 * 2 * 21 * 2 series |
| Metrics.AgentLabelsBounded | internal/gateway/metrics.go:84-89 | the rate-limit counter never has more than 129 labels |
| Metrics.SlashesShareAKey | internal/gateway/metrics.go:71 | with slashes in namespaces two servers would share one admission |
| Percentiles.PercentileExact | internal/democlient/benchmark.go:468-476 | a value is the percentile if and only if it is a sample, at least the rank's number of samples are at most it, and fewer are below it |
| Percentiles.SummaryExact | internal/democlient/benchmark.go:468-476 | a summary is the given one if and only if it has the number of samples and, for 50, 95 and 99 in these fields, a sample v with 100 * (samples at most v) >= percent * n and 100 * (samples below v) < percent * n; all zeros if there are none |
| Percentiles.PercentilesOrdered | internal/democlient/benchmark.go:474-475 | P50, P95 and P99 are in order |
| Percentiles.SummaryOfPermutation | internal/democlient/benchmark.go:468-476 | the summary does not depend on the order of the samples |
| Progress.TokensDistinct | internal/democlient/benchmark.go:380 | tokens differ over phase, worker and call |
| Progress.NeverSentTwice | internal/democlient/benchmark.go:374-381 | a worker that warms up and is then measured never sends a token twice |
| Progress.ProgressIsolated | internal/democlient/benchmark.go:243-253 | under any notifications a call counts exactly those bearing its own token while it is active, and takes the time of the first; a read call counts none |
| Progress.ForeignNotCounted | internal/democlient/benchmark.go:246-248 | a notification for any other call leaves the worker as it is |
| Progress.BenchmarkWorker.Call | internal/democlient/benchmark.go:374-431 | the sample and the worker after a call are those of the event model; the sample keeps the SDK's error, and has none exactly if the result is good and, for a streaming call, came with three updates, the first neither early nor within 25ms of the end |
| Progress.CallIsSound | internal/democlient/benchmark.go:374-431 | read samples count no progress; a streaming sample without an error had exactly three updates of its own, the first no later than 25ms before the end |
| Plan.Normalize | internal/democlient/benchmark.go:100-145 | accepts exactly the valid configurations, with the documented defaults filled in |
| Plan.DefaultsFilledIn | internal/democlient/benchmark.go:110-124 | what is left out gets its documented value and nothing else changes |
| Plan.PhasesAt | internal/democlient/benchmark.go:160-168 | the place of every phase in the plan: by concurrency as configured, read before streaming, repetition by repetition, direct first in the odd ones and gateway in the even |
| Plan.TotalIsPlanned | internal/democlient/benchmark.go:132-143 | the bounded total is the number of calls the planned phases make |
| Plan.PhasesOnce | internal/democlient/benchmark.go:160-181 | with distinct concurrencies each (concurrency, tool, repetition, target) is planned exactly once |
| Benchmarking.ParallelCalls | internal/democlient/benchmark.go:338-347 | for every schedule and cancellation point each worker's slot is a gap-free prefix of its calls, complete if never cancelled |
| Benchmarking.Aggregate | internal/democlient/benchmark.go:478-501 | attempts are successes plus errors, each category has the number of its samples, and each summary is over exactly the samples it names: all, the successful ones, the successful ones that made progress |
| Benchmarking.BenchmarkPhase | internal/democlient/benchmark.go:270-372 | the samples are the slots worker by worker in the order of their calls, none after a failed setup; never more attempts than planned, and as many exactly if no worker stopped early |
| Benchmarking.OneComparisonPerGroup | internal/democlient/benchmark.go:503-529 | a full report has exactly one comparison per (concurrency, tool, repetition), in order |
| Benchmarking.RowsCompare | internal/democlient/benchmark.go:513-526 | every comparison is of a direct and a gateway measurement of its group: the differences of all percentiles, gateway minus direct, and the P50 difference in percent of the direct P50, 0 if that is not positive |
| Benchmarking.Overhead | internal/democlient/benchmark.go:503-529 | the nested loops compute the rows that RowsCompare and OneComparisonPerGroup are about |
| Benchmarking.Benchmark | internal/democlient/benchmark.go:150-193 | for every configuration: no report if it is not valid; otherwise, with the defaults filled in and without a cancellation, every planned phase is measured, and the report is successful exactly if every measurement is clean; a successful one holds the comparisons |

## Left out

- HTTP proxying, full-duplex control, header rewriting and streaming: a request that passes the checks is forwarded, and the codes the upstream answers with and its completion are inputs.
- Availability.GrantedCanBeForwarded: that it can happen, not that it will; fairness of scheduling is not modelled.
- Streams already open when a policy changes: the program does not check them again, so the claims stop at the check.
- Kubernetes clients, caches and TokenReview: the versioned store with the assumptions above, and arbitrary answers.
- Validation and defaulting by the API server (for example the immutable Deployment selector): writes are judged by version and existence only.
- The parsing of the Authorization header and the count of review slots: whether there is one bearer token, and whether a slot was free, are inputs.
- RateLimit.Refill: floating-point rounding of tokens, and the saturation of time differences, are not modelled.
- Percentiles.Rank: the rank is the exact ceiling, where the program rounds p * n to a float first.
- Benchmarking.Measurement: wall time and the two rates derived from it are not modelled; category counts are a multiset.
- benchmarkError: which category an SDK error falls into is arbitrary.
- Registry start, environment parsing, the main packages, the demo client, the runbook server and deployment files.
