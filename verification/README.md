# Verified model of the service mesh

A Dafny 4.11 model of the parts of the two meshes that keep state or transform data: the Kubernetes sidecar's outbound
pipeline and discovery index, the pod-mutation webhook, the Docker sidecar's rate limiter, the Docker control plane's
registry and the health monitor of cdocker. `dafny verify dfyconfig.toml` checks everything.

## How it is organised

Code that changes state step by step is modelled by classes and loops whose contracts give the whole new state as a
function of the old one; what the mesh promises is then proved about those functions, over all runs, against
definitions that do not look at the state.

- `Middleware`, `Errors`, `Forwarder`, `Retry`, `Routing`, `Breaker`: the layers of one connection. `Pipeline` puts them
  together with the timeout in the order the service does, and `Outbound` ties its routing to the shared cache. `Failover`
  proves that a connection fails over to a live endpoint, `Transfer` that at most one attempt ever transfers anything,
  and `ClientStream` what of the client's stream arrives.
- `BreakerHistory` and `BreakerRequests`: the breaker's three critical sections as separate steps, any number of
  requests in flight. Admission is characterised by the history of recorded outcomes alone; `GuardedRequests` shows that
  this is what happens in the assembled chain.
- `Discovery`, `Relisting`, `ClusterIndex`: relist and the two-key cache, with Go's map walks in arbitrary order, and
  what a lookup means in terms of services and endpoint slices.
- `RateStore`, `RateLimiter`: the sorted buffer changed in place by binary search and overlapping copies, and the
  sliding-window limiter as a refinement of "count the admissions of the last window".
- `RateRequests`, `RateLedger`, `RateInvariant`, `RateVerdicts`, `RateCrowd`: the same limiter with any number of
  requests in flight, each call to the store a step of its own at its own clock reading, any of them failing; when that
  changes a verdict, and how far it can overrun the limit.
- `JsonPatch`, `Pods`, `Injector`, `InjectorProofs`, `Reinjection`, `Ports`: JSON documents, JSON Pointer (RFC 6901), the
  add and replace operations of JSON Patch (sections 4.1 and 4.3 of RFC 6902), the webhook's decision, and what its
  patch does to a document.
- `InjectedEnv`, `InjectedSettings`, `InjectedPods`, `SidecarConfig`: what the patched document tells the two containers
  injection adds, and the settings the sidecar reads from it.
- `HealthMonitor`, `RestartHistory`: probe reports and ticks over maps of shared objects, and when a tick restarts.
- `ControlPlane`, `RoundRobin`: the registry, and one theory of rotation for both round-robin implementations.
- `GoStrings`, `Sorting`, `Options`: the library functions used above.

Time is an integer, in the unit the code compares (nanoseconds, or seconds in the health monitor). The network, the
clock, the random generator and the Kubernetes API are parameters.

## Where the code does not keep a promise

Each of these is modelled as the code has it and proved with its exact condition.

- A breaker does not always recover. A half-open trial that fails after establishing records nothing, and the key is
  then blocked for good: `BreakerRequests.BlockedExactlyWhenAbandoned`, with a concrete run in `AbandonedIsReachable`.
- `k8s/mesh/sidecar/docs/reliability.md:17` has retry react to failures of dialling, the TLS handshake and timeouts. Mesh
  traffic that starts like an HTTP request is the exception, since every failure there is of the proxy kind:
  `Forwarder.DialFailureClass`, and for the whole chain `Transfer.HTTPMakesOneCall`.
- `k8s/mesh/sidecar/docs/reliability.md:23` calls linear back-off a fixed interval; the code lets it grow:
  `Retry.LinearWaitsAreFixedIff`.
- `k8s/mesh/sidecar/docs/service-discovery.md:12` admits only endpoints with `Ready == true`; the code also admits those
  that leave it unset: `ClusterIndex.OnlyReadyIff`, with an example.
- Looking up an unknown service keeps the control plane's lock: `ControlPlane.StuckExactlyAfterMiss`.
- The limiter counts and adds in separate critical sections, and each reads a clock of its own. For every interleaving
  `RateVerdicts.TallyDiffersIff` says exactly when a verdict is not the one its request's window calls for. It can be
  wrong in either direction: `RateVerdicts.PassedTooManyExample`, `RateVerdicts.RefusedTooFewExample`. When requests are
  prompt only the first can happen: `RateVerdicts.PromptTallyDiffersIff`. What a window can then hold is bounded by
  `RateCrowd.CrowdBoundsOverrun`.
- An error of the retry loop is reported as a timeout once the deadline has passed, also when bytes had reached a target:
  `Transfer.EstablishErrorAfterTransferIff`, with an example.
- An attempt that looked at the client before its mTLS dial failed keeps what it read:
  `ClientStream.TargetGetsWholeStreamIff`, with an example. For a client that speaks first all hangs on the dial of the
  first endpoint tried: `ClientStream.SpeaksFirst`.
- The API server wants names unique across containers and init containers, and the webhook does not look across:
  `Reinjection.NamesStayApartIff`, with an example.
- A patch needs the document to have `metadata` and `spec` objects; the decoder also accepts documents without them:
  `InjectorProofs.PatchAppliesIff`.
- The webhook tells the sidecar its metrics port but not which ports are excluded from redirection, and the sidecar
  insists that the metrics port be among them: `InjectedSettings.SidecarStartsIff`, with an example.
- A pod without container ports is injected, but its init container does not run: `InjectedPods.InitRunsIff`.
- The sidecar's check that its ports are unique can be content with two listeners on one:
  `SidecarConfig.AcceptedPortsAreOwnIff`.
- Back-off is computed in 64 bits: `Retry.BackoffExact`.

## Main results

- Connections: `Failover.FailsOverToLiveEndpoint`, `Transfer.ForwarderFailsOver`, `Transfer.HTTPMakesOneCall`,
  `Transfer.AtMostOneAttemptReaches`, `Transfer.EstablishErrorAfterTransferIff`, `ClientStream.TargetGetsWholeStreamIff`,
  `ClientStream.SpeaksFirst`, `Retry.RetryContract`, `Middleware.ChainOfChains`, `Routing.RotationIsFair`.
- Breaker: `BreakerHistory.AdmissionMatchesHistory`, `BreakerRequests.InterleavingsAreRuns`,
  `BreakerRequests.BlockedExactlyWhenAbandoned`, `GuardedRequests.AttemptFollowsHistory`.
- Limiter: `RateLimiter.LimiterCountsLastWindow`, `RateLimiter.EveryWindowIsBounded`, `RateInvariant.RunKeeps`,
  `RateVerdicts.TallyDiffersIff`, `RateCrowd.CrowdBoundsOverrun`.
- Webhook: `InjectorProofs.PatchAppliesIff`, `Reinjection.InjectionIsIdempotent`, `Reinjection.InjectionConserves`,
  `InjectedPods.InjectedSidecarTold`, `InjectedPods.InjectedSidecarStartsIff`.
- Discovery: `ClusterIndex.AddressesShownIff`, `ClusterIndex.AnyWalkSameIndex`,
  `Discovery.OrderIrrelevantIff`.
- Restarts and registry: `RestartHistory.TickRestartsIff`, `ControlPlane.StuckExactlyAfterMiss`,
  `ControlPlane.RotatesLikeSidecar`, `ControlPlane.ListIsRegistrations`.

## Model

| member | source | states |
|---|---|---|
| `Failover.FailsOverToLiveEndpoint` | k8s/mesh/sidecar/internal/app/sidecar/service.go:71-103 | end to end, for every mesh and every shared-state interference that leaves this destination's cursor alone: with round robin, at least as many attempts as endpoints and no deadline hit, if one endpoint accepts and its breaker entry is closed while all others fail at worst to establish, the connection succeeds, after at most distance + 1 attempts of the rotation |
| `Failover.OneLiveEndpointSuffices` | k8s/mesh/sidecar/internal/app/sidecar/service.go:71-103 | instance of the failover theorem in which a single endpoint accepts and every other target refuses: the connection succeeds wherever the rotation stands |
| `Failover.EveryEndpointTried` | k8s/mesh/sidecar/internal/app/sidecar/middleware_retry.go:28-73 | a connection that used at least as many calls as there are endpoints made a call to each of them, and within the first n |
| `Failover.AttemptTargets` | k8s/mesh/sidecar/internal/app/sidecar/middleware_routing.go:63-113 | attempt i of a connection goes to endpoint (cursor + i) mod n of its destination |
| `Failover.AttemptDials` | k8s/mesh/sidecar/internal/app/sidecar/middleware_routing.go:74-91 | such an attempt is taken into the mesh if and only if there is an mTLS port; it is then for the host part of that endpoint's IP, a colon and the decimal mTLS port, with that endpoint's name to expect, and otherwise for the plain port without a name |
| `Failover.RotationVisitsDistinctTargets` | k8s/mesh/sidecar/internal/app/sidecar/middleware_routing.go:74-89 | endpoints with distinct IPs are distinct targets: two attempts fewer than n apart never hit the same target or breaker entry |
| `Transfer.ForwarderFailsOver` | k8s/mesh/sidecar/internal/adapters/proxy/forwarder.go:79-118 | the same over the forwarder itself, for traffic that does not start like HTTP: the one endpoint that can be dialled is reached, plain or over mTLS |
| `Transfer.HTTPMakesOneCall` | k8s/mesh/sidecar/internal/adapters/proxy/forwarder.go:75-77 | the other case, for the whole chain: over a mesh connection that starts like HTTP every call but the last was turned away by an open breaker, so one that is let through is the only one, whichever other endpoints are up |
| `Transfer.AtMostOneAttemptReaches` | k8s/mesh/sidecar/internal/app/sidecar/service.go:71-103 | through chain, timeout, retry, routing, breaker and forwarder: at most one attempt of a connection gets bytes to a target |
| `Transfer.AttemptsReachOnce` | k8s/mesh/sidecar/internal/app/sidecar/middleware_retry.go:34-51 | below the timeout layer, moreover, an establish error means that no attempt got bytes to a target |
| `Transfer.EstablishErrorAfterTransferIff` | k8s/mesh/sidecar/internal/app/sidecar/middleware_timeout.go:19-34 | above it, the answer is an establish error after bytes reached a target if and only if the attempts had reached one and failed, and the deadline had passed by then |
| `Transfer.LateResetExample` | k8s/mesh/sidecar/internal/app/sidecar/middleware_timeout.go:19-34 | a concrete connection that transfers for six seconds under a timeout of five, is reset, and is reported as a timeout |
| `ClientStream.TargetGetsWholeStreamIff` | k8s/mesh/sidecar/internal/adapters/proxy/forwarder.go:69-79 | the target a connection reaches is offered all the client sent if and only if no earlier attempt had taken bytes off the connection on its way to an mTLS dial and the last one conveys all there is, which over HTTP takes that the requests sent make up the stream |
| `ClientStream.SpeaksFirst` | k8s/mesh/sidecar/internal/adapters/proxy/forwarder.go:69-100 | over mTLS with round robin, a client whose first words are heard and are no HTTP request, and a first endpoint whose breaker lets the attempt through: the target it reaches is offered all of them if and only if the endpoint tried first could be dialled |
| `ClientStream.PlainMeshLosesNothing` | k8s/mesh/sidecar/internal/adapters/proxy/forwarder.go:102-108 | without mTLS nothing is lost: the forwarder dials before it looks at the client |
| `ClientStream.LostBeginningExample` | k8s/mesh/sidecar/internal/adapters/proxy/forwarder.go:223-239 | a concrete client that speaks first and meets what ClientStream.SpeaksFirst asks for: the endpoint tried first is down, and the one reached is offered nothing of the six bytes sent |
| `Pipeline.ConnectIsRetriedAttempts` | k8s/mesh/sidecar/internal/app/sidecar/service.go:71-103 | running the assembled chain is the retry loop over whole attempts, each of which routes afresh and then passes the breaker, with its answer replaced by a timeout when it is an error past the deadline |
| `Pipeline.LateErrorIsTimeout` | k8s/mesh/sidecar/internal/app/sidecar/middleware_timeout.go:19-34 | an error of the attempts is reported with the label timeout exactly when it comes once the deadline has passed; every other answer is theirs |
| `Pipeline.GuardKeepsOtherEntries` | k8s/mesh/sidecar/internal/app/sidecar/middleware_breaker.go:44-66 | a guarded request for one target leaves the breaker entry of every other target as it was, unless the rest of the chain changes it |
| `Pipeline.UnroutedIsUnguarded` | k8s/mesh/sidecar/internal/app/sidecar/middleware_routing.go:48-72 | inbound traffic goes to the application and traffic to unknown destinations where it was headed; neither is balanced, guarded by the breaker nor taken into the mesh, and nothing but the metadata changes |
| `Pipeline.WithoutThreshold` | k8s/mesh/sidecar/internal/app/sidecar/service.go:93-100 | with a threshold of zero an attempt is routed and forwarded without a breaker |
| `Pipeline.RouteGoesToEndpoint` | k8s/mesh/sidecar/internal/app/sidecar/middleware_routing.go:63-113 | outbound traffic to a known service is for the first endpoint (none), the drawn one (random) or the one under the cursor, which moves on by one; the address, port, server name and breaker key written out |
| `GuardedRequests.GuardRecordsOutcome` | k8s/mesh/sidecar/internal/app/sidecar/middleware_breaker.go:44-66 | a guarded request is turned away, with everything left as it was, when its entry is open before the recovery time or has a trial in flight; otherwise the rest of the chain runs once, and its own entry is closed without failures after a success, one failure on, or open at the clock reading of the return, after an establish error, and as it was left after any other error |
| `GuardedRequests.GuardIsRequest` | k8s/mesh/sidecar/internal/app/sidecar/middleware_breaker.go:44-66 | the entries before and after the rest of the chain are those of the two steps of one request of the interleaving model, with the outcome read off the error and any steps of others in between |
| `GuardedRequests.AttemptFollowsHistory` | k8s/mesh/sidecar/internal/app/sidecar/middleware_breaker.go:44-97 | in the assembled chain an attempt goes on to the forwarder if and only if the recorded history allows it, and what it records extends that history |
| `Breaker.BreakerMiddleware.GetOrCreateEntry` | k8s/mesh/sidecar/internal/app/sidecar/middleware_breaker.go:151-161 | returns the entry of the key, creating a closed one on first use; no other entry is touched and no two keys share one |
| `Breaker.BreakerMiddleware.Allow` | k8s/mesh/sidecar/internal/app/sidecar/middleware_breaker.go:68-97 | the answer and the whole new table after an admission request, every other key unchanged |
| `Breaker.BreakerMiddleware.RecordSuccess` | k8s/mesh/sidecar/internal/app/sidecar/middleware_breaker.go:99-112 | the whole new table after a recorded success: the entry is closed with no failures |
| `Breaker.BreakerMiddleware.RecordFailure` | k8s/mesh/sidecar/internal/app/sidecar/middleware_breaker.go:114-149 | the whole new table after a recorded establish failure, with the uint32 counter wrapping around |
| `BreakerHistory.AdmissionMatchesHistory` | k8s/mesh/sidecar/internal/app/sidecar/middleware_breaker.go:68-97 | over every run of steps: a request is admitted if and only if the history allows it (fewer failures than the threshold since the last success, or recovery time passed since the last failure and no trial let through since) |
| `BreakerHistory.AlwaysExplained` | k8s/mesh/sidecar/internal/app/sidecar/middleware_breaker.go:68-149 | each field of every reachable entry in terms of the history: closed means failures = failures since the last success < threshold, open or half-open means failures = threshold and openedAt is the last failure's time, half-open exactly when a trial is in flight |
| `BreakerHistory.ClosedToAllUntilRecovery` | k8s/mesh/sidecar/internal/app/sidecar/middleware_breaker.go:73-77 | with a clock that never goes back, after a failure that leaves the entry open nobody passes before its time plus the recovery time unless a success was recorded in between |
| `BreakerHistory.OneTrialAtATime` | k8s/mesh/sidecar/internal/app/sidecar/middleware_breaker.go:86-94 | between two admissions of a key whose entry is not closed an outcome of that key is recorded |
| `BreakerHistory.TrialBlocksOthers` | k8s/mesh/sidecar/internal/app/sidecar/middleware_breaker.go:86-94 | after a trial was let through no other request is until an outcome of the key is recorded |
| `BreakerHistory.KeysAreIndependent` | k8s/mesh/sidecar/internal/app/sidecar/middleware_breaker.go:151-161 | an entry depends only on the steps of its own key |
| `BreakerRequests.InterleavingsAreRuns` | k8s/mesh/sidecar/internal/app/sidecar/middleware_breaker.go:44-66 | any number of requests in flight, finishing in any order, is one run of breaker steps, so the history theorems speak about it |
| `BreakerRequests.ReachableEntry` | k8s/mesh/sidecar/internal/app/sidecar/middleware_breaker.go:44-149 | in every reachable state of every interleaving an entry is half-open exactly when its trial flag is set, closed entries are below the threshold and all others at it |
| `BreakerRequests.BlockedExactlyWhenAbandoned` | k8s/mesh/sidecar/internal/app/sidecar/middleware_breaker.go:55-65 | recovery is not unconditional: a key is blocked for good if and only if its entry is half-open and none of its requests is still in flight |
| `BreakerRequests.AbandonedIsReachable` | k8s/mesh/sidecar/internal/app/sidecar/middleware_breaker.go:55-65 | a concrete run of four events that blocks any given key for good: a trial that ends in a failure past establishing records nothing |
| `Routing.RoutingMiddleware.SelectEndpoint` | k8s/mesh/sidecar/internal/app/sidecar/middleware_routing.go:94-113 | which endpoint is picked under each policy, and that exactly the cursor of this key moves, and only under round robin |
| `Outbound.Router.Handle` | k8s/mesh/sidecar/internal/app/sidecar/middleware_routing.go:48-92 | routing over the shared cache and the cursors it changes in place gives the context and the cursors that the theorems about connections speak of, inbound and unknown destinations included |
| `Routing.RotationPerKey` | k8s/mesh/sidecar/internal/app/sidecar/middleware_routing.go:105-112 | over any run of selections, those for one key with an unchanged list are the plain rotation, whatever happens on other keys |
| `Routing.RotationIsFair` | k8s/mesh/sidecar/internal/app/sidecar/middleware_routing.go:105-112 | over any run each endpoint of an unchanged list gets floor(k/n) or ceil(k/n) of the k selections |
| `Routing.PicksInRange` | k8s/mesh/sidecar/internal/app/sidecar/middleware_routing.go:105-112 | every pick is a position of the list it was made from, even when the list shrank since the last one |
| `RoundRobin.Fair` | k8s/mesh/sidecar/internal/app/sidecar/middleware_routing.go:108-110 | among any k picks in a row position p is chosen k div n times, and once more exactly if it is among the first k mod n after the cursor |
| `RoundRobin.VisitsAll` | k8s/mesh/sidecar/internal/app/sidecar/middleware_routing.go:108-110 | some pick among the first n is position p, and no earlier one is |
| `Retry.Handle` | k8s/mesh/sidecar/internal/app/sidecar/middleware_retry.go:28-73 | the retry loop returns the world and error of the specification of the layer |
| `Retry.RetryContract` | k8s/mesh/sidecar/internal/app/sidecar/middleware_retry.go:28-73 | at most max(1, attempts) calls are made; all but the last ended in establish errors and were followed by exactly the back-off of their number; the answer is the last call's, or a timeout if a wait was cut short |
| `Retry.OnlyLastCallTransfers` | k8s/mesh/sidecar/internal/app/sidecar/middleware_retry.go:34-51 | if establish errors move no bytes and waits move none, everything a connection transfers it transfers in its last call |
| `Retry.BackoffExact` | k8s/mesh/sidecar/internal/app/sidecar/middleware_retry.go:75-86 | a wait is the intended number if and only if that number fits a 64-bit duration |
| `Retry.TotalBackoffClosed` | k8s/mesh/sidecar/internal/app/sidecar/middleware_retry.go:75-86 | as long as the k-th wait fits, the first k waits add up to base*k(k+1)/2 (linear) or base*(2^k - 1) (exponential) |
| `Retry.OverflowExample` | k8s/mesh/sidecar/internal/app/sidecar/middleware_retry.go:81-81 | a concrete base interval whose second wait wraps around to a negative one |
| `Retry.FarWaits` | k8s/mesh/sidecar/internal/app/sidecar/middleware_retry.go:75-86 | from the 64th exponential wait on the power of two is what the platform converts it to; a number below 1 counts as 1 |
| `Retry.LinearExample` | k8s/mesh/sidecar/internal/app/sidecar/middleware_retry.go:80-82 | a concrete linear policy whose second wait is twice its first |
| `Retry.LinearWaitsAreFixedIff` | k8s/mesh/sidecar/internal/app/sidecar/middleware_retry.go:80-82 | linear back-off is a fixed interval, as documented, if and only if there is at most one retry |
| `Middleware.DispatchIsNest` | k8s/mesh/sidecar/internal/domain/middleware.go:17-29 | dispatch by index means nesting the handlers around next, for handlers that call next any number of times |
| `Middleware.ChainOfChains` | k8s/mesh/sidecar/internal/domain/middleware.go:13-29 | Chain(xs + ys) behaves as Chain(Chain(xs), Chain(ys)) |
| `Middleware.ChainOnlyCallsNext` | k8s/mesh/sidecar/internal/domain/middleware.go:13-19 | a chain is itself a handler that only calls next, so chains may be links of chains |
| `Middleware.Wrap` | docker/sidecar/pkg/middleware/middleware.go:7-13 | the backward loop builds the nesting with the first middleware outermost |
| `Middleware.WrapConcat` | docker/sidecar/pkg/middleware/middleware.go:7-13 | Wrap(h, []) = h, Wrap(h, [m]) = m(h), and Wrap(h, xs + ys) = Wrap(Wrap(h, ys), xs) |
| `Errors.WrapKeepsFirstKind` | k8s/mesh/sidecar/internal/domain/errors.go:35-49 | a chain keeps the first kind it was given; wrapping again changes nothing |
| `Errors.NormalizeDecidesEstablish` | k8s/mesh/sidecar/internal/domain/errors.go:60-88 | the reported label decides on its own whether an error is an establish error, and it is the text of the error's kind |
| `Errors.LabelOfKind` | k8s/mesh/sidecar/internal/domain/errors.go:71-88 | the label of each declared kind, and unknown for everything else |
| `Errors.ClassifyDialEstablishes` | k8s/mesh/sidecar/internal/domain/errors.go:90-109 | a dial failure is an establish error if and only if it carried no kind or already an establish kind |
| `Errors.ClassifyDialKind` | k8s/mesh/sidecar/internal/domain/errors.go:90-109 | a library error that fails a dial becomes a timeout if it is the deadline or a net.Error that timed out, else a TLS error exactly when its message holds the letters tls in either case, else a dial error |
| `Errors.FirstTagCounts` | k8s/mesh/sidecar/internal/domain/errors.go:41-58 | the kind of a chain of errors is that of its first tagged link, and there is none without one |
| `Errors.FirstNetErrorCounts` | k8s/mesh/sidecar/internal/domain/errors.go:99-102 | whether a chain is a timeout is what its first net.Error says |
| `Errors.AnyDeadlineCounts` | k8s/mesh/sidecar/internal/domain/errors.go:95-97 | a chain is a deadline if and only if one of its links is |
| `Forwarder.HandleHTTP` | k8s/mesh/sidecar/internal/adapters/proxy/forwarder.go:121-161 | the loop over the requests of a connection gives the error and send counts of the recursive meaning |
| `Forwarder.EstablishErrorsReachNothing` | k8s/mesh/sidecar/internal/adapters/proxy/forwarder.go:47-119 | an establish error means nothing reached the target; every failure after something did is of the proxy kind; every failure has a kind |
| `Forwarder.DialFailureClass` | k8s/mesh/sidecar/internal/adapters/proxy/forwarder.go:68-118 | when the target cannot be reached, by dialling or by round trips, the answer is an establish error except for mesh traffic that starts like HTTP with TLS configured; there it is a proxy error as soon as a request was read |
| `Forwarder.RefusedHTTPExample` | k8s/mesh/sidecar/internal/adapters/proxy/forwarder.go:143-146 | a concrete refused connection to a mesh target that ends in a proxy error and is not repeated |
| `Forwarder.ReplaysOnlySafeRequests` | k8s/mesh/sidecar/internal/adapters/proxy/forwarder.go:163-194 | every HTTP request is sent once, and a second time if and only if the first try failed, it is a GET, HEAD, OPTIONS or TRACE, and its body can be had again |
| `Forwarder.HTTPEndsAt` | k8s/mesh/sidecar/internal/adapters/proxy/forwarder.go:121-161 | an HTTP connection ends with the first request that cannot be read, meets trouble or is the last one: well in the last case or when the stream is over, and otherwise in a proxy error over the last round trip, the write or the close, in this order |
| `Forwarder.HTTPConveysRequests` | k8s/mesh/sidecar/internal/adapters/proxy/forwarder.go:121-161 | what an HTTP connection conveys of the client's stream is its beginning, up to the end of the last request that was sent |
| `Forwarder.BridgeReports` | k8s/mesh/sidecar/internal/adapters/proxy/forwarder.go:79-118 | off the HTTP path a connection ends well if and only if the target can be dialled and both directions end normally; the first of the two failures is reported |
| `Forwarder.NotDialled` | k8s/mesh/sidecar/internal/adapters/proxy/forwarder.go:47-74 | without a target nothing is dialled and the error is a proxy one; without certificates, or without a name to expect, it is a TLS one |
| `Discovery.DedupeEndpoints` | k8s/mesh/sidecar/internal/adapters/discovery/controller.go:210-227 | one endpoint for each address of the input, none invented, in no particular order |
| `Discovery.ServiceCache.Replace` | k8s/mesh/sidecar/internal/adapters/discovery/cache.go:47-67 | the new index is the entries under both their keys, later entries overwriting earlier ones, and nothing of the old index |
| `Discovery.LastClaimWins` | k8s/mesh/sidecar/internal/adapters/discovery/cache.go:50-57 | a key is in the index exactly when some entry claims it, and shows the endpoints of the last that does |
| `Discovery.OrderIrrelevantIff` | k8s/mesh/sidecar/internal/adapters/discovery/controller.go:188-198 | a key shows the same endpoints for every order of the entries if and only if all entries that claim it have the same endpoints |
| `Relisting.ListServicePorts` | k8s/mesh/sidecar/internal/adapters/discovery/controller.go:129-144 | the table of routable service ports: headless services skipped, the last service of a name overwriting |
| `Relisting.UsableEndpoints` | k8s/mesh/sidecar/internal/adapters/discovery/controller.go:172-184 | exactly the addresses of the endpoints of a slice that are not marked unready |
| `Relisting.CollectEndpoints` | k8s/mesh/sidecar/internal/adapters/discovery/controller.go:151-186 | for every listed service port exactly the addresses of not-unready endpoints in TCP slices of that service with that port |
| `Relisting.Controller.Relist` | k8s/mesh/sidecar/internal/adapters/discovery/controller.go:123-200 | on success the cache holds the index of one duplicate-free entry for each listed service port; if a list call fails the error has the discovery kind and the cache is as before |
| `ClusterIndex.NamedLookup` | k8s/mesh/sidecar/internal/adapters/discovery/controller.go:123-227 | looking up service:port shows exactly the backends of that service port, without duplicates |
| `ClusterIndex.AddressLookup` | k8s/mesh/sidecar/internal/adapters/discovery/controller.go:136-142 | looking up clusterIP:port shows the same endpoints as service:port, for services with names and cluster IPs of their own |
| `ClusterIndex.AddressesShownIff` | k8s/mesh/sidecar/internal/adapters/discovery/controller.go:123-204 | for a service whose cluster IP is neither empty nor None: the key name:port shows an address if and only if a slice of the service has that port, with protocol TCP or none, and an endpoint not reported unready that lists it, once each and under the port and full name of the service; so does the key made of the cluster IP |
| `ClusterIndex.EntryLabels` | k8s/mesh/sidecar/internal/adapters/discovery/controller.go:136-139 | every entry handed to the cache is labelled with the full name of the service whose key it has |
| `ClusterIndex.OnlyOfferedKeys` | k8s/mesh/sidecar/internal/adapters/discovery/controller.go:131-143 | the index has no other keys: nothing for headless services and unknown ports |
| `ClusterIndex.AnyWalkSameIndex` | k8s/mesh/sidecar/internal/adapters/discovery/controller.go:188-198 | two relists of the same cluster give the same keys with the same endpoints, whatever order Go walked its maps in |
| `ClusterIndex.LookupsHaveDistinctIPs` | k8s/mesh/sidecar/internal/adapters/discovery/controller.go:210-227 | the endpoints under a service port have distinct IPs, which is what the failover theorem about distinct targets assumes |
| `ClusterIndex.OnlyReadyIff` | k8s/mesh/sidecar/internal/adapters/discovery/controller.go:173-175 | the index holds only endpoints that report ready, as documented, if and only if every address listed with unset readiness is also reported ready |
| `ClusterIndex.UnsetReadinessExample` | k8s/mesh/sidecar/internal/adapters/discovery/controller.go:173-175 | a concrete slice whose endpoint never reported ready is in the index |
| `RateStore.CopyWithin` | docker/sidecar/pkg/middleware/ratelimiter/repository/memory.go:36-40 | Go's copy inside one buffer, overlapping or not: the n elements at src are afterwards at dst and nothing else changed |
| `RateStore.SearchAtLeast` | docker/sidecar/pkg/middleware/ratelimiter/repository/memory.go:36-36 | binary search returns the number of records below x |
| `RateStore.SearchAbove` | docker/sidecar/pkg/middleware/ratelimiter/repository/memory.go:75-75 | binary search returns the number of records at most x |
| `RateStore.InsertedAddsOne` | docker/sidecar/pkg/middleware/ratelimiter/repository/memory.go:33-41 | insertion keeps the records sorted and adds exactly one record, the new one |
| `RateStore.InsertInPlace` | docker/sidecar/pkg/middleware/ratelimiter/repository/memory.go:33-41 | search, shift and store in the buffer give the insertion |
| `RateStore.CutInPlace` | docker/sidecar/pkg/middleware/ratelimiter/repository/memory.go:70-78 | closing the gap in the buffer gives the cut between the two search positions |
| `RateStore.CutRemovesRange` | docker/sidecar/pkg/middleware/ratelimiter/repository/memory.go:70-78 | for from <= to deletion removes exactly the records r with from <= r <= to, keeping order |
| `RateStore.CutExactly` | docker/sidecar/pkg/middleware/ratelimiter/repository/memory.go:70-78 | with bounds in either order deletion is exact if and only if no record lies strictly between swapped bounds |
| `RateStore.InMemory.AddRecord` | docker/sidecar/pkg/middleware/ratelimiter/repository/memory.go:24-44 | the whole new store after adding a record, expired records of the key dropped first, still sorted |
| `RateStore.InMemory.CountRecords` | docker/sidecar/pkg/middleware/ratelimiter/repository/memory.go:46-57 | the number of records of the key that have not expired, and the store afterwards |
| `RateStore.InMemory.RemoveOldRecords` | docker/sidecar/pkg/middleware/ratelimiter/repository/memory.go:59-81 | the whole new store after a range deletion or an expiry |
| `RateLimiter.Handle` | docker/sidecar/pkg/middleware/ratelimiter/reatelimiter.go:29-84 | one request against the store, at any clock reading of each of its four calls and with any one of them failing, gives the verdict and store of the specification; the metrics path is never limited |
| `RateLimiter.ServeWithIsServe` | docker/sidecar/pkg/middleware/ratelimiter/reatelimiter.go:37-83 | when no call fails and all read one clock, that is the atomic request the theorems about runs speak of |
| `RateLimiter.FailuresPassNothing` | docker/sidecar/pkg/middleware/ratelimiter/reatelimiter.go:40-81 | a request one of whose calls fails is never let through; it is refused as too many exactly when it would be anyway and the failing call comes later; a failed expiry leaves the records of a request that did not fail, any other failure those before it or what cleaning left of them |
| `RateLimiter.FailureLeavesNoRecord` | docker/sidecar/pkg/middleware/ratelimiter/reatelimiter.go:40-71 | when any other call than the expiry fails the key has no record it did not have before, and none of them more often |
| `RateLimiter.LimiterCountsLastWindow` | docker/sidecar/pkg/middleware/ratelimiter/reatelimiter.go:35-83 | over every run with a non-decreasing clock the limiter decides as the simple specification: admit when fewer than maxHits admissions of the key lie in (t - window, t] |
| `RateLimiter.ExpiryIsInvisible` | docker/sidecar/pkg/middleware/ratelimiter/reatelimiter.go:75-75 | runs with and without key expiry give the same verdicts |
| `RateLimiter.EveryWindowIsBounded` | docker/sidecar/pkg/middleware/ratelimiter/reatelimiter.go:35-83 | no window (s - window, s], wherever it lies, holds more than maxHits requests of one key to which the limiter answered by passing them on |
| `RateRequests.AloneIsServe` | docker/sidecar/pkg/middleware/ratelimiter/reatelimiter.go:37-83 | clock reading, remove, count, add and expire as steps of their own, taken by one request without others in between, are the handler's request |
| `RateRequests.AloneFails` | docker/sidecar/pkg/middleware/ratelimiter/reatelimiter.go:40-81 | and so are the steps of one request any of whose calls fails |
| `RateLimiter.ZeroTimeWraps` | docker/sidecar/pkg/middleware/ratelimiter/reatelimiter.go:40-40 | the bound the limiter cleans from is the year 1 in nanoseconds since the epoch, wrapped around to 64 bits |
| `RateInvariant.RunKeeps` | docker/sidecar/pkg/middleware/ratelimiter/repository/memory.go:24-103 | any number of requests in flight, their steps in any order and at any clock readings, any of them failing: the store holds exactly the records of the admissions that were added and neither swept out of a window nor lost to an expiry |
| `RateVerdicts.TallyDiffersIff` | docker/sidecar/pkg/middleware/ratelimiter/reatelimiter.go:37-67 | for every state any interleaving can reach and every count in it: the admissions of the request's own window are the records found, without the younger, the older and the failed ones and with the unseen (pending or lost) and the swept ones; so the verdict differs from 'fewer than maxHits admissions in (at - window, at]' if and only if records and admissions lie on different sides of maxHits |
| `RateVerdicts.OnlyOvertakenMiscount` | docker/sidecar/pkg/middleware/ratelimiter/reatelimiter.go:37-55 | younger records take a request that read the clock later, swept admissions a store reading later than the request's own; a request that nothing has overtaken has neither |
| `RateVerdicts.TimelyHasNoOlder` | docker/sidecar/pkg/middleware/ratelimiter/reatelimiter.go:40-67 | over every run in which each admission is added less than a window after its request read the clock, no count finds a record older than its window |
| `RateVerdicts.PromptTallyDiffersIff` | docker/sidecar/pkg/middleware/ratelimiter/reatelimiter.go:37-67 | over such runs without failed calls, for a count at the request's own clock reading: the admissions of the window are the records and the unseen ones, and the verdict differs if and only if records < maxHits <= admissions, so it never refuses a request whose window has room |
| `RateVerdicts.PassedTooManyExample` | docker/sidecar/pkg/middleware/ratelimiter/repository/memory.go:92-94 | a concrete run in which a request of 9 whose store reads 11 passes although its window is full |
| `RateVerdicts.RefusedTooFewExample` | docker/sidecar/pkg/middleware/ratelimiter/reatelimiter.go:37-67 | a concrete run in which a request is refused for the record of a later one although its own window is empty |
| `RateCrowd.WindowOverrun` | docker/sidecar/pkg/middleware/ratelimiter/reatelimiter.go:35-83 | for every interleaving: a window holds at most maxHits admissions, and besides them those its last timely count could not see and those counted after the window |
| `RateCrowd.CrowdBoundsOverrun` | docker/sidecar/pkg/middleware/ratelimiter/reatelimiter.go:35-83 | with at most n requests of a key in flight at a time no window holds more than maxHits + 3n - 2 admissions, and no more than maxHits + n - 1 if none was lost or counted late |
| `RateCrowd.AllRacersPass` | docker/sidecar/pkg/middleware/ratelimiter/reatelimiter.go:48-67 | while a place is left in the store, any number of requests that count before one of them adds are all let through |
| `RateCrowd.ThreeRacersExample` | docker/sidecar/pkg/middleware/ratelimiter/reatelimiter.go:48-67 | a concrete run in which three requests pass a limit of two |
| `RateLimiter.LateClockVerdict` | docker/sidecar/pkg/middleware/ratelimiter/repository/memory.go:92-94 | for one request whose store reads a later clock: its verdict differs from the specification if and only if the key has expired by then while its hits still fill the window |
| `RateLimiter.LateClockExample` | docker/sidecar/pkg/middleware/ratelimiter/repository/memory.go:92-94 | a concrete run in which a later clock reading admits a request the window forbids |
| `RateLimiter.RacingPairOverruns` | docker/sidecar/pkg/middleware/ratelimiter/reatelimiter.go:48-67 | the case of two: requests of one instant that both count first get other verdicts than one after the other if and only if exactly one place was left |
| `RateLimiter.RacingPairExample` | docker/sidecar/pkg/middleware/ratelimiter/reatelimiter.go:48-67 | a concrete pair of racing requests of which both pass a limit of one |
| `JsonPatch.EscapeIsEach` | k8s/mesh/hook/internal/app/injector/service.go:361-364 | the two replacement passes amount to escaping each character on its own |
| `JsonPatch.EscapeRoundTrip` | k8s/mesh/hook/internal/app/injector/service.go:361-364 | an escaped key decodes to the key by section 4 of RFC 6901 and holds no path separator |
| `Injector.BuildPatch` | k8s/mesh/hook/internal/app/injector/service.go:52-215 | the answer for every request and pod: the two rejections, the three reasons to skip, or the patch |
| `Injector.BuildAnnotationsPatchOps` | k8s/mesh/hook/internal/app/injector/service.go:259-306 | the operations depend on the annotations only, not on the order in which the map was walked |
| `Injector.CollectInboundPorts` | k8s/mesh/hook/internal/app/injector/service.go:328-359 | the list of ports depends on the set of inbound ports only |
| `InjectorProofs.PatchGivesInjected` | k8s/mesh/hook/internal/app/injector/service.go:96-192 | executing the patch in order on the document the pod was decoded from gives the intended document |
| `InjectorProofs.PatchAppliesIff` | k8s/mesh/hook/internal/app/injector/service.go:96-192 | every operation finds its parent, index or member, for each document that decodes, if and only if the document has metadata and spec objects |
| `InjectorProofs.NoMetadataExample` | k8s/mesh/hook/internal/app/injector/service.go:264-276 | a concrete document without metadata that decodes and whose patch fails |
| `InjectorProofs.EmptyPodExample` | k8s/mesh/hook/internal/app/injector/service.go:96-192 | a document with empty metadata and spec decodes and its patch applies |
| `InjectorProofs.AnnotationsApply` | k8s/mesh/hook/internal/app/injector/service.go:259-306 | the annotation operations set the desired annotations and leave all others, with or without existing annotations |
| `Reinjection.InjectedDecodes` | k8s/mesh/hook/internal/app/injector/service.go:96-192 | the patched document decodes to the pod with the account, annotations, volume and containers added |
| `Reinjection.InjectionIsIdempotent` | k8s/mesh/hook/internal/app/injector/service.go:52-215 | for every pod that is not skipped, patching its document and asking again yields no operations and the answer already injected |
| `Reinjection.NothingLeftIff` | k8s/mesh/hook/internal/app/injector/service.go:194-197 | the patch is empty, and the pod skipped as already injected, if and only if account, desired annotations, volume, init container and sidecar are all there |
| `Reinjection.DecisionMeans` | k8s/mesh/hook/internal/app/injector/service.go:61-75 | which pods are left alone and for which reason: the namespace of the request, else of the pod, is ignored; the annotation says false in any case of letters; nothing is missing; every other pod gets a patch that is not empty |
| `Reinjection.AccountSource` | k8s/mesh/hook/internal/app/injector/service.go:235-257 | an explicit account goes before the label app, that before the label app.kubernetes.io/name, and that before the owners |
| `Reinjection.FirstOwnerNames` | k8s/mesh/hook/internal/app/injector/service.go:248-256 | without a label the account is named after the first controlling owner whose name is not blank, and default when there is none |
| `Reinjection.InjectionConserves` | k8s/mesh/hook/internal/app/injector/service.go:96-192 | all members the patch does not name, all other annotations, and all elements of the three lists survive in order; iptables-init goes first and the sidecar and volume last when missing; an explicit service account is kept |
| `Reinjection.NamesStayUnique` | k8s/mesh/hook/internal/app/injector/service.go:118-192 | within each of the three lists names that were unique stay unique |
| `Reinjection.NamesStayApartIff` | k8s/mesh/hook/internal/app/injector/service.go:158-192 | names that differ across containers and init containers still differ after injection if and only if no init container is named like the sidecar and no container like the iptables one |
| `Reinjection.NativeSidecarExample` | k8s/mesh/hook/internal/app/injector/service.go:176-192 | a concrete pod with an init container named sidecar that ends up with two containers of that name |
| `Reinjection.PortsSurviveInjection` | k8s/mesh/hook/internal/app/injector/service.go:328-337 | the list of inbound ports is unchanged by injection |
| `Reinjection.AccountNotBlank` | k8s/mesh/hook/internal/app/injector/service.go:76-104 | the service account name a pod is given is never blank |
| `InjectedPods.InjectedSidecarTold` | k8s/mesh/hook/internal/app/injector/service.go:385-451 | for every document: the added container is named sidecar and is told the lowest port of the application on 127.0.0.1, or port 8080 when it has none, and the trimmed account of the patched spec |
| `InjectedPods.InjectedInitTold` | k8s/mesh/hook/internal/app/injector/service.go:366-383 | the added init container is told a list that parses back, ascending, to exactly the positive ports of the containers not named sidecar, and the exclusions of the configuration |
| `InjectedPods.ContainersAgree` | k8s/mesh/hook/internal/app/injector/service.go:366-451 | both containers are told the same plain and outbound ports, the configured ones, and the user the redirection leaves alone is the one the sidecar runs as |
| `InjectedPods.PortsAreDeclared` | k8s/mesh/hook/internal/app/injector/service.go:387-395 | the sidecar declares, under their names, the ports it is told to listen on |
| `InjectedPods.ContainersAsConfigured` | k8s/mesh/hook/internal/app/injector/service.go:366-408 | the images of the two containers are the configured ones, with the pull policy, rights and resources they need |
| `InjectedPods.CAFileIsMounted` | k8s/mesh/hook/internal/app/injector/service.go:119-129 | the file in which the sidecar is told to find the root certificate is the one the added volume holds at its mount point |
| `InjectedPods.AnnotationsTell` | k8s/mesh/hook/internal/app/injector/service.go:107-117 | the patched document carries the marks of injection and, with monitoring on, the port on which the sidecar is told to serve metrics |
| `InjectedPods.InitRunsIff` | k8s/mesh/iptables/entrypoint.sh:4-7 | the script of the added init container gets past its required variables if and only if some container declares a positive port |
| `InjectedSettings.SidecarStartsIff` | k8s/mesh/sidecar/internal/config/config.go:62-122 | the sidecar reads from the environment the webhook gives it exactly the webhook's settings, and starts with them if and only if the metrics port is 9090, the algorithm is one it knows and at least three of its ports differ; a breaker threshold beyond 32 bits becomes 5 |
| `InjectedPods.InjectedSidecarStartsIff` | k8s/mesh/sidecar/internal/config/config.go:62-122 | the same for the container in every patched document, with its account and the address of its application |
| `InjectedSettings.OtherMetricsPortExample` | k8s/mesh/sidecar/internal/config/config.go:197-199 | a configuration the webhook accepts, with another metrics port that it excludes from redirection, under which no injected sidecar starts |
| `SidecarConfig.AcceptedPortsAreOwnIff` | k8s/mesh/sidecar/internal/config/config.go:137-149 | the check that ports are unique lets two listeners share a port if and only if there is an mTLS port and just three different ports |
| `Ports.PortListParses` | k8s/mesh/hook/internal/app/injector/service.go:328-359 | the port list parses back, strictly ascending, to exactly the positive ports of containers not named like the sidecar |
| `Ports.TargetIsLowestPort` | k8s/mesh/hook/internal/app/injector/service.go:453-470 | the application target is the lowest inbound port on the loopback address, or port 8080 when there is none |
| `Sorting.SortForgetsWalk` | k8s/mesh/hook/internal/app/injector/service.go:277-281 | sorting the collected keys gives the same sequence for every order of the map walk |
| `HealthMonitor.Monitor.HandleProbeReport` | docker/cdocker/internal/app/http/cdocker/health_monitor.go:63-99 | the whole new view of the reporting container, and every other container unchanged |
| `HealthMonitor.Monitor.CheckStates` | docker/cdocker/internal/app/http/cdocker/health_monitor.go:101-126 | after a tick every container is as its own tick leaves it, whatever order the map is walked in |
| `RestartHistory.MonitorFollowsHistory` | docker/cdocker/internal/app/http/cdocker/health_monitor.go:63-126 | after any history of reports and ticks the counters, report times and restarts are what the history says |
| `RestartHistory.UnreportedIsFresh` | docker/cdocker/internal/app/http/cdocker/health_monitor.go:67-71 | a container that has never reported is where those histories begin: no failures, no report times |
| `RestartHistory.TickRestartsIff` | docker/cdocker/internal/app/http/cdocker/health_monitor.go:108-124 | a tick restarts a container at most once, if and only if some probe is due: three unhealthy reports or a silence over 180 seconds since its last healthy report or restart charged to it; afterwards the liveness count is below three |
| `RestartHistory.RestartsCountTicks` | docker/cdocker/internal/app/http/cdocker/health_monitor.go:118-124 | Restarts counts exactly the ticks that restarted |
| `RestartHistory.SilenceSinceMeans` | docker/cdocker/internal/app/http/cdocker/health_monitor.go:113-116 | a readiness silence is remembered from the tick that saw it until the probe is cleared |
| `RestartHistory.LivenessSilenceIsSpent` | docker/cdocker/internal/app/http/cdocker/health_monitor.go:109-120 | a liveness silence is never left over: the tick that sees it restarts |
| `RestartHistory.SilentRestartsEveryTick` | docker/cdocker/internal/app/http/cdocker/health_monitor.go:109-120 | a restart does not reset the time of the last report, so a silent container restarts at every tick |
| `RestartHistory.HealthyNeverRestarts` | docker/cdocker/internal/app/http/cdocker/health_monitor.go:108-124 | a container that reports healthy and in time is never restarted |
| `RestartHistory.FailedIff` | docker/cdocker/internal/app/http/cdocker/health_monitor.go:75-98 | a container shows as failed if and only if the last liveness report or healthy readiness report was an unhealthy liveness report; an unhealthy readiness report never hides a failure |
| `RestartHistory.StatusTold` | docker/cdocker/internal/app/http/cdocker/health_monitor.go:75-98 | the status in full: failed or running after the last liveness or healthy readiness report, and not ready once an unhealthy readiness report has followed a status that is not failed |
| `ControlPlane.Mesh.RegisterHandler` | docker/control-plane/internal/app/http/plane/plane.go:45-58 | the whole new registry after a registration |
| `ControlPlane.Mesh.DiscoverHandler` | docker/control-plane/internal/app/http/plane/plane.go:60-100 | the reply and the whole new state, including that a miss keeps the lock and that a request without a name needs none |
| `ControlPlane.Mesh.GetAddress` | docker/control-plane/internal/app/http/plane/plane.go:140-164 | the reply and the whole new state of a lookup by host name |
| `ControlPlane.ServeKeepsValid` | docker/control-plane/internal/app/http/plane/plane.go:53-84 | every cursor stays below the number of instances under any order of registrations and lookups |
| `ControlPlane.RotatesLikeSidecar` | docker/control-plane/internal/app/http/plane/plane.go:77-82 | while no instance of a name registers, each lookup of either kind, until one waits for ever, is answered with the registered instance at the position the sidecar's round robin picks |
| `ControlPlane.AnswerAt` | docker/control-plane/internal/app/http/plane/plane.go:77-82 | in closed form: the k-th lookup is answered with the instance at (cursor + k) mod n of the registered list |
| `ControlPlane.InstancesShareEvenly` | docker/control-plane/internal/app/http/plane/plane.go:77-82 | each of n different instances answers floor(k/n) or ceil(k/n) of k lookups |
| `ControlPlane.ListIsRegistrations` | docker/control-plane/internal/app/http/plane/plane.go:53-55 | over whole runs the list of a name is the instances that registered under it, in order of registration |
| `ControlPlane.OtherAnswers` | docker/control-plane/internal/app/http/plane/plane.go:60-75 | which requests are answered as nameless, as an invalid host and as not found, and that these change neither registry nor cursors |
| `ControlPlane.StuckExactlyAfterMiss` | docker/control-plane/internal/app/http/plane/plane.go:61-75 | the lock is not always released: a run gets stuck if and only if a request that needs the lock comes after one that discovers a name nobody had registered; only a discovery without a name needs none |
| `ControlPlane.MissThenStuckExample` | docker/control-plane/internal/app/http/plane/plane.go:61-75 | two discoveries of an unregistered name get stuck; such a discovery followed by one without a name does not, nor do two lookups by host |
| `GoStrings.JoinHostPortInjective` | k8s/mesh/sidecar/internal/adapters/discovery/controller.go:217-218 | two endpoints share an address key only if they have the same IP and port |
| `GoStrings.ColonKeyInjective` | k8s/mesh/sidecar/internal/adapters/discovery/controller.go:202-204 | a service key stands for one name and one port |
| `GoStrings.TrimSpaceExactly` | k8s/mesh/hook/internal/app/injector/service.go:61-64 | trimming a value takes off all its leading and trailing spaces and nothing else |

## Left out

- RateLimiter.LimiterCountsLastWindow: takes one request as one step at one clock reading; `RateVerdicts` and `RateCrowd` say what happens otherwise. It also asks that a window does not begin before the instant `time.Time{}.UnixNano()` wraps around to, in the year 1754.
- RateLimiter.Handle: the client address and path that make up the key are parameters, and a failing call is taken to have no effect.
- RateLimiter.LateClockVerdict: one request, on a store that has seen no late reading, with one reading for its four calls; `RateVerdicts.TallyDiffersIff` covers every interleaving with a reading for each step.
- RateLimiter.RacingPairOverruns: two requests of one instant; `RateVerdicts.TallyDiffersIff` covers any number in any order.
- RateStore.InMemory.CountRecords: the code deletes an expired key while holding only the read lock; the model takes each method as one critical section.
- RateStore.InMemory.RemoveOldRecords: keeps the store sorted for from <= to, which is how the limiter calls it; `CutExactly` covers swapped bounds.
- RateStore.InsertInPlace: the buffer is a fresh copy of the records with room for one more, so that Go's reuse of spare capacity in `append` is not visible; the same holds for `CutInPlace`.
- BreakerHistory.ClosedToAllUntilRecovery: the clock is an unbounded integer, so the saturation of `time.Time.Sub` after 292 years is not modelled.
- Failover.FailsOverToLiveEndpoint: other connections may do anything to the shared state between steps except select for the same destination or make the live endpoint's entry leave closed, which is what the promise itself assumes.
- Forwarder.HandleHTTP: what the network and net/http answer is a parameter; the number of exchanges is finite, and the per-server-name transport map is not modelled.
- ClientStream.TargetGetsWholeStreamIff: says what the forwarder sets out to copy; how much of it arrives before a transfer breaks off is not modelled.
- Forwarder.EstablishErrorsReachNothing: a failed HTTP exchange counts as reached, since the request may have been sent.
- Injector.BuildPatch: quantities are written as in the source, not in the form the Kubernetes library prints them; marshalling cannot fail.
- Reinjection.InjectedDecodes: the decoder looks at the members the webhook reads; the types of other members, field names in other letter case and duplicate members are not modelled.
- Relisting.Controller.Relist: the gauge of ready endpoints is not modelled; the two list calls are parameters.
- ClusterIndex.AddressLookup: assumes that routable services have names and cluster IPs of their own and that no service is named like a cluster IP, as within one namespace; without that `Discovery.OrderIrrelevantIff` says when a key is still unambiguous.
- HealthMonitor.Monitor.HandleProbeReport: requires a known container; the code dereferences a missing map entry otherwise.
- HealthMonitor.Monitor.RestartContainer: the Docker call and its error, which is only logged, are not modelled; nor are changes cdocker makes to the shared container map while the monitor runs.
- ControlPlane.Mesh.RegisterHandler: a handler that needs the lock requires it to be free, because a request that finds it taken waits; decoding the request body and marshalling the reply are not modelled.
- Routing.RoutingMiddleware.SelectEndpoint: the answer of the random generator is a parameter.
- The metrics and logging layers of the sidecar, and the breaker gauge, which is keyed by service while entries are keyed by address: they pass the answer of the layers below through unchanged.
- The watch streams, tickers and shutdown of the discovery controller: only the relist they trigger is modelled.
- Sockets, TLS, HTTP parsing, byte copying and the original destination of a connection: only whether establishing succeeded, and how the transfer ended.
- InjectedSettings.SidecarStartsIff: parsing of durations is a parameter; variables other than those the webhook sets are taken to be unset, and settings the sidecar neither checks nor shares with the webhook are left out.
- InjectedPods.InitRunsIff: only the test for required variables; the redirection rules the script goes on to set are not modelled.
- The Redis repository, the installer, certificate management, meshctl, cdocker's deployments and all other configuration loading: calls into systems that are not part of this model, or single branches.
