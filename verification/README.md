# Verified model of the model operations control plane

This project models the decision logic of a service that runs language models on GPU nodes, and proves
what that logic promises. It covers five parts.

* **Recent-window analytics.** `Histogram` and `QuantileLaws` are classic histogram quantiles; `Analytics`,
  `AnalyticsLaws` and `AnalyticsService` are the aggregation of counter and histogram snapshots across restarts.
* **The control plane as a transition system.** `ControlPlane` holds its tables as one state and every management
  request and worker action as one atomic step. `ControlPlaneInvariants` proves what all runs keep;
  `ControlPlaneEnqueue`, `ControlPlaneRouting`, `ControlPlaneNames`, `ControlPlaneLineage` and `ControlPlaneCancel`
  prove what enqueues, routes, names, retries and cancellations mean; `ControlPlaneRuns` holds concrete runs from the
  empty tables that end where one might not expect, and `ControlPlaneRefusals` says which request is refused with which
  error. `ControlPlaneService` is the same services as methods that write rows, each proved to have exactly the effect
  of its step and to mean what the laws say.
* **Exactly-once client mutations.** `Clients` is the service with its idempotency rows, `ClientLaws` what retries do
  to whole histories.
* **Placement.** `ResourceFit` and `ResourceFitLaws` are the advisory placement on GPUs; `Preflight` and
  `PreflightLaws` are the resource preflight and the memory that stopping the source frees.
* **Creation from a cache and convergence.** `CacheDeploy` and `CacheDeployLaws` are the round trip of the
  create-critical spec; `GatewayVerify` is the two polling loops over a gateway that changes between reads.

`dafny verify dfyconfig.toml` checks everything.

## What is assumed

Each request is one transaction. Whether the advisory locks of a route mutation could be taken is an input of the
request, and so are the active download jobs that archiving a version reads, in any order. Identifiers are fresh
numbers, so of two rows the newer has the greater one. Times are inputs. Floats are reals, so 15% of the free memory
is the exact value truncated towards zero. A set of labels is iterated in one order, any one, throughout a window.

`ControlPlane.Rely` is what is assumed of the worker: it never revives a finished operation, it keeps the timeouts and
the reason in the metadata, and it cuts an alias over only for a switch that it has claimed (RUNNING or ROLLING_BACK),
to the source or the target of that switch. Which route row a cut-over reuses or inserts is not assumed:
`ControlPlane.CutOverPlan` follows the route steps of the cold and hot switches and of their rollbacks. Reopening an
operation that waits for manual intervention is a step of its own, because the worker's reconciler does that without
looking at other operations; it is legal in a run when it conflicts with nothing, and
`ControlPlaneInvariants.ReopenKeepsIff` proves that this condition is exact.

The gateway loops assume that the applied version only grows and that time passes between rounds.

## Where the code differs from what one would expect

* The worker switches old INACTIVE route rows on again (`worker/app/services/hot_switch.py:1301-1317`,
  `worker/app/services/hot_switch_rollback.py:694-707`), management requests never do. `ControlPlaneRouting.ReactivatedIff`
  says when a row can come back, in terms of the tables before the step, `ControlPlaneRouting.CutOverReusesIff` when a
  cut-over takes an old row and which one, and `ControlPlaneRuns.RouteComesBack` is a run in which it happens.
* Reopening (`worker/app/repositories/operations.py:1053-1141`) can leave two active operations on one deployment:
  `ControlPlaneRuns.ReopenCanBreakExclusion` is a run in which a stop is enqueued while the switch waits.
* The check for monotone buckets starts from -1, so a first count of -1 passes it, and exactly there scaling fails:
  `QuantileLaws.QuantileScalesIff`, `QuantileLaws.ScalingCanFail`. Merged histograms have no negative counts
  (`AnalyticsLaws.MergedIsValid`), so only a direct call of `classic_histogram_quantile` can pass such a dictionary.
* Labels with one sort key tie: two spellings of one bound, labels that do not parse, and infinity spelled otherwise
  than `+Inf`. The listing order then decides whether the dictionary is accepted, and whether the scan meets a label
  that does not parse first: `QuantileLaws.OrderMattersIff`, `QuantileLaws.QuantileOrderCanMatter`. The deltas and the
  merged histogram of a window are listed alike, so percentiles survive ties (`AnalyticsLaws.PercentilesDefined`);
  `AnalyticsLaws.PercentileOrderIff` says what another listing could change.
* At a bound spelled twice the quantile is the bound and the cumulative count jumps over the rank:
  `QuantileLaws.QuantileInvertsCumulative`.
* With a negative lowest bound, a larger q can give a smaller estimate, because the lowest bucket starts at 0:
  `QuantileLaws.QuantileMonotoneIff`.
* A rewrite name of blanks is stored as the empty name, and the exact retry of that initial publication conflicts:
  `ControlPlaneRouting.InitialRetryIff`.
* Archiving a version looks at twenty active download jobs only, in no particular order, so a version can be archived
  while it is being downloaded: `ControlPlaneEnqueue.JobAlwaysSeenIff`, `ControlPlaneEnqueue.DownloadingStaysIff`.
* The default of `false` for an unset tool-calling flag (`backend/app/services/cache_deploy.py:527-530`) is never
  reached, so omitted and explicit `false` are different requests although the comment there says otherwise:
  `CacheDeployLaws.OmittedIsNotFalse`.
* The lookup for an earlier deployment has no order, so with two candidates the outcome depends on the listing:
  `CacheDeployLaws.AlwaysReusedIff`.
* Reclaimed memory is conserved in total even when two devices share an UUID, but then only the later device gets it:
  `PreflightLaws.CreditedIff`.
* A route reply below 500 other than 404 that is empty or has none of the fields counts as an alias without deployment,
  and any 404 as a missing alias, whoever answers (`backend/app/services/decommission.py:398-452`). The repository's own
  gateway answers only 200, 404 or 503 on this path (`gateway/app/api/internal.py:47-80`), so the former comes from a
  proxy in between, a 403 for example, or is a 2xx with an empty or foreign body, and the latter can come from a proxy
  without a rule for the path. In both cases PASSED can be said while the gateway still routes the alias to the
  deployment: `GatewayVerify.PassedSoundIff` is the exact condition, `GatewayVerify.MistakenReadPasses` has a run of the
  loop for each. READY stays sound, because it needs the fields.

## Model

| member | source | states |
|---|---|---|
| Histogram.SortKeepsListing | backend/app/services/runtime_histogram.py:29-38 | sorting the labels of a dictionary, whatever order they are listed in, gives each label once, in bound order |
| Histogram.SortedListingUnique | backend/app/services/runtime_histogram.py:29-38 | without ties there is only one sorted listing of a set of labels, so the order of the dictionary cannot matter |
| Histogram.BucketsAreMonotonic | backend/app/services/runtime_histogram.py:41-48 | the loop accepts exactly the listings whose counts never fall and start at -1 or above |
| Histogram.ClassicHistogramQuantile | backend/app/services/runtime_histogram.py:51-117 | the sort, the guards and the scan together return the quantile of the definition; the zero-count branch and the exit after the loop are dead |
| Histogram.ScanBuckets | backend/app/services/runtime_histogram.py:81-117 | the loop keeps the previous count below the rank and returns the estimate of the first bucket that reaches it |
| Histogram.UnparsableBlocks | backend/app/services/runtime_histogram.py:93-99 | a label that does not parse, at or before the landing bucket, ends the scan without an estimate |
| QuantileLaws.QuantileInvertsCumulative | backend/app/services/runtime_histogram.py:81-117 | for positive bounds the quantile lies between the bounds of the first bucket whose cumulative count reaches q times the count, and the linearly interpolated cumulative count at it is exactly that rank, unless the bucket has no width because two labels spell its bound: then the count jumps over the rank there |
| QuantileLaws.QuantileAboveAllBounds | backend/app/services/runtime_histogram.py:93-99 | when every label parses and no finite bucket reaches the rank, the result is the highest finite bound, of any sign, if there is one, and every finite count is below the rank |
| QuantileLaws.QuantileDefinedIff | backend/app/services/runtime_histogram.py:51-117 | an accepted request has an estimate if and only if a finite bucket reaches the rank, or there is a finite bound and every label up to the landing bucket parses |
| QuantileLaws.QuantileMonotone | backend/app/services/runtime_histogram.py:51-117 | for bounds of at least 0 a larger q never gives a smaller estimate, and an estimate for the larger q implies one for the smaller, so p50 is at most p95 |
| QuantileLaws.QuantileMonotoneIff | backend/app/services/runtime_histogram.py:81-117 | for bounds of any sign the estimates of an accepted dictionary are monotone in q if and only if its lowest bound is not negative or nothing was counted up to it |
| QuantileLaws.QuantileOrderIndependent | backend/app/services/runtime_histogram.py:29-38 | without ties of sort keys the estimate does not depend on the order in which the dictionary lists its buckets |
| QuantileLaws.OrderMattersIff | backend/app/services/runtime_histogram.py:29-57 | two listings of one dictionary can give different answers if and only if the request is within the guards, the counts climb along the sort keys, some listing can answer (a finite bucket reaches the rank, or the rank can land beyond the finite bounds before every label that does not parse) and some listing can fail (tied labels with different counts, or a label that does not parse and a rank beyond the finite bounds) |
| QuantileLaws.QuantileOrderCanMatter | backend/app/services/runtime_histogram.py:29-38 | the smallest dictionary of that kind, one bound in two spellings, with its two listings and their answers |
| QuantileLaws.QuantileScales | backend/app/services/runtime_histogram.py:51-117 | multiplying all counts by one positive factor changes no estimate |
| QuantileLaws.QuantileScalesIff | backend/app/services/runtime_histogram.py:41-48 | the code also accepts a first count of -1; an accepted dictionary keeps its answer under scaling by two or more exactly when no count is negative, or the scan finds no estimate: no finite bucket reaches the rank, and there is no finite bound or a label up to the landing bucket does not parse |
| QuantileLaws.ScalingCanFail | backend/app/services/runtime_histogram.py:41-48 | a dictionary with first count -1 that has a median and loses it when every count is doubled |
| AnalyticsLaws.MergedIsValid | backend/app/services/runtime_analytics.py:146-176 | after any list of snapshots a merged histogram is non-negative, monotone in bound order and along its own listing, and its +Inf bucket is its count |
| AnalyticsLaws.PercentilesDefined | backend/app/services/runtime_analytics.py:263-276 | once something was counted over two labels, p50 and p95 of a merged histogram are never rejected, exist exactly when the scan finds an estimate, both if every label parses and one is finite, and p50 is at most p95 for bounds of at least 0 |
| AnalyticsLaws.PercentileOrderIff | backend/app/services/runtime_analytics.py:263-276 | with its labels in another order a merged histogram can have another percentile if and only if some listing can answer and some listing can fail |
| AnalyticsLaws.MergedTelescopes | backend/app/services/runtime_analytics.py:114-176 | with every interval accepted, the merged count and every bucket are last minus first exactly, and the sum is within (n - 1) tolerances |
| AnalyticsLaws.RestartBlind | backend/app/services/runtime_analytics.py:123-176 | shifting a counter or a cumulative histogram by any constant over one run of an instance changes no total, count of intervals or regressions, merged histogram or boundary count |
| AnalyticsLaws.KindMeans | backend/app/services/runtime_analytics.py:111-130 | a later pair is of one instance exactly when both snapshots name container and start time, not blank, and both are equal once stripped; it is a restart exactly when both are named and either differs |
| AnalyticsLaws.BoundariesMean | backend/app/services/runtime_analytics.py:117-130 | the two boundary counts of a window are the numbers of its pairs that restart and of its later pairs with an unnamed instance |
| AnalyticsLaws.OnlyContinuingPairsCount | backend/app/services/runtime_analytics.py:111-130 | a pair that does not continue one instance adds nothing to a counter or a merged histogram |
| AnalyticsLaws.CountersTelescope | backend/app/services/runtime_analytics.py:132-145 | over a run without restart or fall prompt and generated tokens and the covered time are last minus first, each in its own counter |
| AnalyticsLaws.DeltaMeans | backend/app/services/runtime_histogram.py:128-193 | exactly which two scrapes may be compared: all totals there, the same labels with +Inf, nothing fell, and the growth is a histogram; and which are refused for their labels or the missing +Inf |
| AnalyticsLaws.AbsorbMeans | backend/app/services/runtime_analytics.py:153-176 | an accepted pair of the known labels adds its differences and its time, any other one nothing but its refusal |
| AnalyticsLaws.HistogramPairsAccounted | backend/app/services/runtime_analytics.py:146-176 | every continuing pair with both scrapes is counted once: as an interval, a regression, a change of labels, or not at all for a missing +Inf |
| AnalyticsLaws.KindsPartition | backend/app/services/runtime_analytics.py:111-127 | every adjacent pair is of exactly one of the four kinds |
| AnalyticsLaws.EveryPairAccounted | backend/app/services/runtime_analytics.py:293-306 | every same-instance pair with both values is counted once, as an interval or as a regression, and the total is never negative |
| AnalyticsLaws.CoverageWithinSpan | backend/app/services/runtime_analytics.py:224-249 | for snapshots in time order no total covers more than last minus first sample time |
| AnalyticsLaws.RateWithinPairRates | backend/app/services/runtime_analytics.py:231-249 | the reported token rate lies between the rates of two contributing pairs |
| AnalyticsLaws.WindowsAdd | backend/app/services/runtime_analytics.py:293-306 | the counter totals of two windows that share their cut snapshot add up to those of the whole |
| AnalyticsService.CounterAgg.Accumulate | backend/app/services/runtime_analytics.py:293-306 | the in-place update has the effect of the pure step on the fields it holds |
| AnalyticsService.HistoAgg.Absorb | backend/app/services/runtime_analytics.py:153-176 | one pair changes the aggregate's fields as the pure step says, bucket dictionary and schema included |
| AnalyticsService.CounterReportMeans | backend/app/services/runtime_analytics.py:231-249 | nothing is reported exactly of a counter without interval and fall, and the reported rate times the covered time is the growth |
| AnalyticsService.HistogramReportMeans | backend/app/services/runtime_analytics.py:263-290 | the reported mean times the count is the sum, p50 divides the observations in halves and p95 at nineteen twentieths |
| AnalyticsService.Compute | backend/app/services/runtime_analytics.py:93-221 | the loop over the snapshots reports the numbers of restarts and of unnamed pairs and exactly the aggregates the definitions give |
| ControlPlaneInvariants.StepKeeps | backend/app/services/switch.py:137-243 | every request and every worker step within the stated assumption keeps the twelve clauses of the invariant |
| ControlPlaneInvariants.RunKeeps | backend/app/services/switch.py:245-442 | the invariant holds after a run of any length and interleaving |
| ControlPlaneInvariants.ActiveOperationsExclusive | backend/app/repositories/operations.py:91-130 | in every reachable state two active operations share no deployment, no alias has two active switches, and an operation has at most one active retry, so the partial unique index is implied |
| ControlPlaneInvariants.NothingReachesRetired | backend/app/services/deployments.py:238-301 | in every reachable state whatever an ACTIVE route or an active operation names is not retired, and its version is not archived |
| ControlPlaneInvariants.BaselineLive | backend/app/services/switch.py:599-768 | a baseline that passes has a live source although the check never looks: it follows from the route invariant |
| ControlPlaneInvariants.ReopenKeepsIff | worker/app/repositories/operations.py:1053-1141 | reopening an operation that waits for manual intervention keeps the invariant if and only if no active operation shares a deployment or the alias and neither deployment is retired |
| ControlPlaneInvariants.RetryInserts | backend/app/services/switch.py:245-442 | a retry changes the tables only by inserting its one operation, and only when every guard held |
| ControlPlaneEnqueue.SwitchEnqueued | backend/app/services/switch.py:137-243 | a known key is answered with its operation; otherwise the enqueue succeeds exactly when strategy, timeouts, alias, the routed source, target and active operations permit, and then adds one queued switch from the routed source to the target, with that strategy's steps and flags and the requested timeouts, reason, requester and attempts, and changes nothing else |
| ControlPlaneEnqueue.ColdStepOrder | backend/app/services/switch.py:43-60 | a cold switch stops the source, after draining, before it starts the target, and moves the route only to a probed target |
| ControlPlaneEnqueue.HotStepOrder | backend/app/services/switch.py:62-76 | a hot switch stops the source only after the route has moved to the probed target and the source has drained |
| ControlPlaneEnqueue.BaselineMeans | backend/app/services/switch.py:599-734 | the baseline passes if and only if alias, source and target have the listed properties |
| ControlPlaneEnqueue.LifecycleEnqueued | backend/app/services/operations.py:77-160 | a known key is answered with its operation; otherwise the enqueue succeeds exactly when the deployment is live, managed, complete and free, a removal only without ACTIVE route and not while running, and then adds one queued operation and sets the desired state |
| ControlPlaneEnqueue.WantedIsDone | backend/app/services/operations.py:46-70 | what a lifecycle operation wants fits what its steps end with: a probe, a stop or a removal |
| ControlPlaneEnqueue.RetryEnqueued | backend/app/services/switch.py:245-442 | a known key is answered or refused by whose retry it is; otherwise the retry succeeds exactly when the original ended retryable, is not being retried and its alias, source and target still fit as for a new switch, and then adds one fresh switch: timeouts the original has are kept, missing ones become 60, 300, 30 and 30 seconds, reason, requester and attempts fall back as documented, and nothing else changes |
| ControlPlaneEnqueue.EnqueueReplays | backend/app/services/operations.py:93-97 | an enqueue repeated under its key, after any run in between, changes nothing and names the same operation |
| ControlPlaneEnqueue.RetireIff | backend/app/services/deployments.py:238-301 | a live deployment is retired exactly when nothing active reaches it and, if managed, it does not run; then it is wanted removed and nothing else changed, and retiring it again changes nothing |
| ControlPlaneEnqueue.ArchiveIff | backend/app/services/models.py:322-388 | a version is archived exactly when all its deployments are retired and none of the first twenty listed jobs is its own; afterwards no request can give it a deployment |
| ControlPlaneEnqueue.JobAlwaysSeenIff | backend/app/services/models.py:349-383 | the download guard reads twenty rows: it sees a job of the version in every row order if and only if fewer than twenty active jobs belong to others |
| ControlPlaneEnqueue.DownloadingStaysIff | backend/app/services/models.py:322-388 | a version with an active download job stays unarchived in every order the jobs may be listed in, if and only if it has a live deployment or fewer than twenty active jobs belong to others |
| ControlPlaneRouting.VersionDeterminesTable | backend/app/repositories/endpoints.py:161-190 | two states of one run with the same routing version show the gateway the same table, and the version never falls |
| ControlPlaneRouting.StepAdvances | backend/app/services/endpoints.py:88-148 | each single step raises the version or leaves aliases and routes as they were |
| ControlPlaneRouting.AtMostOneTarget | backend/app/services/endpoints.py:284-374 | in every reachable state an alias has at most one published target |
| ControlPlaneRouting.ReactivatedIff | worker/app/services/hot_switch.py:1244-1335 | some legal step switches an INACTIVE row on if and only if a claimed switch of its alias names its deployment, the alias is routed neither there nor to a third deployment, and the row is the one the switch takes: the newest, or for a hot switch going back the one it left |
| ControlPlaneRouting.CutOverReusesIff | worker/app/services/cold_switch.py:2186-2237 | a cut-over reuses a row exactly when an INACTIVE one of that alias and deployment exists, and then the newest; a hot switch going back always takes the row it left |
| ControlPlaneRouting.CutOverEffect | worker/app/services/hot_switch.py:1284-1335 | after a cut-over exactly the reused or the one added row is ACTIVE on the alias, leads to the deployment, and the version moved by one |
| ControlPlaneRouting.InactiveStays | backend/app/repositories/endpoints.py:142-160 | over any run a route row keeps its alias, deployment and rewrite name, and without cut-overs an INACTIVE one stays INACTIVE |
| ControlPlaneRouting.SetRouteReplaces | backend/app/services/endpoints.py:284-374 | a route request succeeds exactly when the locks are free, the deployment may be published and an initial publication meets no other target; then exactly the replied route is ACTIVE on the alias, to the requested deployment, no other alias is touched and the new version is replied |
| ControlPlaneRouting.InitialRetryIff | backend/app/services/endpoints.py:316-341 | an exact retry of an initial publication returns the same route if and only if the rewrite name was not blank text |
| ControlPlaneRouting.WithdrawnIff | backend/app/services/endpoints.py:192-282 | a withdrawal succeeds exactly when the locks are free, the alias exists and its target, if any, is the expected one; then no ACTIVE route is left, the version moves exactly when something was withdrawn, and no other alias is touched |
| ControlPlaneRouting.WithdrawTwice | backend/app/services/endpoints.py:192-282 | withdrawing again, whatever target is expected, changes nothing and says so |
| ControlPlaneNames.RunKeepsNames | backend/app/services/deployments.py:506-522 | over any run no two deployments and no two aliases share a name, and no two live deployments a container, so the unique indexes are implied |
| ControlPlaneNames.ManagedCreatedIff | backend/app/services/deployments.py:81-138 | a managed deployment is created exactly when names, version and container permit it, and a refusal changes nothing |
| ControlPlaneNames.ManagedCreated | backend/app/services/deployments.py:125-138 | it is the one new row, stopped and live as requested, without route and without operation |
| ControlPlaneNames.ImportedCreatedIff | backend/app/services/deployments.py:140-182 | a deployment is imported exactly when its name and version permit and an address is given, and a refusal changes nothing |
| ControlPlaneNames.ImportedCreated | backend/app/services/deployments.py:162-182 | it is the one new row, unmanaged and counted as running, without container, GPUs, route and operation; until its health is observed it can be neither operated, nor switched from or to, nor published |
| ControlPlaneNames.EndpointCreatedIff | backend/app/services/endpoints.py:88-121 | an endpoint is created exactly when its name is free; it is enabled, serving, without route, and no other alias changes for the gateway |
| ControlPlaneNames.EndpointUpdatedIff | backend/app/services/endpoints.py:123-148 | an update moves the version exactly when the gateway's table changes |
| ControlPlaneNames.TrafficShown | worker/app/services/cold_switch.py:1714-1790 | a traffic write shows on its alias and nowhere else and moves the version exactly when the gateway's table changes |
| ControlPlaneLineage.ChainFollowsRoot | backend/app/services/switch.py:290-442 | every operation of a retry chain of any length has its root's alias, source, target and strategy, every timeout and the reason the root has, and 60, 300, 30 and 30 seconds for timeouts it has not |
| ControlPlaneLineage.RootOf | backend/app/services/switch.py:290-442 | every chain ends at an earlier operation that is no retry: it is acyclic |
| ControlPlaneLineage.RetryEffect | backend/app/services/switch.py:409-442 | a retry leaves every other row as it was and adds a queued switch with exactly the strategy's steps, numbered from 1 |
| ControlPlaneLineage.RetryExtendsChain | backend/app/services/switch.py:409-442 | the new operation belongs to the chain of its original and has exactly the metadata a retry of the root would have, however long the chain; every older root is unchanged |
| ControlPlaneLineage.RetryOnce | backend/app/services/switch.py:483-507 | after a successful retry the same key replays it, and any other request is refused while it is active |
| ControlPlaneLineage.RunKeepsRoot | backend/app/services/switch.py:245-442 | over any run an operation keeps its root and the deployments it shares with it |
| ControlPlaneCancel.CancelEffect | backend/app/repositories/operations.py:239-379 | a queued operation is closed, with its job failed, its open steps skipped and the rest as it was; a claimed one only learns of the request, a finished one is left alone; the request time is set once |
| ControlPlaneCancel.CancelAgain | backend/app/repositories/operations.py:301-305 | cancelling again after CANCELLED changes nothing but the reason |
| ControlPlaneCancel.CancelReplies | backend/app/services/operations.py:234-306 | a cancel request is refused exactly when the operation is missing, no switch, or ended otherwise; an accepted one writes that row only, closing a queued operation and leaving a claimed one but for the request |
| ControlPlaneCancel.ClaimedOnce | worker/app/repositories/operations.py:74-133 | a claim takes a queued job and a queued operation out of reach of the next claim and changes nothing else |
| ControlPlaneCancel.ReopenedIsClaimed | worker/app/repositories/operations.py:1053-1141 | a reopened operation with a job is claimed like a queued one and keeps its status |
| ControlPlaneCancel.RaceOutcome | backend/app/repositories/operations.py:239-379 | for any history of claims, returns to the queue and cancellations, whichever comes first decides: closed with its job out of reach, or RUNNING with its steps untouched and the first request's time on record |
| ControlPlaneRefusals.PublicationMeans | backend/app/services/endpoints.py:385-417 | a published deployment is reported as such for one ACTIVE route and as ambiguous for several |
| ControlPlaneRefusals.LifecycleRefusals | backend/app/services/operations.py:77-160 | which deployments make a lifecycle request not found, invalid or conflicting, and which make a removal ambiguous, published or still running |
| ControlPlaneRefusals.SwitchRefusals | backend/app/services/switch.py:137-232 | a properly asked switch is not found exactly for an unknown alias, or an unknown target of an alias that leads elsewhere; in progress or busy exactly when everything else fits; refused otherwise only as invalid |
| ControlPlaneRefusals.RetryRefusals | backend/app/services/switch.py:245-442 | a retry is not found exactly for an unknown operation, invalid exactly for a retriable cold switch whose alias is disabled, leads nowhere or to a source that no longer fits the target, and refused otherwise only as an invalid state |
| ControlPlaneRefusals.CancelRefusals | backend/app/services/operations.py:234-306 | a cancellation is not found exactly for an unknown operation, and an invalid state exactly for no switch or one that ended otherwise |
| ControlPlaneRefusals.RouteRefusals | backend/app/services/endpoints.py:284-374 | a route request is busy exactly without locks, not found exactly for an unknown alias or deployment, invalid exactly for one that may not be published, conflicting exactly as an initial publication against another target |
| ControlPlaneRefusals.WithdrawRefusals | backend/app/services/endpoints.py:192-282 | a withdrawal is invalid exactly when there is a target and none is expected, and changed exactly when another one is expected |
| ControlPlaneRefusals.EndpointRefusals | backend/app/services/endpoints.py:88-148 | an endpoint is refused only as conflicting when created and as not found when updated |
| ControlPlaneRefusals.CreationRefusals | backend/app/services/deployments.py:81-138 | a creation is invalid exactly for a blank text or an archived version, not found exactly for an unknown version, conflicting exactly for a taken name or container |
| ControlPlaneRefusals.ImportRefusals | backend/app/services/deployments.py:140-182 | an import is refused for the same reasons, with the address in place of the container |
| ControlPlaneRefusals.RetireRefusals | backend/app/services/deployments.py:238-301 | which error keeps a live deployment from being retired: its routes first, then running, then what is at work on it |
| ControlPlaneRefusals.ArchiveRefusals | backend/app/services/models.py:322-388 | which error keeps a version from being archived: live deployments first, then a job among the first twenty |
| ControlPlaneRuns.ReopenCanBreakExclusion | worker/app/repositories/operations.py:1053-1141 | a legal run from the empty tables to a switch that waits for manual intervention, which reopening puts beside another active operation on its deployment |
| ControlPlaneRuns.RouteComesBack | worker/app/services/hot_switch_rollback.py:571-712 | a legal run from the empty tables whose last step, the rollback of a hot switch, makes an INACTIVE row ACTIVE |
| ControlPlaneService.SkipOpenSteps | backend/app/repositories/operations.py:357-366 | the loop skips exactly the pending and running steps |
| ControlPlaneService.FinalizeOperationCancelled | backend/app/repositories/operations.py:338-379 | the writes to the row, its steps and its job give the cancelled operation of the definition |
| ControlPlaneService.ApplyCancelDecision | backend/app/repositories/operations.py:239-336 | the branches on the locked row give the decision and the row of the definition |
| ControlPlaneService.Database.InsertOperation | backend/app/services/switch.py:509-564 | inserting the row, then its steps one by one, then its job gives the operation with numbered pending steps |
| ControlPlaneService.Database.GetActiveRoute | backend/app/repositories/endpoints.py:91-98 | the query has one answer in a valid state |
| ControlPlaneService.Database.EnqueueLifecycle | backend/app/services/operations.py:77-160 | beside the effect of the step, its law: one queued operation and the desired state exactly when the deployment permits, a replay or a refusal without change otherwise; the invariant is kept |
| ControlPlaneService.Database.EnqueueSwitch | backend/app/services/switch.py:137-243 | beside the effect of the step, its law: one queued switch exactly when one can be enqueued, a replay or a refusal without change otherwise; the invariant is kept |
| ControlPlaneService.Database.RetrySwitch | backend/app/services/switch.py:245-442 | beside the effect of the step, its law: one fresh switch under the original exactly when that can be retried, a replay or a refusal without change otherwise; the invariant is kept |
| ControlPlaneService.Database.CancelOperation | backend/app/services/operations.py:234-306 | beside the effect of the step, its law: which requests are refused, and that the one row is closed or learns of the request; the invariant is kept |
| ControlPlaneService.Database.SetRoute | backend/app/services/endpoints.py:284-374 | deactivating, inserting and bumping have the effect of the step and its law: success exactly when permitted, with the replied route alone ACTIVE on the alias and other aliases untouched; the invariant is kept |
| ControlPlaneService.Database.Unpublish | backend/app/services/endpoints.py:192-282 | deactivating and bumping have the effect of the step and its law: success exactly when permitted, no target left, the version moved exactly on change; the invariant is kept |
| ControlPlaneService.Database.CreateEndpoint | backend/app/services/endpoints.py:88-121 | insertion and bump have the effect of the step and its law: success exactly when the name is free, one more enabled alias without target; the invariant is kept |
| ControlPlaneService.Database.UpdateEndpoint | backend/app/services/endpoints.py:123-148 | the flag write and the conditional bump have the effect of the step and its law: the version moves exactly when the gateway's table changes; the invariant is kept |
| ControlPlaneService.Database.RetireDeployment | backend/app/services/deployments.py:238-301 | the checks one by one have the effect of the step and its law: retired exactly when nothing active reaches it and it does not run; the invariant is kept |
| ControlPlaneService.Database.ArchiveVersion | backend/app/services/models.py:322-388 | the lookup of deployments and the loop over the first twenty jobs have the effect of the step and its law: archived exactly when nothing live and no seen job is in the way, and closed to new deployments; the invariant is kept |
| ControlPlaneService.Database.CreateManaged | backend/app/services/deployments.py:81-138 | the checks and the insertion have the effect of the step and its law: created exactly when names, container and version permit, as one new stopped row; the invariant is kept |
| ControlPlaneService.Database.ImportDeployment | backend/app/services/deployments.py:140-182 | the checks and the insertion have the effect of the step and its law: imported exactly when name, address and version permit, as one new unmanaged row that nothing can be done with until its health is observed; the invariant is kept |
| Clients.ClientService.CreateClient | backend/app/services/clients.py:76-145 | claim, insertion, completion and rollback together have the effect of the mutation; an error restores all tables |
| Clients.ClientService.UpdateClient | backend/app/services/clients.py:147-257 | claim, field updates, completion and rollback together have the effect of the patch; an error restores all tables |
| Clients.UpdateRow | backend/app/services/clients.py:227-243 | field by field update with the effect of the patch, which ClientLaws.PatchedRow states on the fields of the request |
| Clients.ClientService.BeginIdempotency | backend/app/services/clients.py:304-368 | claim, replay or refusal, with the rows as they should be in each case |
| Clients.ClientService.BeginOrLoad | backend/app/repositories/client_idempotency.py:23-74 | inserts a claim exactly when the key is new, and otherwise returns the row that is there |
| ClientLaws.ExactlyOnce | backend/app/services/clients.py:76-145 | deleting every replayed request from any history gives the same tables and the same reply to everything else |
| ClientLaws.ReplayedIff | backend/app/services/clients.py:304-368 | a request is replayed if and only if an earlier one with the same key, method, resource and payload succeeded |
| ClientLaws.RetryIsInvisible | backend/app/services/clients.py:147-257 | a retry anywhere after the success gets the stored response and changes no table and no other reply |
| ClientLaws.RecordsNeverChange | backend/app/repositories/client_idempotency.py:86-108 | a committed idempotency row never changes |
| ClientLaws.NoOrphanedClaims | backend/app/services/clients.py:339-368 | after any history every committed row is COMPLETED with a response, so the takeover branch is unreachable |
| ClientLaws.OtherIntentIsRefused | backend/app/services/clients.py:322-337 | a key bound to one mutation refuses every other one and nothing changes |
| ClientLaws.ErrorsLeaveNoTrace | backend/app/services/clients.py:143-145 | a refused request leaves neither a client nor a change nor its claim |
| ClientLaws.PatchTwice | backend/app/services/clients.py:227-243 | the same patch again changes nothing, not even the time |
| ClientLaws.PatchedRow | backend/app/services/clients.py:147-257 | a patch that succeeds gives each named field the requested value in row and response, keeps the others, the client key and the creation time, and moves the time of change exactly when a field differs |
| ClientLaws.CreateTwice | backend/app/services/clients.py:110-116 | the same creation again without a key is a conflict |
| ClientLaws.CreatedClient | backend/app/services/clients.py:76-145 | a creation that succeeds adds and answers one active client with the requested texts stripped |
| ClientLaws.RefusedIff | backend/app/services/clients.py:76-225 | a new request is refused exactly for a blank, long, null or forbidden field or a malformed key, a missing client, or a taken client key |
| ResourceFit.AggregateResourceFit | backend/app/domain/resource_fit.py:319-479 | the branches and reassignments compute the placement of the definition |
| ResourceFit.Select | backend/app/domain/resource_fit.py:337-342 | the list comprehension keeps the decisions with these verdicts, in order |
| ResourceFitLaws.VerdictByCounts | backend/app/domain/resource_fit.py:369-434 | with a known demand the result is FIT exactly when n GPUs hold their share comfortably, TIGHT exactly when not but n hold it, else INSUFFICIENT |
| ResourceFitLaws.SuggestsTheBest | backend/app/domain/resource_fit.py:419-426 | the n suggested GPUs are different, hold share and margin and are listed best first; none left out is comfortable beside a tight one, has more memory left at the same comfort, or comes earlier at the same |
| ResourceFitLaws.RankedOrder | backend/app/domain/resource_fit.py:308-316 | the ranking is by verdict, at equal verdicts by the memory left after demand and margin, and then by position |
| ResourceFitLaws.RankedKeeps | backend/app/domain/resource_fit.py:308-316 | the ranking neither loses nor invents a GPU |
| ResourceFitLaws.SharesCover | backend/app/domain/resource_fit.py:383-387 | n shares cover the demand, and shares smaller by one megabyte do not |
| ResourceFitLaws.MoreFreeNeverWorse | backend/app/domain/resource_fit.py:250-283 | more free memory on any GPU never makes the result worse, whatever each GPU is asked to hold |
| ResourceFitLaws.ExtraGpuNeverWorseIff | backend/app/domain/resource_fit.py:369-434 | one more GPU, wherever listed and whatever it is asked to hold, never makes the result worse, except exactly when it is a GPU without a demand beside several others that all have one and were FIT or TIGHT: the result becomes UNKNOWN |
| ResourceFitLaws.UnknownDemand | backend/app/domain/resource_fit.py:399-403 | without a demand the result is UNKNOWN unless there are too few GPUs |
| ResourceFitLaws.DiskIff | backend/app/domain/resource_fit.py:436-447 | the disk suffices exactly when the download and the cushion fit, to the byte |
| ResourceFitLaws.SuggestionIff | backend/app/domain/resource_fit.py:436-462 | GPUs are suggested exactly when the result is FIT or TIGHT; too little disk clears both |
| ResourceFitLaws.RefusedIff | backend/app/domain/resource_fit.py:319-336 | a placement is refused exactly without GPUs or for a tensor parallel size below one |
| Preflight.ReclaimableByGpu | backend/app/domain/preflight.py:120-167 | the nested loops credit every device with the source's memory on what it owns, and report whether a process of the source was found |
| Preflight.Invert | backend/app/domain/preflight.py:136 | inverting the dictionary: the last device with an UUID wins |
| PreflightLaws.CreditedIff | backend/app/domain/preflight.py:133-165 | a device is credited with exactly the source's memory on its GPU if and only if no later device has that UUID or there is nothing to credit |
| PreflightLaws.AttributedIff | backend/app/domain/preflight.py:150-164 | a process counts as the source's exactly when it names it, up to the case of letters, and reports memory; a negative amount counts as none |
| PreflightLaws.FoundIff | backend/app/domain/preflight.py:133-167 | the source is reported as found exactly when some GPU of a device lists a process of it |
| PreflightLaws.TotalConserved | backend/app/domain/preflight.py:144-165 | in total the devices are credited with all the source's memory on owned GPUs, shared UUIDs or not |
| PreflightLaws.ListingOrderIrrelevant | backend/app/domain/preflight.py:144-165 | the order in which GPUs and processes are listed does not matter |
| PreflightLaws.OverallMeans | backend/app/domain/preflight.py:87-117 | HOT exactly when every GPU is, INSUFFICIENT exactly when one is: no pooling |
| PreflightLaws.DecisionMeans | backend/app/domain/preflight.py:46-84 | what is available now and after stopping, beyond the margin, and the verdict each GPU gets from it |
| PreflightLaws.RefusedIff | backend/app/domain/preflight.py:46-100 | a preflight is refused exactly without GPUs or with a negative amount |
| PreflightLaws.HotOnceFreedIff | backend/app/domain/preflight.py:46-84 | evaluating again after freeing exactly the reclaimable memory is HOT on every GPU if and only if the first result was not INSUFFICIENT |
| PreflightLaws.ShortTotalsDecide | backend/app/domain/preflight.py:87-117 | too small a total does decide: less memory available now and to be freed than demanded is INSUFFICIENT |
| PreflightLaws.TotalsDoNotDecide | backend/app/domain/preflight.py:103-117 | no total is large enough to decide: for every m there are GPUs whose free memory covers the demand m times over with an INSUFFICIENT result |
| CacheDeploy.NormalizeAutoToolCalling | backend/app/services/vllm_auto_tool_calling.py:21-106 | copying, deleting and overwriting keys gives the normalised configuration of the definition, or its error |
| CacheDeploy.RequireUniqueGpuIds | backend/app/services/cache_deploy.py:466-489 | the list itself if its entries differ, otherwise exactly the identifiers that occur twice |
| CacheDeploy.ValidateGpuAssignments | backend/app/services/deployments.py:388-474 | the list itself, or the error of the first bad entry |
| CacheDeploy.FindIdempotentDeployment | backend/app/services/cache_deploy.py:610-647 | the loops return the first candidate if its spec agrees, a conflict if not, and nothing without candidates |
| CacheDeploy.CacheDeployService.CreateDeploymentFromCache | backend/app/services/cache_deploy.py:103-243 | the step by step configuration, lookup and insertion have the effect of the definition |
| CacheDeployLaws.ToolsNormalized | backend/app/services/vllm_auto_tool_calling.py:21-106 | which configurations are accepted; no key is added, other keys stay, and normalising again changes nothing |
| CacheDeployLaws.CriticalSurvives | backend/app/services/cache_deploy.py:502-558 | the create-critical values read from the stored configuration are those of the requested one |
| CacheDeployLaws.GpusReadBack | backend/app/services/cache_deploy.py:560-572 | the assignment rows, in any storage order, read back as the requested list |
| CacheDeployLaws.DiffEmptyIff | backend/app/services/cache_deploy.py:589-608 | the list of differing fields is empty exactly when the specs are equal |
| CacheDeployLaws.AlikeIff | backend/app/services/cache_deploy.py:502-536 | normalised values tell configurations apart exactly when numbers or flags differ, texts differ once stripped, or names differ in more than the case of letters; blank is as good as absent |
| CacheDeployLaws.NumeralReadsBack | backend/app/services/cache_deploy.py:509-513 | a number written as a text is that number |
| CacheDeployLaws.IntReads | backend/app/services/cache_deploy.py:509-513 | which number an integer key reads from a flag, a float or a text |
| CacheDeployLaws.ShareReads | backend/app/services/cache_deploy.py:514-518 | which number the memory share reads from an integer, a flag or a text |
| CacheDeployLaws.TextReads | backend/app/services/cache_deploy.py:519-521 | a text key reads a flag or a number as its text |
| CacheDeployLaws.ParseStripped | backend/app/services/cache_deploy.py:509-518 | white space around a number does not matter |
| Prelude.StripMeans | backend/app/services/cache_deploy.py:519-526 | stripping takes white space from the ends and nothing else |
| Prelude.SpacesAre | backend/app/services/cache_deploy.py:519-526 | which characters are white space |
| CacheDeployLaws.StoredReadsBack | backend/app/services/cache_deploy.py:560-587 | the spec read back from a deployment just stored is the spec of the request that created it |
| CacheDeployLaws.FullConfigMeans | backend/app/services/cache_deploy.py:140-168 | the configuration looked up and stored: what the cache and the GPUs dictate, the defaults by kind of model, and whatever else was requested |
| CacheDeployLaws.FullConfigIff | backend/app/services/cache_deploy.py:115-158 | exactly when a request gets past the checks before the lookup |
| CacheDeployLaws.CreatedIff | backend/app/services/cache_deploy.py:192-243 | a request that meets no deployment is served exactly when fit, admission, container, port, tool calling fields and GPUs permit, and then adds its one row |
| CacheDeployLaws.NoCache | backend/app/services/cache_deploy.py:115-122 | without a cache nothing is looked up or created |
| CacheDeployLaws.AssignmentsValidIff | backend/app/services/deployments.py:388-474 | GPU assignments are accepted exactly when no order is negative, no GPU and no order repeats, and every GPU is known and of the node |
| CacheDeployLaws.AssignmentErrorMeans | backend/app/services/deployments.py:388-474 | a bad assignment is a conflict when it repeats, not found when its GPU is unknown, and invalid for a negative order or a GPU of another node |
| CacheDeployLaws.ExactRetryReuses | backend/app/services/cache_deploy.py:168-191 | an exact retry returns the same deployment as long as it is the only candidate |
| CacheDeployLaws.ConflictIff | backend/app/services/cache_deploy.py:610-647 | a request that first meets the deployment stored for another one reuses it exactly when both mean the same deployment, field by field; with any critical difference it is refused as conflicting with it, and nothing changes |
| CacheDeployLaws.ForeignConflicts | backend/app/services/cache_deploy.py:560-587 | a request that first meets a deployment made otherwise than from a cache is refused as conflicting with it |
| CacheDeployLaws.ComparedPort | backend/app/services/cache_deploy.py:560-600 | a deployment is compared by its own port, or else the one in its configuration, or none |
| CacheDeployLaws.RetryAfterAnyCreations | backend/app/services/cache_deploy.py:103-243 | whatever creations from caches come in between, an exact retry returns the same deployment |
| CacheDeployLaws.AlwaysReusedIff | backend/app/services/cache_deploy.py:610-647 | the query has no order: the deployment is reused in every order if and only if it is the only candidate |
| CacheDeployLaws.OmittedIsNotFalse | backend/app/services/cache_deploy.py:502-534 | leaving the enable flag out and setting it to false are different requests; leaving it out and null are the same |
| GatewayVerify.VerifyGatewayUnpublish | backend/app/services/decommission.py:344-483 | the loop ends in the first round that decides or passes the deadline, with that round's verdict |
| GatewayVerify.WaitGatewayRouteReady | backend/app/services/cache_deploy.py:945-1087 | the loop ends in the first round that is ready, mismatched or unavailable, or that passes the deadline, with that round's verdict |
| GatewayVerify.PassedIsSound | backend/app/services/decommission.py:366-477 | unless the route reply was blank or a 404 that is not the gateway's, PASSED means that at the second read the gateway had applied the committed version and did not route the alias to the deployment |
| GatewayVerify.PassedSoundIff | backend/app/services/decommission.py:366-477 | for a round that can be reached, PASSED is sound whatever the gateway does, if and only if not the version was read and the route reply was blank or a 404 of somebody else |
| GatewayVerify.ReadyIsSound | backend/app/services/cache_deploy.py:945-1087 | READY means that at the second read the alias was routed to the running, healthy deployment at the committed version |
| GatewayVerify.WaitMeans | backend/app/services/cache_deploy.py:965-1085 | with every reply delivered the wait says READY exactly in the first caught-up round that shows the deployment running and healthy, and MISMATCH exactly when that shows another one or the deadline finds another one |
| GatewayVerify.PassedIff | backend/app/services/decommission.py:374-452 | with every reply delivered the loop says PASSED in a round exactly when that is the first to find the gateway caught up, no earlier one ran into the deadline, and its second read did not show the deployment |
| GatewayVerify.TimeoutIsNoSuccess | backend/app/services/decommission.py:454-477 | both loops say PASSED or READY only in a round that decided it; one that ends undecided is past its deadline and says so without success |
| GatewayVerify.EndsByDeadline | backend/app/services/decommission.py:366-472 | all earlier rounds were within the timeout and no more rounds fit than intervals do |
| GatewayVerify.EndsOnce | backend/app/services/decommission.py:366-472 | round and verdict are determined by the history of the gateway |
| GatewayVerify.SettledIsSeen | backend/app/services/decommission.py:366-477 | an unpublication loop that reaches an answered round after the gateway settled says PASSED in it, unless it ended before |
| GatewayVerify.ReadySettledIsSeen | backend/app/services/cache_deploy.py:945-1087 | a wait for a route that reaches an answered round after the gateway settled says READY in it, unless it ended before |
| GatewayVerify.MistakenReadPasses | backend/app/services/decommission.py:398-452 | for a blank route reply and for a foreign 404, a run of the loop that says PASSED while the gateway routes the alias to the deployment |

## Left out

- QuantileLaws.QuantileInvertsCumulative: assumes positive bounds, because the lowest bucket always starts at 0 in the code.
- AnalyticsLaws.MergedTelescopes: states an error bound for the sum and not an equality, because the tolerance of the sum check is not transitive.
- ControlPlaneInvariants.StepKeeps: covers reopening only when it conflicts with nothing, because otherwise the claim is false; `ControlPlaneInvariants.ReopenKeepsIff` gives the exact condition.
- CacheDeployLaws.ExactRetryReuses: assumes that the deployment is the only candidate; `CacheDeployLaws.AlwaysReusedIff` shows that this is needed and `CacheDeployLaws.RetryAfterAnyCreations` that creations from caches keep it.
- GatewayVerify.PassedIsSound: assumes that the route reply was not blank and no 404 of somebody else; `GatewayVerify.PassedSoundIff` is the exact condition.
- How a label text parses: a label carries its number; stored histograms that are no dictionaries; the gauge summaries and the mean of a histogram.
- Float rounding, also in `int(free * 0.15)`; hash collisions: request payloads are compared as they are.
- Database locking and isolation: every transaction is one atomic step; the race of two insertions under one key is decided by the unique index.
- The worker, the gateway and the node agent beyond the steps and replies named above; rollback and alternate-node operation kinds.
- `update_deployment`, `replace_gpu_assignments` and `update_version`: field copies that touch neither retirement, routes nor active operations.
- Port, configuration and health path of a new deployment and their validation; `CacheDeploy` covers the configuration and the GPU assignments of creations from a cache.
- Canonical form of alias names, display names and descriptions; existence checks for nodes; empty idempotency keys of operations, which the code treats as absent.
- Step details, error codes and texts of operations, and the names in error details.
- Unicode case folding: `lower` acts on ASCII letters; number texts with underscores, fractions or exponents in a runtime configuration; `1`, `1.0` and `True` count as different values.
- The GPU name, index and total memory that a fit decision only passes through; the estimate of the demand from repository files.
- Runtime policies of clients, listings, serialisation, HTTP routes and the user interface: plumbing or easy members.
- The advisory flag for purging a cache, capacity comparison, the download job mirror and the Hugging Face client.
