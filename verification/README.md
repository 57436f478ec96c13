# Argo workflow metrics exporter: a verified model

The exporter watches Argo Workflow objects and pods and publishes Prometheus gauges about them. At its
centre is a cache of live workflows and ten gauge vectors that are updated in place and must always agree
with that cache. Around it sit an informer, a work queue, workers and a periodic full reconcile, a
partition of namespaces over replicas, and an at-most-once restart counter. This project models these
parts in Dafny and proves what their documentation promises of them: the gauges show exactly what is
cached, a full reconcile recovers from missed or reordered events, sharding loses and duplicates nothing,
and no container restart is counted twice.

`dafny verify dfyconfig.toml` checks the whole project.

## How it is organised

- `Wrappers`, `Sums`, `Decimal`: optional values, finite sums, decimal text as Go writes and reads it.
- `Workflows`, `Metrics`: the workflow fields the exporter reads; the gauge vectors as one map from series
  (a vector and its label values) to numbers, with `Set` and `Delete`.
- `Readings`: for every series, the reading a given cache calls for, written down series by series and
  independently of how a collector gets there. `Agrees` says that the gauges show exactly these readings.
- `MetricsPage`: what these readings mean in numbers and text, for a reader of the metrics page.
- `WorkflowCollector`, `Operations`, `WorkflowRuns`: the collector class and its loops. Every walk over a Go
  map takes its keys in an arbitrary order. What `time.Since` reads is an input of each operation, one
  reading for each workflow it may collect; a ghost field remembers the reading behind each cached workflow,
  so that cache, remembered readings and with them all gauges are functions of the operations and the clock.
- `Totals`: what a reader of the published gauges can rely on.
- `Events`, `CriticalSection`, `Protocol`: the informer's store, notifications, queue, any number of workers
  and the reconciler as a transition system. Inside the mutex every single gauge write is a step of its own.
  The history of a state is recorded by the steps but never consulted by them.
- `HandlingOrder`, `Lanes`, `Convergence`, `SelfHealing`, `Progress`: what that system guarantees. The account
  behind the cache in terms of the order of handling; workers that never hold two events about one object;
  the exact conditions for cache and store to agree; recovery by full reconciles; termination.
- `WorkQueue`, `Retries`, `WorkflowInformer`: the queue as client-go specifies it, the retry bound, and the
  informer class, up to a whole history of notifications followed through handlers, queue and workers.
- `Hashing`, `Sharding`, `ShardedCollectors`: the hash, the three partition functions, and what they mean for
  caches and totals.
- `RestartLedger`, `PodCollector`, `PodInformer`, `RestartRace`: restart accounting, the pod collector and
  informer, and the accounting under arbitrary interleaving.

Points about the code that the statements reflect:

- The agreement of gauges and cache needs no assumption about names: two objects with the same cache key
  displace each other together with their series. Namespaces without a slash are needed only where a key
  has to determine its namespace (filtering, sharding, the store).
- A drained queue does not imply that the cache equals the store. The store is listed before the mutex is
  taken, so a listing can be overtaken by an event and then win (`StaleListingWins`), and with two workers
  two versions of one object can be applied in the wrong order (`WorkersReorder`). `CacheIsStore` gives the
  exact condition for any number of workers, by the order of handling. If no two workers hold events about
  one object at once, only the first cause remains (`DrainedConverges`, and `SoloConverges` for one worker).
  `ReconcileHeals` and `RestsRecovered` say when a full reconcile repairs the cache for good.
- A recording rule divides vectors that have no zero entries, so a failure ratio of 0 is never recorded:
  where nothing failed there is no ratio.
- The total number of shards is cut off to 32 bits before the division. Every namespace still has exactly
  one replica as long as the cut-off total is not zero; replicas beyond it get nothing.
- Deleting a pod forgets the containers named in the deleted pod's status, and a pod full reconcile removes
  nothing; the contracts say just that.

## Model

| member | source | states |
|---|---|---|
| Workflows.KeyInjective | pkg/collector/workflow.go:39 | With slash-free namespaces two objects share a cache key exactly when namespace and name are equal. |
| Readings.AgreesPointwise | pkg/collector/workflow.go:34-112 | The invariant of the collector is, in one line, that every series of every vector shows the reading the cache calls for: nothing missing, nothing left over. |
| Readings.DeletedAgrees | pkg/collector/workflow.go:217-257 | Deleting a workflow's series takes exactly that workflow out of the agreement and touches no other series. |
| Readings.CollectedAgrees | pkg/collector/workflow.go:120-189 | Publishing a workflow not accounted for adds exactly that workflow to the agreement and touches no other series. |
| Readings.RecountAgrees | pkg/collector/workflow.go:287-310 | New totals written over the old ones, with the stale label sets deleted, agree with the cache. |
| Operations.FiledLast | pkg/collector/workflow.go:88-95 | A list files under each key its last object with that key. |
| Operations.FiledKeys | pkg/collector/workflow.go:88-95 | And it files exactly the keys of its objects; nil entries are skipped. |
| Operations.RunLeaves | pkg/collector/workflow.go:34-112 | After a run a key is cached exactly if the last operation about it brought it, with the object that operation brought. |
| Operations.RunStamps | pkg/collector/workflow.go:172-185 | And it was collected at the reading the clock showed in that operation. |
| Operations.RunLeavesAlone | pkg/collector/workflow.go:34-112 | Object and reading of a key that no operation is about stay as they were. |
| MetricsPage.CachedAreShown | pkg/collector/workflow.go:120-215 | Whenever gauges and cache agree, each cached workflow shows: each time that is set in whole seconds in its own vector, how long it took or has been running, one indicator for each of the five phases by name, its labels with their defaults, and its nodes by phase; and none of these otherwise. |
| MetricsPage.OnlyCachedAreShown | pkg/collector/workflow.go:217-257 | Every detail series belongs to a cached workflow. |
| MetricsPage.CollectedIsShown | pkg/collector/workflow.go:120-189 | Collecting a workflow without series shows it the same way. |
| WorkflowCollecting.WorkflowCollector.constructor | pkg/collector/workflow.go:24-31 | A new collector over an empty registry satisfies the invariant. |
| WorkflowCollecting.WorkflowCollector.AddWorkflow | pkg/collector/workflow.go:34-59 | The cache gains or updates the object, a nil pointer changes nothing, and the gauges agree with the new cache; with details this workflow alone is collected anew, at the clock's reading, and its series show it as of then: a running one its time since the start. |
| WorkflowCollecting.WorkflowCollector.DeleteWorkflow | pkg/collector/workflow.go:62-84 | The cache loses the object, and the gauges agree with the new cache, also when the deleted version differs from the cached one or was never cached. |
| WorkflowCollecting.WorkflowCollector.ReplaceWorkflows | pkg/collector/workflow.go:87-112 | The cache is what the list files, and the gauges agree with it; with details every workflow is collected and shown at the clock's reading for it. |
| WorkflowCollecting.WorkflowCollector.CollectWorkflowMetrics | pkg/collector/workflow.go:115-118 | On top of gauges that agree for all other workflows, completes the agreement. |
| WorkflowCollecting.WorkflowCollector.DeleteAll | pkg/collector/workflow.go:103-105 | In whatever order the previous cache is walked, no detail series is left and the totals are untouched. |
| WorkflowCollecting.WorkflowCollector.CollectAll | pkg/collector/workflow.go:106-108 | In whatever order the next cache is walked, its detail series are exactly those published. |
| WorkflowCollecting.WorkflowCollector.CollectWorkflowSeries | pkg/collector/workflow.go:120-189 | For every series: the workflow's reading at the clock's time where it has one, the old value everywhere else; a workflow without series is then shown in all its vectors. |
| WorkflowCollecting.WorkflowCollector.CollectStatusPhases | pkg/collector/workflow.go:125-132 | One indicator for each of the five listed phases, 1 for the current one and 0 for the others. |
| WorkflowCollecting.WorkflowCollector.CollectInfo | pkg/collector/workflow.go:134-149 | The info series under the defaulted service account and priority labels, and no other change. |
| WorkflowCollecting.WorkflowCollector.CollectTimes | pkg/collector/workflow.go:151-170 | A time series for each timestamp that is set, in whole seconds, and no other change. |
| WorkflowCollecting.WorkflowCollector.CollectDuration | pkg/collector/workflow.go:172-185 | A duration series under the current phase exactly when the workflow has finished after it started, with the difference, or is running and started in the past, with the time since; at most 2^63 - 1. |
| WorkflowCollecting.WorkflowCollector.CollectNodeMetrics | pkg/collector/workflow.go:192-215 | With a non-nil node map, the node total and one series per occurring phase with its true count; without, no change. |
| WorkflowCollecting.WorkflowCollector.PublishNodePhases | pkg/collector/workflow.go:212-214 | Exactly the counted phases are written, in whatever order. |
| WorkflowCollecting.CountNodePhases | pkg/collector/workflow.go:205-209 | The tally has exactly the occurring phases, each with the number of nodes in it. |
| WorkflowCollecting.WorkflowCollector.DeleteWorkflowSeries | pkg/collector/workflow.go:217-257 | Exactly the label sets of this version of the workflow disappear. |
| WorkflowCollecting.WorkflowCollector.DeleteNodeMetrics | pkg/collector/workflow.go:246-255 | The node total and the series of the version's node phases disappear, and nothing else. |
| WorkflowCollecting.NodePhasesOf | pkg/collector/workflow.go:248-251 | The phases gathered from the nodes are exactly the occurring ones. |
| WorkflowCollecting.WorkflowCollector.UpdateAggregatedMetrics | pkg/collector/workflow.go:260-311 | From totals that agreed with an earlier cache to totals that agree with the current one; the remembered domains become the current ones and no detail series changes. |
| WorkflowCollecting.Tally | pkg/collector/workflow.go:261-285 | The counts per namespace and per phase are the cardinalities in the cache, over exactly the occurring labels. |
| WorkflowCollecting.WorkflowCollector.PublishCounts | pkg/collector/workflow.go:294-299 | Each counted namespace is set, each stale one deleted, nothing else touched. |
| WorkflowCollecting.WorkflowCollector.PublishTotals | pkg/collector/workflow.go:301-310 | Each counted namespace and phase is set, each stale pair deleted, nothing else touched. |
| WorkflowCollecting.DiffNamespaces | pkg/collector/workflow.go:313-322 | The stale namespaces are the previous ones without the current ones. |
| WorkflowCollecting.DiffNamespacePhases | pkg/collector/workflow.go:324-340 | A pair is stale exactly when it was published and no longer occurs. |
| WorkflowRuns.PerformAll | pkg/collector/workflow.go:34-112 | After any finite run of add, delete and replace the gauges agree with the cache that run defines, and show each workflow as of the clock's reading in the last operation that brought it. |
| WorkflowRuns.PerformTwice | pkg/collector/workflow.go:47-58 | Two collectors that differ only in the detail flag, fed the same run, publish the same totals; the one without details owns no detail series. |
| WorkflowRuns.Rebuild | pkg/collector/workflow.go:87-112 | A fresh collector handed the cache contents in any order, at the same clock readings, publishes the same gauges. |
| WorkflowRuns.RunAndRebuild | pkg/collector/workflow.go:34-112 | After any run of operations and clock readings, the gauges are those of a fresh collector that replaces with the resulting cache at the run's last readings. |
| Totals.AggregateReading | pkg/collector/workflow.go:269-310 | A total is present exactly when it is not zero, and is the true cardinality. |
| Totals.SumCountsWorkflows | pkg/collector/workflow.go:269-310 | Any sum over the totals, restricted to a namespace or a set of phases, is a head count of the cached workflows it selects. |
| Totals.Conservation | pkg/collector/workflow.go:269-310 | The phase totals of a namespace add up to its count, and the counts of all namespaces to the cache size. |
| Totals.FailureRatioBounded | deploy/prometheusrule.yaml:18-24 | The failure ratio of a namespace or of the cluster is recorded exactly when some workflow there failed or errored; it is the fraction that did, above 0 and at most 1. |
| Totals.StatusPhaseSumsToTotal | pkg/collector/workflow.go:126-132 | For each listed phase the per-workflow indicator adds up to the namespace total. |
| Totals.NodeTotalsAgree | pkg/collector/workflow.go:192-215 | The node total of a cached workflow is the sum of its node phases; both exist exactly when the node map is not nil. |
| Totals.HistoryIndependence | pkg/collector/workflow.go:34-112 | Gauges that agree with the same cache and clock readings are identical, so neither history nor map order shows. |
| Totals.DetailsUnobservable | pkg/collector/workflow.go:47-58 | Without details the gauges are the totals of those with details, and nothing more. |
| Totals.DeleteUndoesCollect | pkg/collector/workflow.go:120-257 | Collecting and then deleting a workflow with no series of its own restores the registry, and leaves every other workflow's series alone throughout. |
| Events.ReplayAt | pkg/informer/workflow.go:187-193 | Replayed events leave at each key what the last event about it says, or what was there before. |
| Events.SuffixReplayIsIdle | pkg/informer/workflow.go:187-193 | Replaying any suffix of a history over its own outcome changes nothing. |
| Events.SuffixReplayCatchesUp | pkg/informer/workflow.go:187-193 | Replaying a suffix over another start reaches the outcome if and only if the start is right about every key the suffix does not touch. |
| Events.ReplayAdmitted | pkg/informer/workflow.go:248-250 | A replica that filters its events ends with the filtered part of the unfiltered cache. |
| CriticalSection.EnterOk | pkg/collector/workflow.go:42-45 | From agreement, the cache write leaves a state in which all that is still to be deleted and published is accounted for. |
| CriticalSection.DeleteOk | pkg/collector/workflow.go:217-257 | So does every single deletion, in any order. |
| CriticalSection.CollectOk | pkg/collector/workflow.go:120-215 | So does every single detail write, in any order and at any clock reading. |
| CriticalSection.CountOk | pkg/collector/workflow.go:268-292 | So does the recount under the collector's own lock. |
| CriticalSection.PublishOk | pkg/collector/workflow.go:294-310 | So does every single write or deletion of a total, and with the last one the gauges agree again. |
| CriticalSection.SectionStepOk | pkg/collector/workflow.go:34-112 | Whatever step the goroutine inside the section takes, the account is kept; only the cache write changes the cache. |
| Protocol.StepSafe | pkg/informer/workflow.go:142-229 | Every step of store, delivery, queue, workers, reconciler and mutex keeps the safety invariant. |
| Protocol.MutexLinearises | pkg/informer/workflow.go:160-162 | In every run with any number of workers, whenever the mutex is free the gauges agree with the operations applied one by one in lock order. |
| Protocol.MutualExclusion | pkg/informer/workflow.go:223-225 | Never are two goroutines inside a collector operation. |
| HandlingOrder.ListingRebuilds | pkg/informer/workflow.go:206-221 | In whatever order the store is listed, filing the listing yields the filtered store. |
| HandlingOrder.StepTracked | pkg/informer/workflow.go:142-229 | With any number of workers, the cache is always the last listing with the events handled since replayed over it in the order of handling, and every other notification is on its way, in one place and in order. |
| Convergence.CacheIsStore | pkg/informer/workflow.go:142-229 | In every reachable state, with any number of workers, the cache equals the filtered store if and only if, key by key, the event handled last since the replacement says what the event that arose last says, or, if none was handled since, what arose after the listing says what was listed. |
| Convergence.HandledExactlyOnce | pkg/informer/workflow.go:142-180 | With any number of workers, once drained every notification that passed the filter has been handled exactly once. |
| Lanes.StepLaneOrdered | pkg/informer/workflow.go:113-115 | As long as no two workers hold events about one object at once, the events about each object are handled in the order they arose. |
| Convergence.DrainedConverges | pkg/informer/workflow.go:142-229 | For such workers, once drained, the cache equals the filtered store if and only if no event that overtook the listing behind the cache says anything else than the listing. |
| Convergence.NothingOvertook | pkg/informer/workflow.go:206-225 | For such workers, if no event overtook the listing, the cache converges. |
| Convergence.SoloConverges | pkg/informer/workflow.go:206-225 | With one worker the exact condition concerns only the events handled between the listing and the replacement with nothing about their object after it; without any, the cache converges. |
| Convergence.Convergence | pkg/informer/workflow.go:199-229 | If no two workers hold events about one object at once, the store stops changing, a reconcile lists and replaces, and everything outstanding is handled, then the cache is the filtered store and the gauges show it. |
| Convergence.SoloConvergence | pkg/informer/workflow.go:199-229 | The same for one worker, without any discipline. |
| SelfHealing.ReconcileHeals | pkg/informer/workflow.go:113-119 | With any number of workers, if nothing stale is on its way when a reconcile lists, then from its replacement to the next store change the cache is the filtered store, and the gauges show it whenever the mutex is free. |
| SelfHealing.StepHealing | pkg/informer/workflow.go:199-229 | Every step other than a store change keeps what healing needs, and the replacement completes it. |
| Progress.SectionStepCloser | pkg/collector/workflow.go:34-112 | Every step of an operation, whichever is taken, brings its end closer. |
| Progress.NextStep | pkg/collector/workflow.go:34-112 | Short of its end an operation always has a step to take. |
| Progress.InternalStepLess | pkg/informer/workflow.go:142-180 | Every step the goroutines take by themselves leaves less to do, in a well-founded order over notifications, queue, goroutines in line, goroutines at work and the operation inside. |
| Progress.NoEndlessWork | pkg/informer/workflow.go:142-229 | However the goroutines are scheduled, an infinite run contains store changes, resyncs or reconciles again and again. |
| Progress.StuckOnlyAtRest | pkg/informer/workflow.go:142-180 | The goroutines have no step to take by themselves exactly when nothing is on its way, nobody is working and the mutex is free. |
| Progress.HolderFinishes | pkg/informer/workflow.go:160-162 | Whoever holds the mutex can finish and release it; its operation reaches the cache exactly once, and nothing else of the system moves. |
| Progress.RunsJob | pkg/informer/workflow.go:160-162 | A goroutine waiting for the free mutex can run its operation to the end. |
| Progress.ComesToRest | pkg/informer/workflow.go:142-197 | From every safe state, with any number of workers, the goroutines can by themselves empty queue and notifications and all go idle. |
| Progress.RestsRecovered | pkg/informer/workflow.go:199-229 | With any number of workers, wherever a run comes to rest that began with a listing taken while nothing stale was on its way, and in which the store did not change, the cache is the filtered store. |
| Progress.CanRecover | pkg/informer/workflow.go:199-229 | From every safe state, with any number of workers, the system can come to rest with the cache equal to the filtered store, without a store change. |
| Progress.StaleListingWins | pkg/informer/workflow.go:206-225 | A run with one worker that comes to rest with a stored workflow missing from the cache, because the store is listed outside the mutex. |
| Progress.WorkersReorder | pkg/informer/workflow.go:113-115 | A run with two workers that comes to rest with the older of two versions in the cache. |
| WorkQueues.WorkQueue.Add | pkg/informer/workflow.go:231-234 | An item already in line is not lined up twice, one being processed waits, and a closed queue takes none. |
| WorkQueues.WorkQueue.Get | pkg/informer/workflow.go:144-147 | The oldest item in line, or shutdown when the closed queue is empty. |
| Retries.MoveAccount | pkg/informer/workflow.go:165-177 | Each turn of a worker or expired delay uses up exactly one unit of one item's budget. |
| Retries.BoundedRetries | pkg/informer/workflow.go:28 | No item is handled more than six times; once drained, a failing item was handled exactly six times and is forgotten, any other exactly once. |
| Retries.DrainTerminates | pkg/informer/workflow.go:142-180 | Without arrivals a run over n items has at most 11 n moves, and is stuck only when the queue is empty. |
| Retries.DrainCost | pkg/informer/workflow.go:142-180 | A drained run took six handlings for each failing item and one for each other, at most 6 n. |
| WorkflowInforming.WorkflowInformer.HandleWorkflowEvent | pkg/informer/workflow.go:182-197 | Adds and updates are added, deletes deleted; a nil object or an unknown type is an error and changes nothing. |
| WorkflowInforming.WorkflowInformer.ProcessNext | pkg/informer/workflow.go:142-180 | The oldest item is applied to the cache, and the queue follows the retry rules; only a closed and empty queue stops the worker. |
| WorkflowInforming.WorkflowInformer.Settle | pkg/informer/workflow.go:165-177 | A failed item below the bound comes back later with one more failure on record, any other is forgotten; a closed queue takes no retry back but still counts the failure. |
| WorkflowInforming.WorkflowInformer.RunWorker | pkg/informer/workflow.go:137-140 | After shutdown the worker applies everything in line, in order, and returns. |
| WorkflowInforming.WorkflowInformer.Move | pkg/informer/workflow.go:142-180 | A turn of a worker, or a delay that runs out, is one move by the retry rules and counts a handling exactly when it is one. |
| WorkflowInforming.WorkflowInformer.Drain | pkg/informer/workflow.go:137-180 | Without arrivals, turns and delays in any order empty the queue; every failing event has then been handled six times, any other once, and the cache is what the well-formed ones in line say, in order. |
| WorkflowInforming.WorkflowInformer.Follow | pkg/informer/workflow.go:137-305 | Whatever history of store changes the handlers are notified of, once drained the cache has the part that passes the filter replayed over it. |
| WorkflowInforming.WorkflowInformer.RunFullReconcile | pkg/informer/workflow.go:199-229 | The cache becomes the part of the store that passes the filter, whatever the listing order and whatever else the store holds, all of it collected anew. |
| WorkflowInforming.WorkflowInformer.Enqueue | pkg/informer/workflow.go:231-234 | A fresh event goes to the end of the line. |
| WorkflowInforming.WorkflowInformer.OnAdd | pkg/informer/workflow.go:241-257 | An added workflow that passes the filter is lined up as an add event, anything else ignored. |
| WorkflowInforming.WorkflowInformer.OnUpdate | pkg/informer/workflow.go:260-276 | The new version, if it passes the filter, is lined up as an update event. |
| WorkflowInforming.WorkflowInformer.OnDelete | pkg/informer/workflow.go:279-305 | A deleted workflow, also when wrapped as a final state unknown, is lined up as a delete event if it passes the filter. |
| Hashing.FnvEnds | cmd/exporter/main.go:374-378 | The hash is FNV-1a with 32 bits: from the offset basis, byte by byte, an xor and a multiplication by the prime. |
| Hashing.Utf8RoundTrip | cmd/exporter/main.go:376 | The bytes of a namespace are its UTF-8 text in shortest form: decoding gives its characters back, in order. |
| Hashing.Utf8OfAscii | cmd/exporter/main.go:376 | In ASCII text each character is its own byte. |
| Sharding.ShardIsHash | cmd/exporter/main.go:374-378 | The shard of a namespace, for every total whose low 32 bits are not all zero, is one such hash of its bytes modulo the total cut off to 32 bits. |
| Sharding.ShardVectors | cmd/exporter/main.go:374-378 | Namespaces "a" and "foobar" have the shards the published hashes call for. |
| Decimal.ItoaLaw | pkg/collector/workflow.go:136-138 | A number is written in decimal digits, without leading zeros, behind a minus sign if it is negative. |
| Decimal.AtoiAccepts | cmd/exporter/main.go:364 | A text is read as a number exactly if it is its numeral behind an optional sign and any number of zeros, within 64 bits; everything else is refused. |
| Decimal.AtoiItoa | cmd/exporter/main.go:364 | Reading undoes writing for every 64-bit int. |
| Sharding.ConfiguredResolves | cmd/exporter/main.go:347-352 | A configured index resolves to itself exactly if it is below the total, whatever the host name and even without one. |
| Sharding.NoHostname | cmd/exporter/main.go:354-357 | Without a configured index and without a host name there is no index. |
| Sharding.HostnameResolves | cmd/exporter/main.go:346-372 | A host name resolves to i exactly when it ends in a dash and a dash-free numeral of i below the total. |
| Sharding.OrdinalRoundTrip | cmd/exporter/main.go:346-372 | The host name of a StatefulSet replica resolves to its ordinal. |
| Sharding.StartsWhen | cmd/exporter/main.go:309-332 | A replica starts exactly with one shard and an index of at most 0, or with more shards and an index that resolves; a single one admits its target namespace, or all without a target. |
| Sharding.ReplicaIs | cmd/exporter/main.go:309-344 | A replica left to its host name starts in shard mode with its ordinal, and admits exactly the non-empty namespaces in scope of that shard. |
| Sharding.ConfiguredReplicaIs | cmd/exporter/main.go:309-352 | So does a replica with that index configured, whatever its host name. |
| Sharding.ExactlyOneReplica | cmd/exporter/main.go:309-378 | Every non-empty namespace in scope is accepted by exactly one replica, and every other by none, for every total whose low 32 bits are not all zero. |
| Sharding.ExactlyOneConfigured | cmd/exporter/main.go:309-378 | The same for replicas with the indices 0 to total - 1 configured, on whatever hosts. |
| ShardedCollectors.EventsAndListingsAgree | pkg/informer/workflow.go:217-250 | A replica that filters a history of events ends with what its reconcile lets through of the store that history leads to. |
| ShardedCollectors.ShardIs | cmd/exporter/main.go:309-344 | A replica's part of a store is the part of the unsharded cache in its own namespaces. |
| ShardedCollectors.ShardsPartitionStore | pkg/informer/workflow.go:217 | The replicas' parts of a store are disjoint and together are the unsharded cache. |
| ShardedCollectors.ShardsSumToWhole | pkg/collector/workflow.go:269-310 | For each namespace and phase the replicas' totals add up to the unsharded total. |
| RestartLedger.MarkIsMaximum | pkg/collector/pod.go:82-88 | The high-water mark is the largest restart count observed with a termination record, or where it started. |
| RestartLedger.CpuCountsRecords | pkg/collector/pod.go:90-104 | The CPU counter grows by the positive durations at strict record highs and by nothing else. |
| RestartLedger.RecordsBounded | pkg/collector/pod.go:90-104 | A container is charged at most as often as its mark has risen. |
| RestartLedger.ObservedAgain | pkg/collector/pod.go:82-92 | Observing again what was observed before changes nothing, in any order. |
| RestartLedger.ObserveEffect | pkg/collector/pod.go:82-104 | One observation raises its own mark if it is higher, and then adds a positive duration to its own counter; no other mark or counter changes. |
| PodCollecting.ContainersApart | pkg/collector/pod.go:139-141 | With slash-free parts two containers share the collector's state key exactly when namespace, uid, pod name and container name are equal. |
| PodCollecting.ContainersObserved | pkg/collector/pod.go:69-107 | Observing a pod of a workflow with distinct container names: each container's mark and counter change by its own mark and status alone, the counter under the pod's namespace, workflow and node and its own name; nothing else changes, and a pod of no workflow changes nothing. |
| PodCollecting.PodsApart | pkg/collector/pod.go:36 | Pods are remembered by namespace and name. |
| PodCollecting.ForgottenMarks | pkg/collector/pod.go:60-62 | Deleting a pod forgets the mark of a container exactly if it is one of those listed in its status. |
| PodCollecting.ForgottenSeries | pkg/collector/pod.go:109-137 | And exactly the series of those, if the pod is of a workflow. |
| PodCollecting.PodCollector.AddPod | pkg/collector/pod.go:27-45 | The accounts take in the pod's observations in status order; with distinct container names each container is accounted for by itself; nil pods and disabled stats change nothing. |
| PodCollecting.PodCollector.CollectPodMetrics | pkg/collector/pod.go:69-107 | The same, for the loop over container statuses; pods of no workflow are not observed. |
| PodCollecting.PodCollector.CollectTermination | pkg/collector/pod.go:83-104 | A higher restart count becomes the mark and adds the time from start to finish, if positive, to the counter; otherwise nothing changes. |
| PodCollecting.PodCollector.DeletePod | pkg/collector/pod.go:47-67 | Exactly the listed containers' marks and the pod's listed series disappear. |
| PodCollecting.PodCollector.DeletePodMetrics | pkg/collector/pod.go:109-137 | The same for the series, unless the pod is of no workflow. |
| PodInforming.PodInformer.HandlePodEvent | pkg/informer/pod/pod.go:185-200 | Adds and updates are observed, deletes forgotten; a nil pod or an unknown type is an error; nothing else of the collector changes. |
| PodInforming.PodInformer.RunFullReconcile | pkg/informer/pod/pod.go:202-232 | Every workflow pod of the store that passes the filter is observed and stored, in listing order; no pod that vanished is removed. |
| PodInforming.ReconcileObserves | pkg/informer/pod/pod.go:212-227 | A reconcile observes exactly what pods report that carry a workflow label, whatever its value, in an admitted namespace. |
| PodInforming.ReconcileRemembers | pkg/informer/pod/pod.go:212-227 | And it remembers exactly these pods beside those remembered before. |
| PodInforming.SecondReconcileIsIdle | pkg/informer/pod/pod.go:202-232 | A second full reconcile over an unchanged store changes no mark and no CPU counter, in whatever order it lists. |
| RestartRace.StepBalanced | pkg/collector/pod.go:82-104 | Every step of concurrent calls keeps counter plus outstanding charges equal to what the lock order accounts for. |
| RestartRace.AtMostOnce | pkg/collector/pod.go:82-104 | In any interleaving no two charges made are for one container and restart count; each was decided by a check that raised the mark, and these got the lock in ascending order of counts. |
| RestartRace.ChargesAreRaises | pkg/collector/pod.go:90-104 | The charges made and those still owed are, one for one, the raises with a positive duration. |
| RestartRace.RaceLinearises | pkg/collector/pod.go:82-104 | When all charges are made, marks and counters are those of a single caller in lock order. |

## Left out

- Internals of client-go and of the Prometheus client: assumed as in-order notifications, a FIFO queue of distinct items with failure counts, a store keyed by namespace and name, and gauge vectors as maps.
- HTTP server, flags, kubeconfig, logging, signals, leader election: input and output only.
- pkg/health/state.go: a single ladder of conditions whose properties are settled by reading its branches.
- Queue-depth, event-count, error-count and reconcile-duration metrics: they observe the system and constrain nothing.
- WorkflowCollecting.WorkflowCollector.CollectDuration: durations are whole nanoseconds, without the division by 10^9 to floating-point seconds.
- PodCollecting.PodCollector.CollectTermination: durations are whole nanoseconds in the same way.
- Sharding.ExactlyOneReplica: requires a total that is no multiple of 2^32, because the source cuts the total off to 32 bits and then divides by it.
- WorkflowInforming.WorkflowInformer.ProcessNext: Get's blocking is a precondition, since a waiting worker does nothing; the mutex is the subject of the transition system instead.
- Protocol.StepSafe: the order of writes inside one operation is left arbitrary, which covers the source's order; events are the well-formed ones the handlers enqueue, so retries do not occur there.
- The pod informer's queue and event handlers: they line up and retry pod events by the same rules as the workflow informer's, for pods with a workflow label only; the model starts where a pod event is handled.
- When the delay of a retried item runs out is left open; the rate limiter's delays are not modelled.
