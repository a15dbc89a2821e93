# Synthetic Heart, verified

A Dafny model of Synthetic Heart, a scheduler of synthetic tests on Kubernetes. A controller resolves the placement
of each test and writes a versioned config into Redis as several separate keys. Agents poll a summary hash, fetch
configs, start and stop test routines and publish results. A garbage collector and a REST summary read those results.
The project states and proves what these parts promise together, for all inputs, all interleavings and all runs.

`dafny verify dfyconfig.toml` checks everything.

## How the code is modelled

- The store is a class over flat string keys (`Store.RedisStore`); a ghost field gives the typed map that the keys refine.
- The plugin manager, its state map, the broadcaster and a test resource are classes with the source's fields.
- Go map iteration is an arbitrary choice among the remaining keys.
- Concurrency is a step system: a state, a set of actions, and every finite sequence of enabled actions. Each Redis
  command and each channel operation is one step.
- The pattern matcher is a parameter, any function that answers yes, no or malformed. Where a statement needs real
  matching, the parameter is required to agree with literals, `*` and `?` (`Globs.ExtendsGlob`).
- The version hash is a parameter. Clock readings, random choices, plugin outcomes and the results of fetches are parameters.

## Hypotheses

- The writes for one config id are serialised and complete. The interleaved system has at most one writer per id, and
  statements about a config hold while no write of it is under way.
- Who runs a config: for every agent, the agent accepts the current config, or the write history is safe for it. Safe
  means that since the first use of the current version no other config was written that the agent accepts
  (`Propagation.Safe`). That is the exact condition for the right agents to run the config (`SyncPlacesIff`,
  `Placement.OnePlacementIff`): the chosen agent of a `$` test needs nothing, every other agent needs safety.
- Which version it runs: safety alone is the exact condition for agreement and convergence (`AgreementIff`,
  `SyncConvergesIff`), and it follows when versions do not recur (`NeverRecursIff`).
- The controller does not guarantee safety: a test that moves to another agent and back gets its old version again
  (`Placement.MovingBackBreaksPlacement`, `MovingBackHappens`).
- The version function separates the stored config from the one to be published, and a version is not the empty
  string (`Reconciler.HashOk`). `Reconciler.PublishingStoresIff` is the exact condition without a version function.
- Names contain no slash (section 2.1 of RFC 1123).
- Pod labels have no `$agentId` key. For the deployed flag: node and pod names are free of `$`, and no label key
  starts with `$`.

## Findings

- Acceptance of a test by an agent is independent of map order. Whether a non-acceptance is a rejection or an error is
  independent of it exactly when no malformed selector meets a mismatching one.
- A deployed `$` test runs on the chosen agent exactly if that agent's own configuration meets the request, and
  otherwise nowhere. A placeholder status can make the controller choose an agent that does not meet it.
- The data of a stopped test comes back exactly if it is written after the deletion and not deleted again, for instance
  by a run that was still queued for the exporter.
- The published agent status omits a cached test exactly while the sync loop is between its update of the cache and
  its update of the state map.
- The wait before a restart follows the documented doubling only up to 29 restarts. From 30 to 53 the binary digits
  of 5^10 decide between five minutes and one second. From 54 on it is one second.
- The worker pool is free of deadlock exactly when there is no job, or there is a worker and the jobs number at most
  twice the buffer plus the workers.
- Five decimals of the float64 pass ratio suffice exactly for maxima up to 100000 and even maxima up to 200000.
- The overall status depends on map order exactly when a failing test of status 0 meets one of status 1.
- An unsubscription takes effect under every schedule exactly if the listener's subscription is no longer queued at
  the call; otherwise the loop can take the two in the wrong order, and the listener stays subscribed until it
  unsubscribes again.
- A failed listing of pods makes the garbage collector drop every agent and every well-formed test-run entry; a failed
  listing of test resources makes it drop every listed config. A plugin-status entry without a test-run entry is never
  collected.

## Model

| member | source | states |
|---|---|---|
| `Ids.JoinSplit` | common/helpers.go:75-81 | splitting an id at slashes loses nothing: joining the pieces gives the id back |
| `Ids.ParsesIff` | common/helpers.go:75-81 | an id parses exactly if it has at least four pieces, and its components are the first four |
| `Ids.IdPieces` | common/helpers.go:65-86 | for slash-free names a config id and an agent id have the name and the namespace as their pieces, and a plugin id is the config id, a slash and the agent id |
| `Ids.PluginIdRoundTrip` | common/helpers.go:65-86 | for slash-free names, the components of a computed plugin id are the names it was built from |
| `Ids.ComponentsRebuildPluginId` | common/helpers.go:75-81 | the components rebuild the id up to its fourth piece, and the whole id exactly when it has four |
| `Ids.ConfigIdInjective` | common/helpers.go:70-72 | slash-free names and namespaces give different config ids |
| `Ids.PluginIdInjective` | common/helpers.go:65-72 | on one agent, plugin ids are equal exactly when config ids are |
| `Validity.UnanimousIsDeclarative` | common/helpers.go:89-169 | without malformed patterns the branching is a conjunction of namespace, node, label and selector conditions |
| `Validity.AcceptanceIgnoresOrder` | common/helpers.go:126-165 | an agent accepts under one iteration order of the selector map if and only if it accepts under every order |
| `Validity.VerdictIgnoresOrderIff` | common/helpers.go:126-165 | reject or error depends on the order exactly when one entry is malformed and another mismatches |
| `Validity.ErrorNeedsMalformed` | common/helpers.go:103-165 | an error comes out only if some pattern is malformed for this agent |
| `Validity.ErrorIff` | common/helpers.go:89-169 | an error rather than a rejection comes out exactly if the first stage that does not pass is a malformed pattern: that of the node selector, or that of the first selector entry that does not accept, labels passing before it |
| `Validity.NewSelectorKeyShrinks` | common/helpers.go:126-165 | a new selector key adds exactly its own condition, so it only shrinks the set of accepting agents |
| `Validity.LabelsAccepted` | common/helpers.go:115-123 | the label loop answers whether all expected labels match, a missing label reading as empty |
| `Validity.PodsVerdict` | common/helpers.go:126-165 | the selector loop returns the verdict of some enumeration of the selector keys |
| `Validity.IsAgentValidForSynTest` | common/helpers.go:89-169 | the verdict of some iteration order; acceptance equals the order-free conjunction; an error implies a malformed pattern |
| `Globs.GlobConcat` | common/helpers.go:103-113 | matching a concatenation of patterns is splitting the name into matches of the parts |
| `Globs.GlobLiteral` | common/helpers.go:103-113 | a pattern without special characters matches exactly itself |
| `Globs.GlobQuestion` | common/helpers.go:103-113 | `?` matches exactly the names of one character other than a slash |
| `Globs.GlobPrefix` | README.md:50-51 | `worker*` matches exactly the slash-free extensions of `worker` |
| `Globs.GlobNeedsLiteral` | common/helpers.go:103-113 | every literal character of a pattern occurs in whatever it matches |
| `Propagation.StepKeepsInv` | common/storage/redis.go:275-346 | every step of every process keeps the invariant: store, summary and snapshots carry versions of the write history, and every cache entry was fetched no earlier than its label |
| `Propagation.RunKeepsInv` | agent/pluginmanager/pluginManager.go:416-478 | so does every run, without any hypothesis on versions |
| `Propagation.CacheAgreesWithStore` | agent/pluginmanager/pluginManager.go:416-478 | in every reachable state, for a config without a write under way and with a safe history, a cache entry with the summary's version holds exactly the stored config |
| `Propagation.MislabellingRun` | agent/pluginmanager/pluginManager.go:433-470 | for any writes and any later writes of a config there is a run in which an agent runs the newest one under the label of the older ones |
| `Propagation.RecurringVersionBreaksAgreement` | common/storage/redis.go:275-320 | one config, another, and the first again: a run with these writes ends, nothing under way, with the agent running the second under the version of the first |
| `Propagation.UnsafeHistoryBreaksAgreement` | common/storage/redis.go:275-320 | every unsafe write history has a run with exactly these writes whose end violates agreement with nothing under way |
| `Propagation.AgreementIff` | agent/pluginmanager/pluginManager.go:416-478 | agreement holds after every run with a given write history if and only if the history is safe for the agent |
| `Propagation.NeverRecursIff` | agent/pluginmanager/pluginManager.go:433-445 | for an agent that accepts all configs of a history, agreement holds throughout all runs along it if and only if versions never recur in it |
| `Propagation.StaleForever` | agent/pluginmanager/pluginManager.go:436-440 | a stale entry outlives every later run in which the config is not written and the agent does not crash |
| `Propagation.SyncConverges` | agent/pluginmanager/pluginManager.go:416-478 | under every interleaving with other agents and with writes of other configs, an agent that synced after the last write of a config and is idle runs it exactly if it is stored and accepted, at the stored version |
| `Propagation.FailedFetchesKeepTest` | agent/pluginmanager/pluginManager.go:441-445 | over every run in which the test stays in the snapshots of the agent and no fetch of it succeeds, the agent keeps its cache entry |
| `Propagation.SyncConvergesIff` | agent/pluginmanager/pluginManager.go:416-478 | that holds after every run with a given write history if and only if the history is safe |
| `Propagation.SyncPlaces` | agent/pluginmanager/pluginManager.go:416-478 | an agent that synced after the last write of a config and is idle runs it if and only if the stored one is accepted, provided it accepts the current config or the history is safe |
| `Propagation.SyncPlacesIff` | agent/pluginmanager/pluginManager.go:416-478 | that holds after every run with a given write history if and only if the agent accepts the current config or the history is safe for it |
| `Propagation.RunView` | common/storage/redis.go:275-346 | only the steps on a config decide what becomes of it in the store, whatever else a run does |
| `Propagation.OneSyncIsExact` | agent/pluginmanager/pluginManager.go:416-478 | one whole sync gives exactly the accepted stored configs although matching versions skip the validity check; a second one changes nothing |
| `StateMaps.StateMap.constructor` | agent/pluginmanager/state.go:39-48 | a new map has no states |
| `StateMaps.StateMap.SetPluginState` | agent/pluginmanager/state.go:50-55 | exactly the given id is updated |
| `StateMaps.StateMap.GetPluginState` | agent/pluginmanager/state.go:66-74 | the state of the id, or an error when there is none |
| `StateMaps.StateMap.DeletePluginState` | agent/pluginmanager/state.go:76-81 | exactly the given id is removed |
| `StateMaps.StateMap.GetAgentStatus` | agent/pluginmanager/state.go:83-96 | one reported config id per plugin-state key, in some order of the keys |
| `StateMaps.StateMap.GetAllPluginState` | agent/pluginmanager/state.go:98-108 | the copy equals the map |
| `PluginManagers.PluginManager.constructor` | agent/pluginmanager/pluginManager.go:67-126 | starts with no tests, which satisfies the invariant on plugin-state keys |
| `PluginManagers.PluginManager.StopAndDeleteSynTest` | agent/pluginmanager/pluginManager.go:481-500 | removes one test, its plugin state and its run data in the store, keeping state keys equal to the cached plugin ids |
| `PluginManagers.PluginManager.StartTestRoutine` | agent/pluginmanager/pluginManager.go:503-563 | adds one test, and under the plugin id made of its name, its namespace and the agent id a state with both counters at -1 that is errored exactly if the plugin is not registered, keeping the keys invariant |
| `PluginManagers.PluginManager.StopDeletedTests` | agent/pluginmanager/pluginManager.go:422-430 | keeps exactly the tests still in the summary, clears the run data of exactly the stopped ones, and reports whether one was stopped |
| `PluginManagers.ClearStep` | agent/pluginmanager/pluginManager.go:490-499 | clearing the run data of one more stopped test keeps "exactly the stopped tests have no run data" |
| `PluginManagers.PluginManager.SyncTest` | agent/pluginmanager/pluginManager.go:433-476 | one id is synced as the protocol's transition says, and not at all when its fetch fails; all others stay, with their states and run data; exactly the stopped tests lose their run data; a change is reported exactly when there is one |
| `PluginManagers.PluginManager.SyncSyntestPluginConfigs` | agent/pluginmanager/pluginManager.go:416-478 | every id is synced as the protocol's transition says; a test that is still listed and whose fetch fails keeps its entry, its plugin state and its run data; this call itself removes the run data of exactly the tests that were removed or replaced; the result is true exactly when the cache changed |
| `PluginManagers.KeptTestKeepsData` | agent/pluginmanager/pluginManager.go:436-445 | a test whose cache entry a sync keeps also keeps its plugin state and everything stored for its runs |
| `PluginManagers.StateKeysFollowCache` | agent/pluginmanager/pluginManager.go:460-563 | in every state reachable with plugin goroutines interleaved, the plugin-state keys are exactly the plugin ids of the cached tests without the one in transition between cache and state map, which has no goroutine |
| `PluginManagers.LoopCanFinish` | agent/pluginmanager/pluginManager.go:460-563 | from every reachable state the sync loop can finish the start or stop it is in, needing from a goroutine no more than its exit: a started test ends up cached with its initial state, a stopped one gone with its state, and nothing else changed |
| `PluginManagers.StatusListsRunningTests` | agent/pluginmanager/state.go:83-96 | at any moment the published status lists every cached test but the one in transition exactly once and nothing else; it is complete exactly when no test is in transition |
| `Lifecycle.BackOffClosedForm` | agent/pluginmanager/pluginManager.go:626-646 | the wait computed in wrapping 64-bit arithmetic has a closed form and lies between one second and five minutes, for every restart count |
| `Lifecycle.BackOffValues` | agent/pluginmanager/pluginManager.go:626-646 | the values: 10, 20, 40, 80 and 160 seconds, five minutes for 5 to 29 restarts, one second at 30 and from 54 on |
| `Lifecycle.BackOffMonotoneIff` | agent/pluginmanager/pluginManager.go:626-646 | the wait grows with the restart count up to a limit if and only if the limit is at most 29 |
| `Lifecycle.WrappedMiddle` | agent/pluginmanager/pluginManager.go:626-646 | for 30 to 53 restarts the wrapped product is negative or above five minutes, by one binary digit of 5^10 |
| `Lifecycle.RunOnce` | agent/pluginmanager/pluginManager.go:579-646 | from the fetched state, one pass shows the plugin as running with both counters raised; it goes on exactly under `always`, or under `onError` after an error, and is then shown as restarting with the wait; otherwise the plugin is left errored or not running, by the error |
| `Lifecycle.RestartLoop` | agent/pluginmanager/pluginManager.go:578-659 | the number of calls, the shared state at every call and the final state, for any wait rule, whatever state it starts in |
| `Lifecycle.StartPlugin` | agent/pluginmanager/pluginManager.go:566-660 | the same with the wrapping wait; the calls stop early only after a cancellation, under `never`, or under `onError` after a run without error; the state left is restarting, errored or not running by policy and error; nothing is called when cancelled at the start or without a state |
| `Lifecycle.RunCountMeaning` | agent/pluginmanager/pluginManager.go:603-624 | every call but the last is followed by another because it was not cancelled and the policy is `always`, or `onError` with an error; when the calls stop before the outcomes do, the last was cancelled, or the policy is `never`, or `onError` without an error |
| `Lifecycle.RestartsMeaning` | agent/pluginmanager/pluginManager.go:579-630 | the restart counter is the number of runs since the last one of more than ten minutes, or since the start |
| `Lifecycle.LifecycleTrace` | agent/pluginmanager/pluginManager.go:544-660 | at every call the status is running, the total counts the earlier calls and bounds the restart counter; `never` calls once; `onError` repeats only after errors; nothing follows a seen cancellation; every wait is within bounds |
| `Broadcasters.StepKeepsInv` | agent/utils/broadcaster.go:77-107 | every publisher, listener and loop step, including a listener that gives up a blocked receive, keeps the channel invariants |
| `Broadcasters.RunKeepsInv` | agent/utils/broadcaster.go:51-107 | so does every schedule |
| `Broadcasters.ListenerStream` | agent/utils/broadcaster.go:51-107 | for every schedule: processing follows publication order; a stream is an order-preserving, duplicate-free selection of the runs processed while subscribed; delivered plus dropped is processed; drops only at full capacity |
| `Broadcasters.OfferOutcome` | agent/utils/broadcaster.go:96-104 | an offered run is appended to the listener's stream exactly if the listener waits or its queue has room; otherwise the stream is unchanged |
| `Broadcasters.GivenUpReceiveGetsNothing` | agent/utils/broadcaster.go:96-104 | a listener that has left its blocked receive is not handed a run |
| `Broadcasters.CapacityAsRequested` | agent/utils/broadcaster.go:56-65 | in every schedule the queue of a listener has, for good, the capacity it subscribed with |
| `Broadcasters.PublishChannelBounded` | agent/utils/broadcaster.go:42-54 | in every schedule at most 1000 published runs wait for the loop |
| `Broadcasters.ReceivesDrainQueue` | agent/utils/broadcaster.go:56-65 | as many receives as there are queued runs hand over the whole stream in order and change nothing else |
| `Broadcasters.StoppedForGood` | agent/utils/broadcaster.go:72-84 | after Stop no schedule processes a run or changes the set of listeners |
| `Broadcasters.StreamIndependentOfOthers` | agent/utils/broadcaster.go:96-104 | schedules that differ only in how other listeners receive give a listener the same channel |
| `Broadcasters.TakenUnsubscriptionLastsIff` | agent/utils/broadcaster.go:86-92 | when the loop takes a listener's unsubscription, the listener is gone through all later schedules if and only if its subscription had been taken before |
| `Broadcasters.OvertakenUnsubscriptionIsLost` | agent/utils/broadcaster.go:86-92 | otherwise it is subscribed from the moment its subscription is taken, through all schedules in which it does not unsubscribe again |
| `Broadcasters.UnsubscribeIsSafeIff` | agent/utils/broadcaster.go:67-70 | an unsubscription takes effect under every schedule if and only if the subscription is no longer queued at the call |
| `Broadcasters.Broadcaster.constructor` | agent/utils/broadcaster.go:42-50 | starts as the empty bus, which satisfies the invariant |
| `Broadcasters.Broadcaster.PublishTestRun` | agent/utils/broadcaster.go:51-54 | queues one run behind those published before and keeps the invariant of the step system |
| `Broadcasters.Broadcaster.HandlePublish` | agent/utils/broadcaster.go:94-104 | one offer of the oldest run to every subscribed channel, none to others, keeping the invariant |
| `Broadcasters.Broadcaster.Execute` | agent/utils/broadcaster.go:51-107 | any schedule of calls, receives and cases of the loop's select, carried out on the object's fields, ends in the state of the step system, so the statements about streams and unsubscribing hold of the object |
| `Broadcasters.OfferToAll` | agent/utils/broadcaster.go:96-104 | the loop over the listeners offers the run once to each, in any order |
| `WorkerPools.StepKeepsInv` | common/utils/workerPool.go:54-95 | every step keeps each job's number of occurrences, the protocol order and lowers the measure |
| `WorkerPools.RunKeepsInv` | common/utils/workerPool.go:54-95 | every schedule is no longer than the measure of its start |
| `WorkerPools.DeadlockFreeIff` | common/utils/workerPool.go:40-95 | no schedule deadlocks if and only if there is no job, or there is a worker and jobs ≤ 2·buffer + workers |
| `WorkerPools.PoolCompletes` | common/utils/workerPool.go:40-95 | a plugin's pool always terminates with all workers returned and the collected jobs a permutation of the submitted ones |
| `PluginClients.SumBound` | agent/plugins/syntests/dns/dns.go:88-106 | marks never exceed the maximum, and reach it exactly when every job scores fully |
| `PluginClients.SumIgnoresOrder` | agent/plugins/syntests/netDial/netDial.go:86-94 | the total does not depend on the order of completion |
| `PluginClients.CollectMarks` | agent/plugins/syntests/httpPing/httpPing.go:118-134 | the collection loop adds up the scores of the results without error |
| `PluginClients.PerformTest` | agent/plugins/syntests/dns/dns.go:63-114 | for any order of results: marks at most the maximum, equal exactly when every job scored fully, and the given answer without jobs |
| `PluginClients.MarksUnderEverySchedule` | common/utils/workerPool.go:40-95 | under every complete schedule of the pool the marks are those of the submitted jobs, within the maximum, and equal to it exactly when every job scores fully |
| `PluginClients.DnsTest` | agent/plugins/syntests/dns/dns.go:130-148 | the marks are the number of lookups that succeed, so all of them exactly when none failed |
| `PluginClients.RepeatWithoutFail` | agent/plugins/syntests/httpPing/httpPing.go:178-202 | a mark exactly when every ping matched, without error and in time; an error exactly when the first unclean ping was late or failed |
| `PluginClients.RetryPing` | agent/plugins/syntests/httpPing/httpPing.go:203-229 | a mark exactly when some attempt that takes place matches without error; an error exactly when all attempts that take place fail |
| `PluginClients.AttemptsByDeadline` | agent/plugins/syntests/httpPing/httpPing.go:203-229 | while the deadline has not passed the retries go up to the retry limit; once it has, only up to the timeout retries |
| `PluginClients.HttpPingTest` | agent/plugins/syntests/httpPing/httpPing.go:143-230 | one mark exactly if the endpoint succeeds by its settings, none with an error, an error when the request cannot be set up |
| `PluginClients.DnsMarks` | agent/plugins/syntests/dns/dns.go:63-114 | under every schedule the dns client ends with marks within domains times repeats, and reaches it exactly if every lookup succeeds |
| `PluginClients.HttpMarks` | agent/plugins/syntests/httpPing/httpPing.go:91-141 | the http client likewise: the maximum exactly if every endpoint succeeds |
| `PluginClients.DialMarks` | agent/plugins/syntests/netDial/netDial.go:65-133 | the netDial client likewise: the maximum exactly if every address can be dialled |
| `Store.FormattedKeysNeverCollide` | common/storage/redis.go:43-59 | formatted keys are equal exactly when kind and id are, for arbitrary ids |
| `Store.KeysFollowHistory` | common/storage/redis.go:88-132 | for every sequence of operations: latest run, last failed run, latest and last unhealthy state and both status hashes are those of the history since the last deletion |
| `Store.LastFailedMeaning` | common/storage/redis.go:102-115 | the last-failed key holds the last run of the history that scored below its maximum, and is absent exactly if there is none |
| `Store.LastUnhealthyMeaning` | common/storage/redis.go:376-411 | the last-unhealthy key holds the last report of the history that was not running, and is absent exactly if there is none |
| `Store.LastMeaning` | common/storage/redis.go:108-115 | "last with a property" means: no later element has it; none only if no element has it |
| `Store.FailedRunIff` | common/storage/redis.go:102-115 | for maxima below 2^53 the float64 ratio is below one exactly when the marks are below the maximum |
| `Store.RunReflected` | common/storage/redis.go:88-124 | writing a run extends the history of its plugin by that run |
| `Store.HealthReflected` | common/storage/redis.go:376-411 | writing a health state extends the history of its plugin by that state |
| `Store.OthersUntouched` | common/storage/redis.go:226-254 | an operation on another plugin, a config or an agent leaves a plugin's six entries alone |
| `Store.DeletionClears` | common/storage/redis.go:226-254 | a deletion empties the six entries of its plugin and of no other |
| `Store.ConfigRoundTrip` | common/storage/redis.go:275-346 | a written config is fetched back with its text, a reset status and its version in the summary, others stay, and deletion removes all of it |
| `Store.StoredRatioIsClassified` | common/storage/redis.go:102-132 | what is read from the run-status hash after a run was written is classified as the exact marks, and as failing exactly if they are below the maximum, for maxima where five decimals suffice |
| `Store.RedisStore.constructor` | common/storage/redis.go:65-78 | starts empty |
| `Store.RedisStore.SetR` | common/storage/redis.go:562-576 | a flat write is a write of one typed key |
| `Store.RedisStore.DelR` | common/storage/redis.go:578-592 | a flat delete is a delete of one typed key |
| `Store.RedisStore.GetR` | common/storage/redis.go:520-544 | a flat read is the typed lookup |
| `Store.RedisStore.HGetAllR` | common/storage/redis.go:626-648 | all fields of a typed hash, empty when missing |
| `Store.RedisStore.HSetR` | common/storage/redis.go:594-608 | one field of one typed hash is set |
| `Store.RedisStore.HDelR` | common/storage/redis.go:610-624 | one field of one typed hash is removed |
| `Store.RedisStore.WriteTestRun` | common/storage/redis.go:88-132 | latest run, the float64 ratio with five decimals, and last failed run when that ratio is below one |
| `Store.RedisStore.DeleteAllTestRunInfo` | common/storage/redis.go:226-254 | the plugin's six entries are removed |
| `Store.RedisStore.WritePluginHealthStatus` | common/storage/redis.go:376-411 | latest health, last unhealthy unless running, and the status field |
| `Store.RedisStore.WriteTestConfig` | common/storage/redis.go:275-321 | raw, reset status, json and summary version of one config |
| `Store.RedisStore.DeleteTestConfig` | common/storage/redis.go:323-346 | the config's three keys and its summary field are removed |
| `Store.RedisStore.WriteTestConfigStatus` | common/storage/redis.go:348-359 | the status key of one config |
| `Store.RedisStore.FetchTestConfig` | common/storage/redis.go:178-192 | the stored config, or not found |
| `Store.RedisStore.WriteAgentStatus` | common/storage/redis.go:473-483 | one agent's field is set |
| `Store.RedisStore.DeleteAgentStatus` | common/storage/redis.go:485-491 | one agent's field is removed |
| `Reconciler.SyntheticTest.constructor` | controller/internal/controller/synthetictest_controller.go:78-83 | a new resource is not deployed and has no agent |
| `Reconciler.SelectRandomAgent` | controller/internal/controller/synthetictest_controller.go:353-366 | picks a member for every admissible random index, and fails only on the empty set |
| `Reconciler.GetValidAgentsForTest` | controller/internal/controller/synthetictest_controller.go:308-323 | exactly the active agents that accept; an error only if some pattern is malformed |
| `Reconciler.UpdateTestConfigInRedis` | controller/internal/controller/synthetictest_controller.go:229-298 | the config is written unless the stored version and the recorded agent are current |
| `Reconciler.Reconcile` | controller/internal/controller/synthetictest_controller.go:59-227 | the decision is one of those the placement rules leave open; store and status change accordingly, and not at all on a requeue |
| `Reconciler.PublishedCarriesSpec` | controller/internal/controller/synthetictest_controller.go:250-292 | a published config has the name, namespace, labels and plugin settings of the resource and the hash of the rest as its version; the selectors are as written unless an agent was picked, and then a wildcard for every `$`, no pod name and the id of the agent |
| `Reconciler.DeployedIffRequestMet` | controller/internal/controller/synthetictest_controller.go:110-224 | a test with two `$` requests is published undeployed; without the list of agents it is requeued; otherwise a published test is deployed exactly if some active agent accepts its selectors with the requests taken out |
| `Reconciler.PublishedStatus` | common/storage/redis.go:348-359 | after every reconcile that is not requeued the status key holds its deployed flag and agent, not the reset status, and the raw key holds the text whenever the config is written |
| `Reconciler.ReconcileDeleted` | controller/internal/controller/synthetictest_controller.go:86-103 | a resource that no longer exists loses its config: nothing can be fetched and the summary has no entry |
| `Reconciler.OnlyChosenAgentAccepts` | controller/internal/controller/synthetictest_controller.go:195-212 | whatever configurations the controller saw, a published single-agent config is accepted by exactly the chosen agent, and by that one if and only if its own configuration meets the request |
| `Reconciler.ChosenAgentMeetsRequest` | controller/internal/controller/synthetictest_controller.go:163-209 | the chosen agent is active and meets the request as published |
| `Reconciler.UnresolvedRequestAcceptedByNone` | controller/internal/controller/synthetictest_controller.go:110-193 | a config that still carries `$` is accepted by no agent |
| `Reconciler.DeployedIffAccepted` | controller/internal/controller/synthetictest_controller.go:110-224 | the status says deployed if and only if some active agent accepts the config as published |
| `Reconciler.PrefixRequestPicksPrefixNode` | README.md:54-55 | `worker$` is assigned to an active agent on a node with the prefix `worker` |
| `Reconciler.AssignmentIsSticky` | controller/internal/controller/synthetictest_controller.go:195-208 | over whole runs of reconciles the agent stays while it remains valid |
| `Reconciler.RepeatedReconcileWritesNothing` | controller/internal/controller/synthetictest_controller.go:269-277 | a published decision is a fixed point: with the same active agents later reconciles keep the agent and write no config key |
| `Reconciler.PublishingStoresIff` | controller/internal/controller/synthetictest_controller.go:229-298 | a reconcile leaves its config in the store if and only if it does not skip the write because of a different config with the same version |
| `Reconciler.PublishingStores` | controller/internal/controller/synthetictest_controller.go:229-298 | with a version function that separates the two configs, the decided config is stored |
| `Reconciler.EditIsPublished` | controller/internal/controller/synthetictest_controller.go:229-298 | with a separating version function, a stored config that differs in plugin settings, labels or selectors is never taken for up to date, and afterwards the store holds the settings and labels of the resource |
| `Reconciler.ReconcileKeepsVersions` | controller/internal/controller/synthetictest_controller.go:269-292 | every reconcile keeps all stored configs carrying their hash |
| `Reconciler.ReconcileIsIdempotent` | controller/internal/controller/synthetictest_controller.go:229-298 | after one reconcile that published, any number of further ones with the same active agents changes no config key |
| `Reconciler.SentinelsAreNoAgentIds` | common/helpers.go:84-86 | `""` and `"multiple"` are never an agent id |
| `Placement.SyncedAgentIsExact` | agent/pluginmanager/pluginManager.go:416-478 | with a safe history, a settled agent runs a config exactly if it is stored and accepted, at the stored version |
| `Placement.SyncedAgentIsPresent` | agent/pluginmanager/pluginManager.go:416-478 | a settled agent runs a config if and only if the stored one is accepted; for a deleted config without any hypothesis on its history |
| `Placement.ReconcileStoresDecision` | controller/internal/controller/synthetictest_controller.go:214-224 | after the steps of a reconcile the interleaved store holds the decided config |
| `Publication.WriteCommandsAreSteps` | common/storage/redis.go:275-321 | the four commands of a config write are no step, no step, SetJson and SetSummary of the interleaved system, for every config |
| `Publication.DeleteCommandsAreSteps` | common/storage/redis.go:323-346 | the four commands of a deletion likewise |
| `Publication.PublishedShows` | controller/internal/controller/synthetictest_controller.go:214-224 | what a reconcile leaves in the store is what its steps leave, derived command by command |
| `Publication.ReconcileIsSteps` | controller/internal/controller/synthetictest_controller.go:229-298 | a run whose steps on a config are those of a reconcile leaves the store that the reconcile leaves |
| `Publication.DeletionIsSteps` | controller/internal/controller/synthetictest_controller.go:95-102 | a run whose steps on a config are those of the reconcile of a missing resource leaves the store without it |
| `Placement.ExactlyOnePlacement` | controller/internal/controller/synthetictest_controller.go:135-224 | after the steps of a reconcile that deployed a `$` test, interleaved with anything else, a settled agent runs it if and only if it is the chosen one and its own configuration meets the request |
| `Placement.OnePlacementIff` | controller/internal/controller/synthetictest_controller.go:195-217 | the exact condition on the write history: every quiet sync of an agent places it rightly if and only if it is the chosen agent and meets the request, or the history is safe for it |
| `Placement.RunningAgentsAreTheChosenOne` | controller/internal/controller/synthetictest_controller.go:135-224 | once every agent has settled, the set of agents that run the test is the chosen one if its own configuration meets the request and empty otherwise; it is the chosen one if the controller saw its actual configuration |
| `Placement.RunningAgentsAccept` | controller/internal/controller/synthetictest_controller.go:110-224 | for every decision, deployed or not, the agents that run the test are those whose own configuration accepts the config as published |
| `Placement.PlainTestRunsWhereItMatches` | controller/internal/controller/synthetictest_controller.go:210-214 | a test without `$` runs exactly on the agents whose own configuration matches it |
| `Placement.UndeployedRequestRunsNowhere` | controller/internal/controller/synthetictest_controller.go:173-193 | a `$` test that was not deployed runs nowhere |
| `Placement.DeletedTestRunsNowhere` | controller/internal/controller/synthetictest_controller.go:86-103 | a deleted test runs nowhere, whatever was written before |
| `Placement.MovingBackBreaksPlacement` | controller/internal/controller/synthetictest_controller.go:195-217 | for all successive reconciles that move a test to a second agent and back, a run with exactly their writes ends with the second agent still running it |
| `Placement.MovingBackHappens` | controller/internal/controller/synthetictest_controller.go:195-217 | such reconciles exist for every single-agent test that two agents can run |
| `Placement.PlaceholderCanBeChosen` | controller/sync/sync.go:98-99 | a placeholder status can be chosen for a plain `$` test although the real agent rejects it, which is the empty case of RunningAgentsAreTheChosenOne |
| `Gc.FetchActiveAgents` | controller/sync/sync.go:201-237 | keeps exactly the agents whose status time does not parse or is younger than the deadline, with the statuses they published |
| `Gc.RegisterPods` | controller/sync/sync.go:94-104 | pods without a status get a placeholder, nothing else changes |
| `Gc.SyncAgents` | controller/sync/sync.go:70-118 | placeholders for new pods, no agents without a pod, everything else unchanged |
| `Gc.DropConfigs` | controller/sync/sync.go:136-152 | exactly the configs without a resource are removed with all their keys |
| `Gc.SyncTests` | controller/sync/sync.go:121-198 | besides that, exactly the stale plugins are removed with all their data; nothing is touched when nothing is stale |
| `Gc.SyncAll` | controller/sync/sync.go:37-67 | the composition of both; a clean store stays identical |
| `Gc.SurvivorsAreLive` | controller/sync/sync.go:154-195 | after a pass the agents are the pods, no summary entry lacks a resource, and a test-run entry survives exactly if it does not parse or its pod exists, is active and reports the test |
| `Gc.FreshRunSurvivesIff` | controller/sync/sync.go:154-195 | for slash-free names, the entry of a run survives a pass exactly if its agent's pod exists, has a status that is younger than the deadline or unreadable, and lists the test |
| `Gc.OnePassIsEnough` | controller/sync/sync.go:37-67 | a second pass at the same time finds nothing to do |
| `Gc.FailedPodListingWipes` | controller/sync/sync.go:81-84 | with an empty listing of pods every agent and every well-formed test-run entry is gone |
| `Gc.FailedTestListingWipes` | controller/sync/sync.go:125-128 | with an empty listing of resources the summary is empty and every config it listed is gone |
| `Gc.HealthSurvivors` | controller/sync/sync.go:154-195 | a plugin-status entry survives exactly if it has no test-run entry or that entry survives, and its health keys with it |
| `Gc.ConfigSurvivors` | controller/sync/sync.go:136-152 | a config loses its keys exactly if the summary lists it and it has no resource |
| `Summary.LegacyStatusIsExact` | restapi/main.go:541-552 | for maxima below 2^53 the classification of the float64 ratio is a comparison of marks, and below one means marks below the maximum; a maximum of zero is neither failing nor passing |
| `Summary.FiveDecimalsAgree` | common/storage/redis.go:102-132 | for maxima where five decimals suffice, the stored and parsed float64 ratio is classified as the exact marks |
| `Summary.RoundTo5IsNearest` | common/storage/redis.go:126-128 | the printed five decimals are the nearest ones, and in a tie the even ones |
| `Summary.FiveDecimalsSufficeIff` | common/storage/redis.go:126-132 | those maxima (up to 100000, and even ones up to 200000) are exactly the ones without a misclassified result |
| `Floats.QuotientIsClose` | common/storage/redis.go:102-102 | the float64 quotient is within half a unit in the last place of the fraction and exact at 0, 1/2 and 1 |
| `Floats.NearestIff` | common/storage/redis.go:102-102 | the rounding of the float64 division: the nearest integer of last places, and in a tie the even one |
| `Floats.BelowOneIff` | common/storage/redis.go:109-109 | the float64 quotient is below one exactly when the fraction is, for denominators up to 2^53 |
| `Floats.TieAt200000` | common/storage/redis.go:126-128 | the three border ratios with maximum 200000 fall to the right side of their decimal ties |
| `Summary.PingStatus` | restapi/main.go:453-504 | the fold over some iteration order; 3 exactly when no entry with at least four id pieces holds a ratio below one; every failed test carries the namespace, config id, display name and status of a failing entry with its name |
| `Summary.FailedTestsAreTheFailing` | restapi/main.go:471-484 | the failed tests are the test names of the failing entries, each with the data of one of them |
| `Summary.ResponseMeaning` | restapi/main.go:453-504 | both in terms of the pieces of the plugin id, for every iteration order |
| `Summary.NoFailingStatuses` | restapi/main.go:455-471 | the folded statuses lie in 0 to 2 and are empty exactly when no entry fails |
| `Summary.OverallMeaning` | restapi/main.go:497-503 | the fold is 3 without failures and 1 exactly when a status 1 comes after every status 0 |
| `Summary.OverallIsWorst` | restapi/main.go:497-503 | without a failing status 0 the fold is the minimum, in every order |
| `Summary.OverallIgnoresOrderIff` | restapi/main.go:453-504 | all iteration orders of the status map give the same overall status if and only if no failing entries of status 0 and 1 coexist |
| `TestRuns.AskPlugin` | agent/pluginmanager/syntest.go:279-323 | an error or a timeout always carries a failing result; otherwise the result is the plugin's |
| `TestRuns.RunTest` | agent/pluginmanager/syntest.go:159-211 | exactly one publication with this agent's id, failing whenever the run ended in an error; with a full publish channel the send blocks and nothing is published yet |
| `TestRuns.TestPlugin` | agent/pluginmanager/syntest.go:325-354 | one publication when the plugin was reached and initialised and the channel has room, none otherwise |
| `TestRuns.ExportTestRuns` | agent/pluginmanager/storage.go:126-149 | the runs of this agent are written in the order received, those of other agents are skipped |
| `TestRuns.ExportReflected` | agent/pluginmanager/storage.go:126-149 | the plugin's keys afterwards are those of its exported history |
| `TestRuns.StoppedDataReappearsIff` | agent/pluginmanager/pluginManager.go:490-499 | after a stop, some data of the test is back in the store exactly if a later operation writes it and none deletes it after that |
| `TestRuns.QueuedRunReappearsIff` | agent/pluginmanager/storage.go:136-146 | data of a stopped plugin comes back exactly if a run is queued on this agent whose name, namespace and agent make up the plugin id |
| `TestRuns.StopRemovesExported` | agent/pluginmanager/pluginManager.go:490-499 | stopping a config on an agent removes everything the exporter wrote for runs of that config there, and nothing of any other config |
| `TestRuns.ExportedEntryIsStaleIff` | controller/sync/sync.go:154-195 | the collector takes an exported entry for stale exactly if the agent of the run is not active or does not list the run's test |
| `TestRuns.ErroredRunIsLatestAndLastFailed` | agent/pluginmanager/storage.go:131-147 | an errored run consumed on its own agent is latest and last failed under the plugin id made of its name, namespace and agent, whatever the store held, until another run of its plugin is consumed |
| `TestRuns.PublishedRunIsStoredOrDropped` | agent/pluginmanager/storage.go:126-149 | for every schedule, a run processed while the exporter is subscribed was dropped at a full queue, waits in the queue, or was received and is written under the plugin id made of its name, namespace and agent; a failed one is then latest and last failed unless a later run of its plugin was received |

## Left out

- HTTP routing, JSON, YAML and protobuf encoding, the pub/sub notifications and the retry wrappers of the Redis client.
- Multi-command writes that fail half way: the version check reads the json key while agents read the summary, so a write that fails between the two is outside the model.
- The Kubernetes client, leader election and controller set-up: pods, resources and statuses are values.
- Process launch, gRPC stubs, process killing and log buffers: plugin calls are arbitrary outcomes.
- MD5 and the rendering that is hashed: the version is a function of the config.
- Character classes and escapes of filepath.Match: only literals, `*` and `?` are modelled, everything else is the arbitrary matcher.
- Sleeps, jitter and tickers, the Prometheus exporter, the curl and ICMP plugins, the Python plugins and the details string of the ping response.
- The raw and status keys in the interleaved system: no agent reads them.
- Goroutines and channels of the worker pool, and the plugin goroutines beside the sync loop: they are step systems over values, not threads over shared objects.
- The select of the broadcaster after Stop: a stopped loop takes no further step, although Go may serve a ready channel once more before it returns.
- Integer widths of marks and counters, except for the restart wait: they are unbounded.
- The rounding of marks above 2^53 when they are converted to float64.
- Reconciler.AssignmentIsSticky: excludes specs with a `$` node and a `$` pod name together, because the code rejects those and clears the agent.
- Summary.FiveDecimalsSufficeIff: is stated for maxima below 2^53, which float64 holds exactly.
- PluginManagers.PluginManager.StartTestRoutine: leaves out the runtime fields that are put into the plugin's copy of the config; the cached config does not have them.
- PluginClients.PerformTest: takes the collected results as an argument; that they are a permutation of the submitted jobs is WorkerPools.PoolCompletes.
- PluginManagers.PluginManager.SyncSyntestPluginConfigs: the clause on run data is about the writes of the call itself; what the exporters write to the same store meanwhile is StoppedDataReappearsIff.
