# stroppy-cloud: verified models

Dafny models of the parts of stroppy-cloud whose behaviour cannot be read off one function body,
with proofs about every run, every interleaving and every input. `dafny verify dfyconfig.toml`
checks all of it.

- **The run engine** (`internal/core/dag`). `Dag`, `DagGraph` and `CycleSearch` hold the graph,
  its validation and the depth-first cycle search. `RunMachine` describes a run as a transition
  system: the control point of `Run`, the status map and errors, one worker record per goroutine,
  the caller's context and the teardown timeout. `RunInvariant` proves one inductive invariant of it,
  `RunTheorems` and `RunExact` what follows for whole runs. `Executor` is the source's object, with its fields,
  loops and goroutines, and is proved to follow the machine step by step; so its `Run`
  returns if every task does, and every theorem about runs is about it. `Backoff` is the retry delay in 64-bit
  arithmetic.
- **Phase graphs and recovery** (`internal/domain/run/builder.go`, `internal/domain/api/api.go`).
  `Builder` has the graph of every configuration, `PhaseOrder` which phases there are and which
  wait for which. `Recovery` has `Start` and `RecoverRun`, snapshots, resuming, and any chain of
  crashes; `PhaseRuns` is about the order in which runs of these graphs start their phases.
- **Addresses** (`internal/core/ips/ips.go`). `Bits` and `IpBytes` give the byte loops and masks
  their integer meaning, `Networks` membership and blocks; `FirstFree`, `RandomAddress`, `Subnets`
  and `SubnetSearch` are the allocators over integers, and `UnusedAddress` says when what
  `FirstFreeIP` finds is the least unused address.
- **The poll protocol** (`internal/domain/agent/client_poll.go`). `PollProtocol` is a transition
  system over any number of concurrent calls, split where the mutex is released or a channel may
  block; `PollInvariant` and `PollTheorems` prove it, `PollProgress` says where its calls get to,
  whatever the ids, `PollGroups` what the Sends of a `SendAll` do to each other, and `SharedIDs` is
  about ids used twice.
  `PollClient` is the source's object, with `Send`, `SendAll`, `Poll` and `DeliverReport`: between
  their atomic sections the other calls take any number of steps, every step is logged, and the
  log is always a run of the transition system; so every theorem about runs is about them.
- **The log buffer** (`internal/domain/agent/agent_server.go`): `LogBuffer`, with `Decimal` for `%d`.
- **Configurations** (`machines.go`, `state.go`, `dbconfig/ydb.go`): `Machines`, `RunState`, and
  `YdbHosts` over the general `Substitution`.

How the pieces fit: a method that changes state is proved against a function of the old state, and
the lemmas are about that function. The transition systems say which steps are possible; a run is
any sequence of them, so a statement about runs covers every order of goroutines and every moment
of a cancel, crash or report.

## Where the promise does not hold

Each of these is proved as an exact condition or with a concrete input.

- The waits a policy makes are the documented `min(BaseDelay * 2^k, MaxDelay)` exactly when the base
  is within the cap and the doublings made stay inside 64 bits; the first wait is never capped, and
  for non-negative durations a doubling that leaves 64 bits makes a wait negative
  (`Backoff.BackoffExact`, `Backoff.FirstWaitExact`, `Backoff.NegativeWait`).
- A cancel seen after all nodes are done still yields "run cancelled"
  (`RunTheorems.CancelAfterCompletion`, `RunTheorems.LateCancelHappens`).
- `NextSubnetByCount` starts from the address as written, so it partitions its parent exactly when
  the parent is canonical; counts are taken modulo 2^32, and a parent of prefix 0 is rejected or
  divides by zero (`Subnets.PartitionExact`, `Subnets.LargeCounts`, `Subnets.WholeSpaceParent`).
- An existing subnet written as an IPv4 network in IPv6 notation is recorded with a range that ends
  before it begins. `NextSubnetWithIPs` then returns a block on top of it exactly when it holds the
  block's first address (`SubnetSearch.FreeExact`, for example ::ffff:10.0.0.0/104 in
  `SubnetSearch.MissedExample`); one that starts at 0.0.0.0 blocks every candidate
  (`SubnetSearch.FalseBlock`). The result is right exactly for the lists named in
  `SubnetSearch.NextSubnetWithIPs`.
- In an IPv6 block that contains all IPv4-in-IPv6 addresses, used ones are not recognised.
  `FirstFreeIP` still gives the least unused address, and an error exactly when there is none, exactly
  unless every candidate up to and including the first of those addresses is used
  (`UnusedAddress.UnusedExact`), which takes almost 2^32 used addresses and can happen in every such
  block (`UnusedAddress.FewUsed`, `UnusedAddress.EnoughUsed`).
- The comment in `RandomIP` says that /31 and /32 are handled specially; the code rejects them
  (`RandomAddress.NothingToDraw`).
- The text on the wire gives the lines back exactly when none of them starts like
  `[repeated n times] ` (`LogBuffer.TextLossless`, `LogBuffer.TextAmbiguous`).
- Placeholders are replaced one after the other, so a host that holds a listed placeholder is
  replaced again (`YdbHosts.WrittenExact`, `YdbHosts.LaterHostClobbers`). In an edited body,
  placeholders that share underscores are taken apart (`YdbHosts.GluedPlaceholders`), and the text
  is that of a single pass exactly when choosing the occurrences by number and choosing them in
  the order of the text comes to the same (`YdbHosts.EditedBody`).
- `FillMachinesFromTopology` ignores the override's disk type, which baking applies
  (`Machines.BakeFillExact`).
- When two `Send` calls share an id given by the caller, as the targets of a `SendAll` whose command
  has an id do, the second to register takes the entry over, and the first to unregister deletes it.
  The other Send is then never reached by a report exactly when none is on its way to it
  (`SharedIDs.SecondRegistersExact`, `SharedIDs.FirstUnregistersExact`). `SharedIDs.SharedIDRun` has
  a run of one `SendAll` for each, without any cancel.
- The first poll of an agent is said to make it healthy; the code forgets it unless the machine was
  marked ready or a `Send` already waits for it, and takes a later one (`PollProgress.ConnectedExact`).
- `Validate` does not look for duplicate ids (`DagGraph.DuplicatesValidate`).
- The comment above `Run` draws a cancelled node as one that was running; pending nodes are
  cancelled too (`RunTheorems.UnreachedNodes`).

## Model

| member | source | states |
|---|---|---|
| CycleSearch.DetectCycle | internal/core/dag/dag.go:165-200 | In whatever order the map is iterated: no error exactly when no node reaches itself; the first error names a node on a cycle; every error names a node from which a cycle can be reached |
| CycleSearch.Search.Visit | internal/core/dag/dag.go:172-191 | One recursive visit: white nodes decrease, so it ends; without an error the node is black and the grey nodes are again the call stack; with an error every grey node reaches a cycle, and lies on one if it is the first error |
| Dag.TopologicalNoCycle | internal/core/dag/dag.go:165-200 | Nothing in a topological order lies on a cycle, which is why a finished node may be skipped |
| Dag.RankedAcyclic | internal/core/dag/dag.go:165-200 | A rank that falls along every dependency rules out every cycle |
| Dag.SomeNodeReady | internal/core/dag/dag.go:72-83 | In a valid graph, if anything is left to do then some node not done has all its dependencies done |
| DagGraph.Graph.Add | internal/core/dag/dag.go:45-53 | Refuses exactly the ids already present, appends otherwise, and keeps ids unique |
| DagGraph.Graph.Index | internal/core/dag/dag.go:148-154 | The id index, where a later duplicate replaces an earlier one |
| DagGraph.Graph.Validate | internal/core/dag/dag.go:56-69 | Accepts exactly the graphs whose dependencies exist and which have no cycle; each error names a real fault |
| DagGraph.Graph.Ready | internal/core/dag/dag.go:72-83 | The loop computes the ready list of the specification, in graph order |
| DagGraph.ReadyExactly | internal/core/dag/dag.go:72-83 | The ready list holds exactly the nodes not done whose dependencies are all done, each once |
| DagGraph.Graph.DepsComplete | internal/core/dag/dag.go:156-163 | True exactly when every dependency is done |
| DagGraph.Graph.ReadyAlwaysRun | internal/core/dag/dag.go:135-144 | The loop computes the list of unsettled AlwaysRun nodes, in graph order |
| DagGraph.PendingAlwaysRunExactly | internal/core/dag/dag.go:135-144 | That list holds exactly the AlwaysRun nodes not settled, whatever their dependencies |
| DagGraph.Marshal | internal/core/dag/dag.go:86-92 | Serialises exactly the valid graphs, without task objects |
| DagGraph.Registry.Unmarshal | internal/core/dag/dag.go:110-129 | Succeeds exactly when every type is registered and the graph is valid, and gives every node a task of its type |
| DagGraph.SameShapeValid | internal/core/dag/dag.go:110-129 | Validity, uniqueness and ids depend only on what is serialised |
| DagGraph.DuplicatesValidate | internal/core/dag/dag.go:45-69 | Validate alone accepts some graph with a duplicate id; only Add rules it out |
| Backoff.BackoffExact | internal/core/dag/executor.go:239-264 | For all 64-bit durations of either sign: every wait a policy makes is min(BaseDelay * 2^k, MaxDelay), exactly when it makes none, or its base is within the cap and the doublings it makes stay inside 64 bits |
| Backoff.FirstWaitExact | internal/core/dag/executor.go:239-258 | The first wait is the documented one exactly when BaseDelay <= MaxDelay, because the cap is not applied to it |
| Backoff.LaterWaitsExact | internal/core/dag/executor.go:260-263 | The waits after the first are the documented ones exactly while no doubling leaves 64 bits; a negative cap below the base is left to BackoffExact |
| Backoff.NegativeWait | internal/core/dag/executor.go:260-263 | For non-negative durations, when a doubling wraps, one of the waits made is negative |
| Backoff.LargeCapIsFine | internal/core/dag/executor.go:239-264 | A cap of 2^62 is harmless for a policy of three retries of five seconds, and not for one of enough retries: the condition is about the waits made |
| RunInvariant.ApplyInv | internal/core/dag/executor.go:103-281 | Every enabled step of Run, its goroutines, the caller's context and the teardown timeout keeps the run invariant |
| RunInvariant.RunInv | internal/core/dag/executor.go:103-281 | The invariant holds in every state of every run, for every interleaving and cancel moment |
| RunInvariant.NothingReadyAllDone | internal/core/dag/executor.go:130-133 | At an uncancelled loop head nothing is ready exactly when everything is done |
| RunInvariant.TeardownReadyEmpty | internal/core/dag/executor.go:197-211 | The teardown loop finds nothing exactly when every AlwaysRun node has been touched |
| RunTheorems.SettledIsFinal | internal/core/dag/executor.go:304-317 | Done, failed and cancelled are never overwritten by either loop |
| RunTheorems.DependencySafety | internal/core/dag/executor.go:130-155 | A node started by the main loop had all its dependencies done at that moment and they stay done; outside teardown a running node has all its dependencies done |
| RunTheorems.AtMostOnce | internal/core/dag/executor.go:112-281 | Over both loops each node is handed to executeWithRetry at most once, restored nodes never; it gets at most MaxRetries+1 attempts and its waits are the backoff sequence |
| RunTheorems.ErrorsCountFailures | internal/core/dag/executor.go:311-317 | One recorded error per failed node and none for any other |
| RunTheorems.HeadProgress | internal/core/dag/executor.go:112-133 | At every reachable uncancelled loop head something is ready unless everything is done |
| RunTheorems.NoDeadlock | internal/core/dag/executor.go:103-230 | Until it returns, the executor itself can always take a step, without help of a cancel or timeout |
| RunTheorems.RunTerminates | internal/core/dag/executor.go:103-230 | No run is longer than a bound fixed by the graph and the policy |
| RunTheorems.BatchBound | internal/core/dag/executor.go:112-161 | At most one main batch per node, at most one teardown batch in all |
| RunTheorems.ResultExact | internal/core/dag/executor.go:163-194 | The returned error is the first failure exactly when some node failed, "run cancelled" exactly when a cancel was seen and none failed, nil otherwise, and then every node is done; "nodes not reached" cannot occur |
| RunTheorems.CancelAfterCompletion | internal/core/dag/executor.go:114-128 | A cancel seen at the loop head after all nodes are done still yields "run cancelled", with every node still done |
| RunTheorems.LateCancelHappens | internal/core/dag/executor.go:114-128 | Such a state is reached: a resumed run whose nodes were all done, and whose context ends before the first loop head |
| RunTheorems.TeardownCoverage | internal/core/dag/executor.go:163-230 | At return nothing runs, and each AlwaysRun node was restored as done or handed out once; it was executed exactly when the retry limit is not negative |
| RunTheorems.TeardownAfterMustComplete | internal/core/dag/executor.go:143-170 | Teardown starts AlwaysRun nodes only; after the main loop every MustComplete node it started is done or failed |
| RunTheorems.TeardownSparesOrdinary | internal/core/dag/executor.go:197-211 | A teardown batch hands out no ordinary node |
| RunTheorems.NoStartAfterCancel | internal/core/dag/executor.go:114-128 | After the loop head that saw the cancel, no ordinary node is started, in any continuation |
| RunTheorems.UnreachedNodes | internal/core/dag/executor.go:114-161 | A node never handed out ends cancelled if the cancel was seen, and pending if the run stopped for a failure |
| RunExact.BatchStartsExactly | internal/core/dag/executor.go:130-155 | In every run a batch starts exactly the nodes that are not done and whose dependencies are all done, each once and from pending to running, and changes the status of no other |
| RunExact.LeftPending | internal/core/dag/executor.go:130-161 | A node that is still pending had, whenever a batch began, a dependency that was not done |
| RunExact.GivenUpExactly | internal/core/dag/executor.go:239-281 | A failed node had every attempt the policy allows fail and none succeed, with a wait between any two, and its recorded text names the number of attempts and the last error; a node is done exactly if it was restored or one call succeeded |
| RunExact.ReturnedFate | internal/core/dag/executor.go:239-281 | At return a node that was handed out is failed exactly if all its attempts failed |
| RunExact.HaltedForever | internal/core/dag/executor.go:114-161 | Once a node has failed, the cancel was seen, or the context ended before the main loop was over, no ordinary node is started any more, in any continuation |
| RunExact.SuccessExact | internal/core/dag/executor.go:163-194 | The result is nil exactly if at no moment of the run a node had failed, the cancel was seen, or the context had ended before the main loop was over |
| Executor.Executor.MarkNodeDone | internal/core/dag/executor.go:91-97 | Adds one id to the restored set and changes nothing else |
| Executor.Executor.MarkNodeFailed | internal/core/dag/executor.go:311-317 | Status, text and error list after a failure |
| Executor.Executor.HasFailedOrCancelled | internal/core/dag/executor.go:319-331 | True exactly when a cancel was seen or some status is failed |
| Executor.Executor.GetReadyNodes | internal/core/dag/executor.go:283-302 | Nothing after a failure or cancel; otherwise exactly the nodes that are not done with all dependencies done, in graph order |
| Executor.Executor.SetRunning | internal/core/dag/executor.go:135-140 | Exactly the batch becomes running |
| Executor.Executor.SetCancelled | internal/core/dag/executor.go:115-125 | Exactly the pending ordinary nodes become cancelled |
| Executor.Executor.TakeSnapshot | internal/core/dag/executor.go:343-383 | Records every node's id, status and error text, the graph if it is valid, the exported state, and is finished exactly when no node is pending or running |
| Executor.Executor.Save | internal/core/dag/executor.go:333-341 | Whatever reaches the storage shows one moment of the run, its statuses and exactly what the shared state held then, with the graph and, if there is an exporter, the run configuration; each save offers the statuses of its own moment, and may be lost |
| Executor.Executor.LoopHead | internal/core/dag/executor.go:242-266 | For either choice of a select that finds both its cases ready: given up exactly when the attempts are used up, cancelled exactly when the end of the context is noticed in a wait, otherwise executed; each an enabled step of the machine |
| Executor.Executor.CancelInWait | internal/core/dag/executor.go:250-258 | A cancel in the retry wait is an enabled step and ends the goroutine |
| Executor.Executor.ExecuteReturns | internal/core/dag/executor.go:266-278 | A success ends the goroutine with the node done, an error takes it to the next attempt with that error; both are enabled steps |
| Executor.Executor.TasksWrite | internal/core/dag/executor.go:266-278 | Tasks may write anything to the shared state between any two steps, while one of them is between its call and its return, and the log keeps what it holds |
| Executor.Executor.RunGoroutines | internal/core/dag/executor.go:143-155 | Goroutines stepped in any order, with cancels in between, follow the machine until all are idle |
| Executor.Executor.MainLoop | internal/core/dag/executor.go:112-161 | The main loop ends and is a run of the machine up to its stop |
| Executor.Executor.TeardownLoop | internal/core/dag/executor.go:197-230 | The teardown loop ends and follows the machine |
| Executor.Executor.ComputeResult | internal/core/dag/executor.go:173-193 | The result read from the fields is the machine's result |
| Executor.Executor.Run | internal/core/dag/executor.go:103-194 | Run returns, provided every Execute does; what it did is a complete run of the machine from the restored nodes to the returned result under the policy that was set, every snapshot it stored shows a cut of that run and carries its graph and configuration, and the last one it offered shows the final statuses |
| Executor.LogIsRun | internal/core/dag/executor.go:103-194 | A log kept step by step is a legal sequence of actions ending in the present state |
| Executor.SeenAtPrefix | internal/core/dag/executor.go:333-383 | A stored snapshot shows the statuses of a moment of the run, also when it was stored late, and importing its state gives what was held at that moment |
| Executor.HeldUntilCalled | internal/domain/run/state.go:11-37 | Until the first task is called the shared state is what it was when the run began |
| Recovery.SnapshotClosed | internal/core/dag/executor.go:333-383 | In every snapshot any run can take the done set is closed under dependencies, AlwaysRun nodes aside |
| Recovery.StoredClosed | internal/core/dag/executor.go:333-341 | The same holds of every snapshot that reached the storage, in whatever order it was stored |
| Recovery.RestoredNotExecuted | internal/core/dag/executor.go:91-97 | A resumed run never hands out or executes a restored node, which stays done |
| Recovery.RemainingTasksSucceed | internal/domain/api/api.go:155-180 | If no task exhausts its attempts and nobody cancels, the run, fresh or resumed, returns nil with every node done |
| Recovery.LivesClosed | internal/domain/api/api.go:128-181 | Over any chain of crashes and recoveries from any stored cut, such as RecoverStored makes, the restored set stays closed under dependencies |
| Recovery.NeverExecutedAgain | internal/domain/api/api.go:164-169 | A node once restored as done is not executed in that or any later incarnation |
| Recovery.Start | internal/domain/api/api.go:65-94 | Each failure exactly when it occurs; otherwise a complete run of the built graph from nothing, under the given retry policy and with the machines filled in, whose snapshots can all be recovered from |
| Recovery.RecoverRun | internal/domain/api/api.go:128-181 | Each failure exactly when it occurs: no run state, an undecodable configuration, dependencies not built, an unsupported database; otherwise it imports the state, fills the machines, chooses the graph, and performs a complete run under the given retry policy that starts from exactly the nodes recorded as done and with the imported state |
| Recovery.StoredResumes | internal/core/dag/executor.go:333-383 | A run of the same graph that restores the done ids of any stored snapshot resumes the run that stored it, at the moment whose shared state the snapshot holds |
| Recovery.RecoverStored | internal/domain/api/api.go:125-181 | Recovering from any snapshot that a started or recovered run stored succeeds: the new run, under the given retry policy, resumes the old one at one moment of it, begins with the machines, containers and endpoints the old one held at that moment, and can be recovered from in turn |
| Recovery.FailedAfterAll | internal/core/dag/executor.go:239-281 | After Start or RecoverRun with a policy, a failed node was called MaxRetries+1 times and failed each time, with MaxRetries waits |
| Recovery.ChosenExact | internal/domain/api/api.go:155-160 | The stored graph is used exactly if it is valid and all its types are phases of the configuration, and then each node gets the task of its type; otherwise the built graph |
| Recovery.ChooseGraph | internal/domain/api/api.go:155-160 | The snapshot's nodes with their tasks put back exactly if all types are registered and they are valid, the built graph otherwise; valid in both cases, with unique ids exactly unless the snapshot's graph is used and repeats one |
| Recovery.MarkRestored | internal/domain/api/api.go:164-169 | Exactly the ids recorded as done are marked done |
| Recovery.RunStroppyStartsLast | internal/domain/run/builder.go:75-185 | In every run of every built graph, fresh or resumed, run_stroppy starts only when every other phase but teardown is done |
| Builder.PhaseBuilder.Build | internal/domain/run/builder.go:75-185 | Succeeds exactly for a supported database kind; the appended nodes are the phase graph whose ids, flags and order PhaseOrder states, and every phase has its factory |
| Builder.PhaseBuilder.AddDatabase | internal/domain/run/builder.go:92-118 | Install and configure phases, with or without Patroni, extend the graph as specified |
| Builder.PhaseBuilder.AddEtcd | internal/domain/run/builder.go:237-242 | The etcd phases, exactly when they are needed |
| Builder.PhaseBuilder.AddPgBouncer | internal/domain/run/builder.go:244-251 | The PgBouncer phases and run_stroppy's dependency on them, exactly when they are needed |
| Builder.PhaseBuilder.AddProxy | internal/domain/run/builder.go:253-262 | The proxy phases and run_stroppy's dependency on them, exactly when they are needed |
| Builder.PhaseBuilder.AddYDB | internal/domain/run/builder.go:229-235 | The YDB start phases and run_stroppy's dependency on them, exactly when they are needed |
| Builder.PhaseBuilder.AddStroppy | internal/domain/run/builder.go:147-179 | The last three phases with the collected dependencies |
| Builder.BuiltMember | internal/domain/run/builder.go:75-185 | The built graph holds exactly the nodes of the phases the configuration needs |
| Builder.BuiltValid | internal/domain/run/builder.go:181-185 | The graph of every configuration has unique ids and passes Validate |
| Builder.RunStroppyIsLast | internal/domain/run/builder.go:151-175 | Every phase but teardown is an ancestor of run_stroppy, for every configuration |
| Builder.NetworkIsFirst | internal/domain/run/builder.go:78-83 | Network is an ancestor of every other phase, for every configuration |
| PhaseOrder.BuiltIds | internal/domain/run/builder.go:75-227 | The ids of the graph of every configuration, said from its kind and topology: nine phases always, and those of etcd, Patroni, PgBouncer, the proxy and YDB exactly if it asks for them |
| PhaseOrder.BuiltFlags | internal/domain/run/builder.go:75-185 | Exactly network and machines must complete, and only teardown always runs |
| PhaseOrder.OrderExact | internal/domain/run/builder.go:75-262 | Which phases a phase comes after, directly or not, for every configuration: exactly those of a fixed table, in which each configure phase comes after its install phase and the database, the database after etcd and Patroni, and monitoring after the YDB database |
| PhaseRuns.StartsInOrder | internal/domain/run/builder.go:75-262 | In every run of every built graph, fresh or resumed, a phase starts only when every phase of the table before it is done |
| PhaseRuns.DatabaseFirst | internal/domain/run/builder.go:92-145 | In particular proxy, pooler, monitoring and YDB cluster are configured only on a configured database, and the database only once installed, with etcd and Patroni in place where there are any |
| PhaseRuns.TeardownOfBuilt | internal/domain/run/builder.go:78-83 | After the main loop network and machines, if started, are done or failed; the teardown loop starts the teardown phase alone, which at return was handed out once |
| Builder.RestoredIsBuilt | internal/domain/api/api.go:149-160 | Unmarshal after Marshal gives the built graph back, tasks included |
| IpBytes.IncIP | internal/core/ips/ips.go:57-67 | The byte loop computes the successor of the specification in place |
| IpBytes.SuccessorValue | internal/core/ips/ips.go:57-67 | That successor is big-endian plus one modulo 256^n |
| IpBytes.BlockValues | internal/core/ips/ips.go:69-77 | Masking an address gives the start of its block and setting the host bits gives start + 2^h - 1, for every prefix and length |
| IpBytes.IsGreaterOrEqual | internal/core/ips/ips.go:94-113 | The bytewise comparison is integer comparison |
| Networks.ContainsExact | internal/core/ips/ips.go:24-43 | Network membership as an integer range, for every network and every address of 4 or 16 bytes, with the IPv4-in-IPv6 forms told apart |
| Networks.KeyExact | internal/core/ips/ips.go:15-27 | The text of an address, by which used addresses are compared, tells 4- and 16-byte addresses apart exactly by their 16-byte form |
| Networks.TakenExact | internal/core/ips/ips.go:15-27 | Inside the block an address counts as taken exactly when it is in use, except IPv4-in-IPv6 addresses of an IPv6 block wider than /96, which never count |
| FirstFree.UsedKeys | internal/core/ips/ips.go:15-27 | The set built from the used addresses holds exactly the taken ones |
| FirstFree.LastIP | internal/core/ips/ips.go:69-77 | The loop that sets the host bits ends with the last address of the block, as BlockValues gives it |
| FirstFree.PaddedStart | internal/core/ips/ips.go:35-39 | The search starts at network + 4, modulo the address space |
| FirstFree.StartCheck | internal/core/ips/ips.go:41-45 | The check before the loop passes exactly when the block has a candidate, and then nothing wrapped |
| FirstFree.FirstFreeIP | internal/core/ips/ips.go:14-55 | The least address in [network+4, broadcast-1] that is not taken, and an error exactly when there is none; and it is the least unused one, with an error exactly when all are in use, exactly when the block is not blind |
| UnusedAddress.UnusedExact | internal/core/ips/ips.go:14-55 | The least address not taken is the least unused one, with none exactly when all are in use, exactly when the block is not blind: an IPv6 block that contains the IPv4-in-IPv6 addresses, with every candidate up to and including the first of them in use |
| UnusedAddress.NarrowIsNotBlind | internal/core/ips/ips.go:14-55 | IPv4 networks and IPv6 networks of prefix 96 or more are never blind |
| UnusedAddress.FewUsed | internal/core/ips/ips.go:14-55 | With fewer used addresses than candidates up to the first IPv4-in-IPv6 one, at least 2^32 - 3, no block is blind |
| UnusedAddress.EnoughUsed | internal/core/ips/ips.go:14-55 | For every block that holds the IPv4-in-IPv6 addresses, that many used addresses make it blind |
| RandomAddress.AddBigIntToIP | internal/core/ips/ips.go:155-171 | The padded sum is the address plus the offset |
| RandomAddress.NothingToDraw | internal/core/ips/ips.go:116-135 | Nothing can be drawn exactly when at most one host bit is left |
| RandomAddress.RandomInside | internal/core/ips/ips.go:137-152 | Every drawn address lies strictly between network and broadcast |
| RandomAddress.RandomOnto | internal/core/ips/ips.go:137-152 | Every address strictly between them is drawn by exactly one of the random numbers the source can give |
| Subnets.RoundTrip | internal/core/ips/ips.go:324-336 | The conversions between four bytes and 32 bits are inverse to each other |
| Subnets.ResultExact | internal/core/ips/ips.go:176-226 | The result for every parent as it is written, every new prefix and every count: block number count modulo 2^32 from the written address on if there are that many, where the parent runs past the end of the address space only blocks that end past it too, and the rejections |
| Subnets.CountedSubnet | internal/core/ips/ips.go:198-226 | For a canonical parent count c gives network + c·size, or is rejected from the number of blocks on; no 32-bit operation wraps |
| Subnets.HeldByOne | internal/core/ips/ips.go:198-226 | An address of the parent lies in exactly one of the counted subnets, the one its offset names |
| Subnets.PartitionExact | internal/core/ips/ips.go:176-226 | Counts 0 to 2^(newPrefix-parentPrefix)-1 give aligned subnets inside the parent that cover it, with no address in two of them, exactly when the parent is written with its network address |
| Subnets.LargeCounts | internal/core/ips/ips.go:207-210 | Counts are truncated to 32 bits: a count is rejected exactly when its remainder is too large, and 2^32 gives the first subnet again |
| Subnets.WholeSpaceParent | internal/core/ips/ips.go:198-210 | A parent of prefix 0 is rejected for every count, or divides by zero for a new prefix 0 |
| SubnetSearch.RangeExact | internal/core/ips/ips.go:249-264 | The recorded range of an existing subnet is the subnet's, also for prefix 0, except for an IPv4 network in IPv6 notation with a prefix above 96, whose range ends just before it begins |
| SubnetSearch.EndsDecide | internal/core/ips/ips.go:278-283 | Comparing ends decides whether a block and a network share an address, exactly when the network is recorded right, or starts at 0.0.0.0 and holds the first address of the block, or neither |
| SubnetSearch.UsedRanges | internal/core/ips/ips.go:249-264 | Exactly the ranges of the existing subnets with an IPv4 address are recorded, in either notation |
| SubnetSearch.Collides | internal/core/ips/ips.go:277-284 | A candidate collides exactly when its range meets that of some existing subnet |
| SubnetSearch.FindSubnet | internal/core/ips/ips.go:271-293 | The lowest candidate whose range meets no recorded one, and none exactly when all do |
| SubnetSearch.CandidatesExact | internal/core/ips/ips.go:271-277 | The candidates are exactly the aligned blocks of the new size inside the parent, in the order of their addresses |
| SubnetSearch.FreeExact | internal/core/ips/ips.go:249-284 | A candidate taken for free overlaps an existing subnet exactly when a miscounted one holds its first address |
| SubnetSearch.SkippedExact | internal/core/ips/ips.go:249-284 | A candidate that is skipped overlaps an existing subnet, unless a miscounted one starts at 0.0.0.0, which makes every candidate skipped |
| SubnetSearch.UsableExact | internal/core/ips/ips.go:311-315 | The k-th address after the padding is usable exactly when k < size - 5 |
| SubnetSearch.TakeIPs | internal/core/ips/ips.go:299-319 | The addresses network+4+k for k < ipCount, and an error exactly when the block has fewer |
| SubnetSearch.NextSubnetWithIPs | internal/core/ips/ips.go:230-322 | For every list of existing subnets: the lowest aligned candidate the overlap test lets through, which overlaps an existing subnet exactly when a miscounted one holds its first address; the result is right exactly if no miscounted subnet holds that of the first candidate let through or, with one at 0.0.0.0, if every candidate overlaps something; errors told apart exactly, including prefix 0; addresses network+4+k |
| SubnetSearch.MissedOverlap | internal/core/ips/ips.go:256-264 | Whenever a miscounted subnet begins where a candidate does, the candidate is taken for free on top of it |
| SubnetSearch.MissedExample | internal/core/ips/ips.go:256-264 | For parent 10.0.0.0/8 and prefix 16, ::ffff:10.0.0.0/104 and the block 10.0.0.0/16 |
| SubnetSearch.FalseBlock | internal/core/ips/ips.go:256-284 | For the same parent, ::ffff:0.0.0.0/128 makes every candidate skipped although it overlaps none |
| PollInvariant.StepInv | internal/domain/agent/client_poll.go:38-206 | Every step of any Send, Poll, delivery or cancel keeps registry, channels and outcomes consistent while picked ids are fresh |
| PollTheorems.AutoIDsAreFresh | internal/domain/agent/client_poll.go:44-47 | If every Send leaves the id to the client, no id is used twice, in any interleaving |
| PollTheorems.PollsInOrder | internal/domain/agent/client_poll.go:129-152 | In every run, whatever the ids: what a machine's polls got is a prefix of what was enqueued for it, the rest is queued, at most eight |
| PollTheorems.OnePlaceEach | internal/domain/agent/client_poll.go:145-151 | In every run each Poll got the command enqueued at its own place of its machine's order, and no other Poll has that place |
| PollTheorems.PolledWasSent | internal/domain/agent/client_poll.go:68-74 | What a Poll got is the command of a Send to its machine |
| PollTheorems.AtMostOnePoll | internal/domain/agent/client_poll.go:68-74 | With fresh ids two polls, of any machines, never get commands with one id |
| PollTheorems.SendOutcome | internal/domain/agent/client_poll.go:76-90 | Send returns nil exactly on a non-failed report with its own id, a command error with its text exactly on a failed one; the report it got is the first put into its channel |
| PollTheorems.LookupExact | internal/domain/agent/client_poll.go:154-160 | A report is routed exactly to the live Send with its id; a late or unknown one to none |
| PollTheorems.FirstReportNotLost | internal/domain/agent/client_poll.go:160-165 | After a delivery that found a channel its Send has a first report, and while it waits it can receive exactly that |
| PollTheorems.FirstReportIsPut | internal/domain/agent/client_poll.go:160-165 | The first report put for a Send becomes, unchanged, its first report and the content of its channel |
| PollTheorems.LaterReportsIgnored | internal/domain/agent/client_poll.go:160-165 | A report for another Send changes nothing; a later one for this Send at most refills a channel already received from, so what it received and how it ends stay |
| PollTheorems.FirstReportStays | internal/domain/agent/client_poll.go:154-166 | The first report of a Send never changes |
| PollTheorems.ClosedAtMostOnce | internal/domain/agent/client_poll.go:133-143 | Each agent's channel is closed at most once |
| PollTheorems.SendAllExact | internal/domain/agent/client_poll.go:92-127 | SendAll returns nil exactly when every Send did, otherwise the error of one of them |
| PollTheorems.FirstErrorFrees | internal/domain/agent/client_poll.go:101-127 | Once SendAll has seen an error, the context of each of its Sends has ended and none of them is stuck |
| PollTheorems.CanReturn | internal/domain/agent/client_poll.go:37-90 | A Send whose context has ended returns by at most three steps of its own, whatever the queues and the other calls do |
| PollProgress.ConnectedExact | internal/domain/agent/client_poll.go:129-143 | An agent counts as connected, from then on, exactly when it has polled after its machine was marked ready or a Send began to wait for it; an earlier poll leaves no trace |
| PollProgress.NeverLate | internal/domain/agent/client_poll.go:188-206 | Once its agent is connected, a Send that has not timed out never does |
| PollProgress.ConnectedEnds | internal/domain/agent/client_poll.go:37-90 | A Send whose agent is connected when it begins to wait, and whose context does not end, returns only with what a report for it says: nil, or the error text of a failure |
| PollProgress.StuckExact | internal/domain/agent/client_poll.go:68-90 | A Send that has not returned has no step exactly when its context goes on and either eight commands wait for its machine or no report has come |
| PollProgress.AtMostSevenSteps | internal/domain/agent/client_poll.go:37-90 | In every run a Send takes at most seven steps of its own, whatever the others do |
| PollProgress.SentIsQueued | internal/domain/agent/client_poll.go:68-74 | The command of a Send that awaits or has its report is in the queue of its machine or was handed out by a Poll for it |
| PollProgress.ReceivedWasDelivered | internal/domain/agent/client_poll.go:154-166 | The report a Send received is one that DeliverReport was called with, unchanged |
| PollProgress.NothingWasThere | internal/domain/agent/client_poll.go:145-151 | A Poll ends with nothing only at a moment when no command waited for its machine |
| PollGroups.ContextsExact | internal/domain/agent/client_poll.go:101-127 | Where nothing outside ends their contexts, those of the Sends of a SendAll end exactly when the first error has been collected |
| PollGroups.FirstErrorExact | internal/domain/agent/client_poll.go:115-127 | The error SendAll returns is the one collected first, whichever order the Sends end in |
| SharedIDs.CutOffForever | internal/domain/agent/client_poll.go:56-89 | A registered Send whose channel nothing leads to stays without a report in every continuation, and can only end with its context |
| SharedIDs.CutOffExact | internal/domain/agent/client_poll.go:56-89 | No continuation ever brings a Send its first report exactly when no entry and no unfinished delivery leads to its channel |
| SharedIDs.SecondRegistersExact | internal/domain/agent/client_poll.go:56-127 | In any run, when a second Send with the same id registers, no continuation brings the first a report exactly when none was on its way to it |
| SharedIDs.FirstUnregistersExact | internal/domain/agent/client_poll.go:62-66 | When the first Send unregisters, the deletion of the shared entry leaves the second never reached exactly when no report was on its way to it |
| SharedIDs.SharedIDRun | internal/domain/agent/client_poll.go:92-127 | For any two agents and any id, two legal runs of one SendAll without a cancel: the first Send is never reached once the second registers before it got its report; and if the second registers just before the first unregisters, the first returns nil and the second is never reached |
| PollClient.HistoryIsRun | internal/domain/agent/client_poll.go:38-206 | A log kept step by step is a legal run of the protocol ending in the present state |
| PollClient.StepsOfOthers | internal/domain/agent/client_poll.go:38-206 | No step of another call moves a Send, a Poll, a delivery or a SendAll of this one; a context may end at any time |
| PollClient.ReturnMeans | internal/domain/agent/client_poll.go:37-90 | In every log in which the client makes the ids: what Send returned is nil exactly on a report that is not a failure, a command error exactly on one that is, and the report is the first with its own id |
| PollClient.PollClient.Send | internal/domain/agent/client_poll.go:37-90 | Whatever the other calls do in between, Send is a run of the protocol that ends returned with the outcome it gives back, or waits at a full queue or for its report with its context alive; target, action and a given id are kept. It never times out on an agent that was connected when it was called; a nil or a command error comes from a report, a context error from the end of its context |
| PollClient.PollClient.SendAll | internal/domain/agent/client_poll.go:92-127 | For none, one or several targets: one Send with that command for each target, none of which times out on a connected agent; if it returns, all have returned as Send does, with nil exactly when all did and the error of one of them otherwise; if not, one is stuck or not collected |
| PollClient.PollClient.Poll | internal/domain/agent/client_poll.go:129-152 | A run of the protocol that always ends, with the command the protocol handed out to this call, or with nothing while no command waited for the machine; where the machine has a channel its agent is connected afterwards |
| PollClient.PollClient.DeliverReport | internal/domain/agent/client_poll.go:154-166 | A run of the protocol that offers the report to the channel found when it was called, whatever happened in between |
| PollClient.PollClient.GetQueue | internal/domain/agent/client_poll.go:177-186 | A missing queue is created empty, which no reader can tell from a missing one |
| LogBuffer.AgentLog.BufferLogLine | internal/domain/agent/agent_server.go:57-89 | The whole new state after a line: counted, or the pending marker and the line appended |
| LogBuffer.AgentLog.FlushLogs | internal/domain/agent/agent_server.go:104-123 | The batch cut and the state left behind |
| LogBuffer.Lossless | internal/domain/agent/agent_server.go:57-123 | For every interleaving of lines and flushes, batches, buffer and pending repeat expand to exactly the (action, line) pairs that came in |
| LogBuffer.FinalFlush | internal/domain/agent/agent_server.go:91-123 | After the final flush the batches alone expand to everything |
| LogBuffer.EntriesExact | internal/domain/agent/agent_server.go:57-89 | Over batches and buffer, the entries that are no markers are exactly the lines that differ from the one before, in order, each with the command id, machine, action and stream it came with |
| LogBuffer.MarkersExact | internal/domain/agent/agent_server.go:66-75 | Every marker has the command id, action and text of the last line entry before it, also across flushes, and counts at least one repeat |
| LogBuffer.MarkerStreams | internal/domain/agent/agent_server.go:66-123 | A marker written because another line came has that line's stream; one written by a flush is the last of its batch, with stream stdout |
| LogBuffer.ParseRender | internal/domain/agent/agent_server.go:66-75 | The text of an entry can be read back exactly for markers and for lines that do not start like one |
| LogBuffer.TextLossless | internal/domain/agent/agent_server.go:57-123 | For every stream, the text on the wire gives the lines back exactly when no line starts like a marker |
| LogBuffer.TextAmbiguous | internal/domain/agent/agent_server.go:66-88 | For every line and every positive count, also an empty line with an empty action, there are two different inputs with the same text on the wire: the repeats, and a line that reads like their marker |
| Substitution.SubstituteExact | internal/domain/dbconfig/ydb.go:232-239 | On every body whose placeholders stand between delimiters, the replacements one after the other equal one simultaneous pass and leave no listed placeholder, exactly when no host that reaches a slot holds a listed placeholder |
| Substitution.SubstituteChosen | internal/domain/dbconfig/ydb.go:232-239 | On every body, for such hosts: they are equal if choosing the occurrences key by key and choosing them from the left comes to the same, and only then if no host begins with the first character of a placeholder |
| Substitution.SubstituteApart | internal/domain/dbconfig/ydb.go:232-239 | On every body in which no two listed occurrences overlap, for hosts in which no placeholder can begin or end, the replacements one after the other equal one simultaneous pass |
| Substitution.SimultaneousFills | internal/domain/dbconfig/ydb.go:232-239 | The simultaneous pass puts host i at slot i and changes nothing else |
| Substitution.ReplaceSplit | internal/domain/dbconfig/ydb.go:236 | A character the placeholder lacks cuts a text into parts that are replaced separately |
| Substitution.Remaining | internal/domain/dbconfig/ydb.go:232-239 | With placeholder-free hosts, what remains is exactly the placeholders of slots past the end of the list |
| YdbHosts.PlaceholdersAreKeys | internal/domain/dbconfig/ydb.go:11-15 | No placeholder is part of another, so number 1 never touches number 10 |
| YdbHosts.RenderHosts | internal/domain/dbconfig/ydb.go:96-139 | The loop writes the specified hosts section, with at least one row and a placeholder in each |
| YdbHosts.RowExact | internal/domain/dbconfig/ydb.go:130-139 | A row spelled out: the host, its number from one on as body and rack, and the zones a, b, c in turn |
| YdbHosts.PlaceholderExact | internal/domain/dbconfig/ydb.go:11-15 | A placeholder is the decimal number of its host between the fixed texts |
| YdbHosts.SubstituteYDBHostPlaceholders | internal/domain/dbconfig/ydb.go:232-239 | The loop performs the replacements in list order |
| YdbHosts.WrittenExact | internal/domain/dbconfig/ydb.go:130-139 | Row i reads exactly host i and no listed placeholder remains, exactly when no host that has a row holds a listed placeholder |
| YdbHosts.WrittenIsSimultaneous | internal/domain/dbconfig/ydb.go:232-239 | On a rendered document the loop equals the simultaneous pass, for hosts without placeholders |
| YdbHosts.NoneRemainsExact | internal/domain/dbconfig/ydb.go:232-239 | No placeholder remains exactly when there is a host for every row |
| YdbHosts.EditedBody | internal/domain/dbconfig/ydb.go:232-239 | The same for the placeholders of the file, every body, and every host that has a lower-case letter or a dot and no underscore: equal exactly when both choose the same occurrences, in particular when none overlap |
| YdbHosts.LaterHostClobbers | internal/domain/dbconfig/ydb.go:235-237 | A host that is itself a later placeholder is overwritten: row 0 reads host 1 |
| YdbHosts.GluedPlaceholders | internal/domain/dbconfig/ydb.go:232-239 | In a body where two placeholders share underscores, the loop and a single pass give different texts |
| Machines.RunConfig.Bake | internal/domain/run/machines.go:15-70 | The whole configuration after baking: the override folded into the specs of the kind, and cleared |
| Machines.RunConfig.Fill | internal/domain/run/machines.go:72-170 | Explicit machines are kept; otherwise the machines are derived that the five lemmas named after the kinds describe |
| Machines.PostgresMachines | internal/domain/run/machines.go:86-103 | For Postgres: as many database machines as master and replicas count together, with the sizes of the master unless the override has a positive one, and its disks; then the HAProxy spec if there is one, and the stroppy machine with the custom or default sizes, nothing else |
| Machines.MySQLMachines | internal/domain/run/machines.go:103-118 | The same for MySQL with its primary and ProxySQL |
| Machines.PicodataMachines | internal/domain/run/machines.go:118-131 | For Picodata each instance spec makes its own machines, with its count, sizes and disks |
| Machines.YDBMachines | internal/domain/run/machines.go:131-160 | For YDB the number of machines and each of their sizes is the greater of those of storage and database nodes: at least both and equal to one, unless the override has a positive size; disks as for storage |
| Machines.NoTopologyMachines | internal/domain/run/machines.go:84-170 | Without a topology of the configured kind only the stroppy machine is derived |
| Machines.BakedExact | internal/domain/run/machines.go:15-70 | Baking gives every spec of the topology of the kind, replicas included, the override's positive sizes and its disk type if there is one, and changes nothing else but the override, which is gone |
| Machines.ApplyAll | internal/domain/run/machines.go:44-46 | Every spec of the list gets the override, none else changes |
| Machines.AddCounts | internal/domain/run/machines.go:90-93 | The count plus the replicas' counts |
| Machines.DatabaseMachinesAgree | internal/domain/run/machines.go:86-160 | For all kinds, the database machines after baking equal those derived with the override, exactly when it gives no disk type or every spec read already has it |
| Machines.BakeFillExact | internal/domain/run/machines.go:20-170 | Fill after Bake gives the same machines as Fill alone exactly when the machines are explicit, or there is no override, or it gives no disk type that a spec read does not already have |
| Machines.DiskTypeIsLost | internal/domain/run/machines.go:94-98 | Otherwise a plain Postgres master shows it: Fill alone ignores the override's disk type |
| Machines.FillIdempotent | internal/domain/run/machines.go:76-79 | Filling twice is filling once, some machine is always there, explicit machines are kept, and nothing but the machines changes |
| Machines.BakeIdempotent | internal/domain/run/machines.go:20-70 | Baking twice is baking once, and baking later changes no machine |
| Machines.DatabaseRoleCount | internal/domain/run/machines.go:86-160 | The database-role machines derived number the topology's sum (maximum for YDB), on both paths, plus a proxy's own where its spec claims that role |
| Machines.OverrideWins | internal/domain/run/machines.go:5-13 | Every positive size of the override is the size of every derived database machine, on both paths |
| RunState.State.ExportRunState | internal/domain/run/state.go:178-204 | The appending loops produce the export of the specification |
| RunState.State.ImportRunState | internal/domain/run/state.go:207-235 | Every exported field is restored, whatever the object held before |
| RunState.State.AllTargets | internal/domain/run/state.go:164-175 | Database, monitor, proxy and stroppy targets in that order |
| RunState.ExportedExact | internal/domain/run/state.go:178-204 | The exported list target by target: database, monitor, proxy and stroppy targets in that order, each field kept, with the role names the stored form uses |
| RunState.ImportAfterExport | internal/domain/run/state.go:178-235 | Import after Export restores targets, containers, network, endpoint and configs |
| RunState.ExportAfterImport | internal/domain/run/state.go:178-235 | Export after Import is the stable partition of the targets by role, with the last stroppy target only and unknown roles dropped |
| RunState.ExportImportIdempotent | internal/domain/run/state.go:164-235 | A second round changes nothing, and AllTargets lists the targets in the order of the partition |

## Left out

- CycleSearch.DetectCycle: only the first error is shown to name a node on a cycle; later ones name nodes that reach a cycle, which is all the code guarantees.
- Recovery.RecoverRun: a stored graph that will be used is taken to have unique ids, as every graph made by `Add` has; a snapshot edited to hold two nodes of one id is chosen as ChooseGraph says, and its run is not modelled. Whether the stored configuration decodes and the dependencies can be built are inputs; the cleanup is not part of it.
- Recovery.RemainingTasksSucceed: whether a task succeeds is a choice of the environment, so success is stated for runs in which no node uses up its attempts and nobody cancels.
- Backoff.LaterWaitsExact: a negative cap below the base, with which the first wait is wrong already, is covered by BackoffExact alone.
- Builder.BuiltMember: a task is named by its phase; which commands it sends, and that configure_db does nothing under Patroni, is not modelled.
- Executor.Executor.Run: it returns provided that every call of a task's Execute returns; the teardown timeout only ends a context, and whether a task heeds its context is the task's affair.
- Executor.Executor.RunGoroutines: goroutines are worker records stepped in any order between atomic sections, not threads; unlocked data races are outside the model.
- Executor.Executor.Save: `storage.Save` is an unreliable sink; its errors and the order in which concurrent saves arrive are not observed, only that each stored snapshot is a cut of the run.
- FirstFree.FirstFreeIP: the network is as ParseCIDR produces it, 4 or 16 bytes with a prefix mask; the text form of an address is represented by the bytes it identifies.
- Subnets.PartitionExact: parents of prefix 0 are treated apart, in WholeSpaceParent.
- RandomAddress.RandomInside: the random source is a parameter; uniformity is not stated, only that each address belongs to exactly one drawn number.
- PollTheorems.FirstReportNotLost: no fairness of the scheduler is assumed, so the lemma says a waiting Send can receive, not that it eventually does; a Send whose context ends at the same time may still return the context's error.
- PollTheorems.SendAllExact: which of several errors is collected first depends on scheduling; FirstErrorExact says that this one is kept.
- PollInvariant.StepInv: contexts end at any time; the Sends of one SendAll have theirs in common, and those of other calls end independently, also where a caller gave several calls one context.
- PollProgress.NothingWasThere: a select is taken to be reached before its own timeout has passed, 60 seconds in `Poll` and 120 in `Send`, so that a timeout wins only while nothing else is ready.
- PollProgress.ConnectedEnds: nothing is promised about when an agent polls or reports; that a Send which is stuck goes on is the agent's and the context's affair.
- PollClient.PollClient.Send: the time blocking channel operations take is not modelled; while one waits, the other calls take steps, and a Send that has not returned is left at its select.
- PollClient.PollClient.SendAll: several Sends are stepped in any order between atomic sections, not threads; while one of them has not been collected nothing is returned.
- LogBuffer.Lossless: the action and the line are kept; the command id and stream of repeated lines are not, because the code drops them.
- YdbHosts.RenderHosts: the text before and after the hosts section is a parameter; the theorems hold for every such text that holds no placeholder.
- Substitution.SubstituteExact: that no listed placeholder remains is stated for bodies whose placeholders stand between delimiters, with any hosts; for all bodies SubstituteChosen compares the two substitutions, for hosts in which no placeholder can begin or end.
- Machines.RunConfig.Bake: topologies are values held by the configuration; two configurations sharing one topology through a pointer are not modelled. Sums of counts are unbounded integers.
- RunState.ImportAfterExport: the terraform fields are not exported, and empty and missing lists are not told apart.
- JSON encoding: marshalling is the identity on exported fields; malformed bytes are not modelled.
- Wall-clock time: contexts are flags that only go up, timeouts are choices, and start and finish times are dropped except for whether a snapshot is finished.
- Agents' shell actions, Docker, terraform, cloud-init, HTTP handlers, websockets, Postgres storage and authentication: I/O around libraries.
- Metrics comparison, run summaries, quotas, version comparison and default filling: each is settled by one loop or branch.
- The other configuration templates, the command line and the web interface: long text and plumbing with little logic.
