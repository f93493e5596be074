# Verified model of the run coordinator

The program runs CI pipelines on Kubernetes. A run is a graph of nodes, each Pending, Running,
Success or Failed. A *coordinator* drives one run: it dispatches ready nodes as Jobs, takes their
verdicts from a message bus, from status files in S3, from a pod watcher and from timers, and saves
the whole state after each step under a version check. Any number of servers may hold a coordinator
for the same run, and any of them may crash, hang, or come back late. A *reaper* adopts runs nobody
leads any more and can rebuild a lost state from the `node_runs` table.

`dafny verify dfyconfig.toml` checks everything. Modules follow the program:

| file | what it models |
|---|---|
| `Runs.dfy`, `RunTheory.dfy` | `PipelineRun`; what completion means; the closed form of a reconcile pass; the progress measure |
| `StateStore.dfy`, `Leases.dfy` | both run stores and their listings; the history of a lease key |
| `Protocol.dfy`, `Fencing.dfy` | one coordinator's actions as a trace; any number of coordinators over one stored run |
| `Coordinators.dfy` | the coordinator itself: every handler and the event loop, as a class over mutable state |
| `StoredRuns.dfy` | a coordinator against the store: beginning, first save, deletion, adoption |
| `Completion.dfy` | when the overall verdict can be trusted |
| `Takeovers.dfy` | concrete lives in which the program does less than its documentation or comments say |
| `RunHistory.dfy`, `Reaper.dfy` | the `node_runs` table as a second copy of the run, and recovery from it |
| `SharedTable.dfy` | the same table written by any number of coordinators, and exactly when it is wrong |
| `PodWatcher.dfy` | the deduplicating pod monitor and its traces |
| `SourceManager.dfy` | status files; the multipart upload |
| `Pipelines.dfy`, `KubeNames.dfy` | dependency, label and quantity validation; object names |
| `Tenancy.dfy`, `Auth.dfy` | tenant tables against a plain list; who may enter which tenant |

How the parts fit. `Coordinator` keeps a ghost trace of its actions and proves after every method
that the trace is legal in the sense of `Protocol` and explains its memory, the stored copy it knows
of, and its version. So every theorem about legal traces (durable dispatch, first verdict wins, the
termination bound) holds of every coordinator, and `Fencing` interleaves the same actions over one
store and proves the converse, that each coordinator in it is one legal trace
(`Fencing.CoordinatorIsATrace`). Answers of the outside world (a save, a dispatch, a write to the table, a pod query) are
arbitrary, and a hash map is walked in an arbitrary order.

Where the program and its documentation disagree, the model follows the program:

* `docs/architecture.md:167` and the top-level README (line 29) say that growing lease tokens keep
  a zombie from writing. A save never looks at a lease token (`state_store/src/lib.rs:142-181`).
  `Fencing.TakeoverAloneDoesNotFence` gives a behaviour in which the holder of token 2 is running
  and holds the lease while the save of the server with token 1 is accepted; the holder's own save
  is then refused. `Fencing.FencingIsExact` states precisely who is fenced off.
* `docs/architecture.md:54` says that a rejected write stops the coordinator at once. After a
  dispatch or a promotion a rejected write is only logged (`coordinator/src/coordinator.rs:884-893`):
  `Takeovers.RefusedDispatchSave` is such a life, and the contract of `Coordinator.DispatchAnswered`
  is the same for both answers. For a verdict, `Coordinator.HandleNodeCompleted` stops if and only
  if the verdict's own save was refused, which shows as an unchanged version, or fail-fast applies.
* A takeover is meant to promote nodes that S3 shows started without dispatching them again
  (`coordinator/src/coordinator.rs:746-749`). Folding completions dispatches before the promotion:
  `Takeovers.RedispatchWhileFolding` is a life in which a started node is dispatched a second time,
  and `Takeovers.RedispatchAfterMissingPod` another, through a missing pod and with no completion
  folded. `Coordinator.FoldAndPromote` says exactly when. With favourable answers and no fail-fast,
  once some completion is folded, a started node is dispatched if and only if all its dependencies
  end in Success. When nothing is folded, nothing is dispatched unless a pod is missing, and then
  the first missing pod, in the order of promotion, dispatches exactly the nodes that were ready on
  entry and whose turn had not come.
* Recovery from the table can show a wrong verdict for a running node. A dispatch failure whose save
  is refused leaves a row ahead of the stored state (`Takeovers.FailureOutlivesItsSave`), and a
  server that wakes up late and exits early overwrites the row of a node its successor is running
  (`Takeovers.LateFinalization`). `Reaper.RecoveryMirror` holds node by node, for the nodes whose row
  was not ahead at the takeover and as long as no other coordinator writes the table.
  `SharedTable.WrongIff` is the exact condition for any number of writers.
* A save refused because a successor took over ends in the early exit, which releases the lease and
  deletes the stored state unconditionally: `Fencing.FencedOffServerDeletes` is a behaviour in which
  a fenced-off server deletes the run its successor saved. `Fencing.FinalizationIsExact` says when a
  finalization deletes the snapshot its coordinator last knew.
* A pipeline with a dependency cycle of length two or more passes validation.
  `Completion.FaithfulExactlyWhenAcyclic` shows that acyclicity is exactly what the overall verdict
  needs, and `Completion.MutualWaiting` and `Pipelines.CyclesPassValidation` give a cycle.
* The version check is what `docs/architecture.md:54` relies on against a stale writer. Versions start
  again when a deleted run is created again, so the check holds within one life of the key:
  `StoredRuns.OldLifeIsAccepted`.
* Finalization marks every Running node Failed before `terminate_running_nodes` looks for Running
  nodes, so an early exit asks for no deletion there: `Coordinator.StopEarly` leaves `cancelled` as
  it was.

## Model

| member | source | states |
|---|---|---|
| Runs.PipelineRun.New | coordinator/src/run.rs:12-25 | every node starts Pending and status and dependency maps have the same keys; of two definitions of one name the later wins |
| Runs.PipelineRun.FromRunState | coordinator/src/run.rs:104-115 | a stored state is taken over with its dependency lists read as sets |
| Runs.PipelineRun.ToRunState | coordinator/src/run.rs:117-132 | in whatever order the lists come out, reading them back gives the same run: the round trip is the identity |
| Runs.PipelineRun.MarkRunning | coordinator/src/run.rs:48-55 | only a Pending node starts; the answer tells whether it did; no other node changes |
| Runs.PipelineRun.MarkSuccess | coordinator/src/run.rs:57-68 | a success is taken from Running or Pending and never replaces a verdict |
| Runs.PipelineRun.MarkFailed | coordinator/src/run.rs:70-81 | a failure is taken from Running or Pending and never replaces a verdict |
| Runs.PipelineRun.MarkDispatchFailed | coordinator/src/run.rs:83-90 | only a Pending node fails this way |
| Runs.InitialKeysAgree | coordinator/src/run.rs:12-25 | statuses and dependencies of a new run have exactly the node names as keys |
| RunTheory.ChainFrom | coordinator/src/run.rs:27-46 | from any Pending node of a complete run on an acyclic graph there is a chain of Pending nodes ending in a Failed one |
| RunTheory.CompletionMeaning | coordinator/src/run.rs:92-98 | on a closed acyclic graph a complete run has only Success, Failed, and Pending nodes blocked by a failure, and succeeds iff nothing failed |
| RunTheory.DoneEncodings | state_store/src/lib.rs:84-95 | the store's test of "done" agrees with the coordinator's `is_complete` on every state with matching keys |
| RunTheory.MoveUp | coordinator/src/run.rs:48-90 | each upward move strictly lowers 2·Pending + Running, with the exact change of both counts |
| RunTheory.NothingReadyAfterDispatch | coordinator/src/coordinator.rs:829-882 | after trying all ready nodes, whichever of them started, no node is ready |
| RunTheory.SettleOneMore | coordinator/src/coordinator.rs:624-657 | folding one more completion and dispatching what it unlocks extends the closed form by that completion |
| RunTheory.OrderDoesNotMatter | coordinator/src/coordinator.rs:698-721 | folding completions in any order gives the closed form: judged nodes get their verdict, an unjudged Pending node runs iff all its dependencies end in Success |
| Leases.TokensIncrease | state_store/src/lib.rs:206-237 | a later grant carries a larger token, whoever asks and whatever happened between |
| Leases.LostForever | state_store/src/lib.rs:239-283 | a token not held at some time after its grant is never held again |
| Leases.HolderIsTheGrantee | state_store/src/lib.rs:206-273 | a held token belongs to the server it was granted to, so one (server, token) pair at most can renew |
| Leases.RenewalMeansUninterrupted | state_store/src/lib.rs:239-273 | a successful renewal comes from the grantee and implies no release, expiry or other grant since |
| Leases.UninterruptedIsRenewable | state_store/src/lib.rs:239-273 | conversely an uninterrupted lease is still held by its grantee |
| StateStore.InMemoryStateStore.SaveRun | state_store/src/lib.rs:423-443 | over the history of the store: while nothing is stored for the run a save is accepted iff it expects version 0, while a state is stored iff it expects that state's version; accepted, it stores exactly the given state, otherwise nothing changes |
| StateStore.InMemoryStateStore.LoadRun | state_store/src/lib.rs:445-448 | returns what the last accepted save of the run wrote, unless the run was deleted since |
| StateStore.LastAcceptedIs | state_store/src/lib.rs:423-453 | over any history of saves and deletions that state is the one of an accepted save after which nothing touched the run |
| StateStore.DeletedUntilCreated | state_store/src/lib.rs:196-204 | after a deletion nothing is stored for the run until a save of it is accepted again |
| StateStore.InMemoryStateStore.DeleteRun | state_store/src/lib.rs:450-453 | removes the run unconditionally, and the history of the key records it |
| StateStore.InMemoryStateStore.TryAcquireLease | state_store/src/lib.rs:455-476 | refuses iff the lease is held, otherwise grants the next token to the caller, and leaves other runs' leases alone; each call is a step of the lease history |
| StateStore.InMemoryStateStore.RenewLease | state_store/src/lib.rs:478-490 | succeeds iff exactly this server and token are held |
| StateStore.InMemoryStateStore.ReleaseLease | state_store/src/lib.rs:492-495 | releases whoever holds the lease, and touches no other run |
| StateStore.InMemoryStateStore.GetOrphanedRuns | state_store/src/lib.rs:497-508 | each unleased unfinished run once, in any order |
| StateStore.InMemoryStateStore.ListTerminalUnleasedRuns | state_store/src/lib.rs:510-521 | each unleased finished run once, in any order |
| StateStore.RunIdOfStateKey | state_store/src/lib.rs:295-301 | the third part of a state key is the run id iff the run id has no colon |
| StateStore.KeysAreInjective | state_store/src/lib.rs:97-103 | different runs have different state keys and different lease keys, and no state key is a lease key |
| StateStore.RedisStateStore.SaveRun | state_store/src/lib.rs:142-181 | the script keeps the same rule over its own history, run by run although the keys are strings: nothing stored takes exactly version 0, a stored state exactly its own version |
| StateStore.RedisStateStore.LoadRun | state_store/src/lib.rs:183-194 | returns what the last accepted save of the run wrote, unless the run was deleted since |
| StateStore.RedisStateStore.DeleteRun | state_store/src/lib.rs:196-204 | removes this run's state and no other key |
| StateStore.RedisStateStore.TryAcquireLease | state_store/src/lib.rs:206-237 | refuses iff the lease is held, otherwise grants the next token of a counter per run; each call is still a step of the lease history |
| StateStore.RedisStateStore.RenewLease | state_store/src/lib.rs:239-273 | succeeds iff exactly this server and token are held |
| StateStore.RedisStateStore.ReleaseLease | state_store/src/lib.rs:275-283 | the lease goes, the token counter stays |
| StateStore.RedisStateStore.Scan | state_store/src/lib.rs:285-379 | lists exactly the ids read from keys whose state has the wanted "done" answer and whose lease is free |
| StateStore.RedisStateStore.ScanIsTheListing | state_store/src/lib.rs:285-379 | with colon-free run ids the scans are the two listings of the in-memory twin |
| Protocol.MemoryMovesUp | coordinator/src/run.rs:48-90 | over any trace every node only moves up and the node set never changes |
| Protocol.StoredIsBehind | coordinator/src/coordinator.rs:492-508 | the stored copy a coordinator knows of never overtakes its memory |
| Protocol.FirstVerdictWins | coordinator/src/run.rs:57-81 | a node that has a verdict keeps it, through duplicates and late failures |
| Protocol.DispatchIsDurable | coordinator/src/coordinator.rs:829-882 | at every dispatch the node is Pending and its dependencies are Success, in memory and in the stored copy |
| Protocol.NeverDispatchedOnceStarted | coordinator/src/coordinator.rs:829-882 | a node that is not Pending is not dispatched from then on |
| Protocol.DispatchedAtMostOnce | coordinator/src/coordinator.rs:829-882 | one coordinator dispatches a node at most once |
| Protocol.Accounting | coordinator/src/coordinator.rs:373-477 | Pending nodes pay for dispatches, the potential for transitions; verdicts are exactly the nodes closed |
| Protocol.TerminationBound | coordinator/src/coordinator.rs:373-477 | over N nodes at most N dispatches, 2N transitions and N verdicts, and fewer while a node runs |
| Fencing.NextKeepsInv | coordinator/src/coordinator.rs:492-508 | any step of any coordinator or of the lease keeps the history linear and everyone's base a snapshot in it |
| Fencing.LinearHistory | state_store/src/lib.rs:152-170 | an accepted save raises the version by one, replaces exactly the snapshot its writer worked from, and moves nodes only up; nothing else changes the store |
| Fencing.StoredOnlyMovesUp | state_store/src/lib.rs:152-170 | over any interleaving the stored version never falls and stored nodes only move up |
| Fencing.FencingIsExact | state_store/src/lib.rs:152-170 | a save is accepted iff no save was accepted since its writer last synchronized with the store, whatever happened to the lease |
| Fencing.StaleStartNeverSaves | coordinator/src/coordinator.rs:270-282 | a coordinator that began anew although the run had moved on never gets a save accepted |
| Fencing.FinalizationIsExact | coordinator/src/coordinator.rs:1271-1281 | a finalization deletes exactly the snapshot its coordinator last knew iff no save was accepted since it last synchronized |
| Fencing.FencedOffServerDeletes | coordinator/src/coordinator.rs:445-451 | a behaviour in which a server whose save was refused deletes the state and frees the lease of its running successor |
| Fencing.LeasesFormAHistory | state_store/src/lib.rs:206-283 | the lease of the cluster goes through a history of the kind `Leases` reasons about, so its theorems hold there |
| Fencing.CoordinatorIsATrace | coordinator/src/coordinator.rs:492-508 | in every behaviour each coordinator's memory, known copy and version are what one legal trace makes of its beginning, a save whose answer is lost counting as refused |
| Fencing.MemoryOnlyMovesUp | coordinator/src/coordinator.rs:492-508 | through all interleavings each coordinator's memory only moves up |
| Fencing.NoDispatchAfterStarted | coordinator/src/coordinator.rs:829-882 | once an accepted snapshot shows a node started, no coordinator loading from then on dispatches it |
| Fencing.DependenciesAreDurable | coordinator/src/coordinator.rs:829-882 | whoever dispatches, however stale, the store itself shows every dependency Success then and for ever |
| Fencing.TakeoverAloneDoesNotFence | docs/architecture.md:167 | the documented token fencing does not hold: the save of the server with token 1 is accepted while the running server with token 2 holds the lease, and the holder's save is refused |
| Completion.FaithfulExactlyWhenAcyclic | coordinator/src/coordinator.rs:479-490 | over all complete runs of a closed graph, Success means no failure, iff the graph has no cycle |
| Completion.MutualWaiting | pipelines/src/pipeline.rs:558-576 | two nodes waiting for each other end complete, with nothing failed, reported as failure |
| Coordinators.Coordinator.Fresh | coordinator/src/coordinator.rs:270-282 | a created run is all Pending at version 0, whatever rows the table holds; tracked are exactly the nodes without a row; a first save that fails makes no difference |
| Coordinators.Coordinator.Rehydrated | coordinator/src/coordinator.rs:260-269 | a loaded run has the stored statuses, graph and version, and the pipeline its caller started it with; tracked are exactly the nodes whose row is not ahead of them |
| Coordinators.Coordinator.PersistIn | coordinator/src/coordinator.rs:492-508 | against a store: taken iff the last accepted save of the run has the version last known, or nothing is stored and none is known; taken, the store holds this run, pipeline included, under the next version, and other runs as before; heard of, the coordinator's version follows; otherwise nothing of it moves |
| Coordinators.Coordinator.SpawnTimeout | coordinator/src/coordinator.rs:1025-1046 | the node's timer is replaced by a fresh armed one; everyone else stays watched |
| Coordinators.Coordinator.CancelNodeTimeout | coordinator/src/coordinator.rs:510-514 | only this node's timer goes, and its task with it |
| Coordinators.Coordinator.RecordNodeDispatched | coordinator/src/coordinator.rs:1095-1106 | written or lost, the row never overtakes the run, and it is exact when written |
| Coordinators.Coordinator.RecordNodeCompleted | coordinator/src/coordinator.rs:1108-1170 | written or lost, the row shows no wrong verdict, and it is exact when written |
| Coordinators.Coordinator.TryDispatch | coordinator/src/coordinator.rs:829-920 | the cluster is asked with this answer iff the pipeline defines the node, once; the node becomes Running with a fresh startup timer, or Failed; the table and the trace follow |
| Coordinators.Coordinator.DispatchAnswered | coordinator/src/coordinator.rs:840-893 | for every answer of the cluster, the store and the table the exact new state; a refused save changes only what the coordinator believes stored |
| Coordinators.Coordinator.DispatchReadyNodes | coordinator/src/coordinator.rs:829-882 | in any order and with any answers: exactly the ready nodes are tried, and asked for where defined, none is ready afterwards, each started one has an armed startup timer, nobody loses one |
| Coordinators.Coordinator.HandleNodeCompleted | coordinator/src/coordinator.rs:624-657 | the verdict is saved before anything it unlocks is dispatched; stops iff that save was refused or fail-fast applies to a failure; otherwise exactly the unlocked nodes were asked for and nothing is left ready |
| Coordinators.Coordinator.CompleteNode | coordinator/src/coordinator.rs:445-455 | a completion event first drops the node's timer, then does the same; an open node gets exactly this verdict |
| Coordinators.Coordinator.HandleNodeInfraFailed | coordinator/src/coordinator.rs:563-615 | an open node fails once, its timer goes, its pod is cancelled, and the run stops iff the save was refused or fail-fast applies; for a node with a verdict or an unknown one the whole coordinator is unchanged |
| Coordinators.Coordinator.HandleNodeTimedOut | coordinator/src/coordinator.rs:795-820 | a late timeout leaves the whole coordinator unchanged; a timely one fails the node and follows up |
| Coordinators.Coordinator.HandlePodRunning | coordinator/src/coordinator.rs:535-561 | the startup timer gives way to a runtime timer and stops; a runtime timer is not extended |
| Coordinators.Coordinator.FoldCompletions | coordinator/src/coordinator.rs:698-721 | with favourable answers the statuses are the closed form whatever the order; with any answers every folded node ends with the verdict of its status file, or Failed where an attempt to start it failed before its turn, a node without a verdict was dispatched iff it left Pending, and unless the pass was stopped every completion was folded; where it was stopped, the last node was judged by its verdict too |
| Coordinators.AskedIffUnlocked | coordinator/src/coordinator.rs:698-721 | in the closed form a Pending node without a verdict is dispatched iff all its dependencies end in Success |
| Coordinators.Coordinator.PromoteStarted | coordinator/src/coordinator.rs:723-788 | when every such node has a pod, exactly the Pending nodes S3 shows started become Running and nothing is dispatched; otherwise the first missing pod of the given order dispatches exactly the nodes ready on entry and not yet promoted; no started node is left Pending |
| Coordinators.Coordinator.FoldAndPromote | coordinator/src/coordinator.rs:325-339 | exactly when a takeover dispatches a node that S3 shows started: with favourable answers, no fail-fast and some completion, iff its dependencies all end in Success; with nothing folded, exactly what the first missing pod lets through |
| Coordinators.Coordinator.RehydratePhaseTimers | coordinator/src/coordinator.rs:922-1023 | every Running node has an armed timer: the startup timer iff S3 does not show it started and its row could be read and exists, else the runtime timer |
| Coordinators.Coordinator.FinalizeNode | coordinator/src/coordinator.rs:1172-1183 | for given answers the exact final record of one running node, which counts as failed whatever the record says |
| Coordinators.Coordinator.FinalizeRun | coordinator/src/coordinator.rs:1172-1269 | the status is reported once, exactly the running nodes count as failed, and only their rows are touched |
| Coordinators.Coordinator.TerminateRunningNodes | coordinator/src/coordinator.rs:1048-1081 | cancels the nodes that are Running at that point, and stops every timer |
| Coordinators.Coordinator.StopEarly | coordinator/src/coordinator.rs:1048-1081 | an early exit reports its status, fails what was running, touches only the rows of those nodes, and cancels no node |
| Coordinators.Coordinator.Finish | coordinator/src/coordinator.rs:473-490 | the regular end reports Success iff every node succeeded and changes no status |
| Coordinators.Coordinator.OnReceive | coordinator/src/coordinator.rs:405-442 | the oldest message is consumed; a failure message fails an open node, dispatches what is ready and concludes, and asks for its pod to be deleted iff the failure was saved; for a closed or unknown one nothing but the queue changes; a pod-running message only moves timers |
| Coordinators.Coordinator.Step | coordinator/src/coordinator.rs:373-477 | for each event what it does: a completion, a failure message and a reconcile pass give exactly their verdicts, stop iff a verdict's save was refused or fail-fast applies, and otherwise end the run iff nothing runs any more, with its true outcome; a reconcile pass folds every completion with its own verdict or says at which node it was stopped; deadline, cancel, lost lease and closed subscription end it as they should; in every other case the loop waits in a good state (nothing ready, something running, all watched) |
| Coordinators.Coordinator.OnReconcile | coordinator/src/coordinator.rs:790-793 | a reconcile pass in the loop, for any answers: a node Running on entry with a complete status file ends with that file's verdict, a Pending one too unless an attempt to start it failed first, and no other Running node changes; a stopped pass ends in failure, with its last node judged and the rest of the running ones failed |
| Coordinators.PassEnds | coordinator/src/coordinator.rs:396-404 | what finalization makes of a stopped pass keeps every verdict folded |
| Coordinators.PassMadeMore | coordinator/src/coordinator.rs:698-721 | folding one more completion gives its node that verdict, or leaves the failure an attempt to start it ended in, and touches no other verdict |
| Coordinators.Coordinator.Start | coordinator/src/coordinator.rs:315-371 | fresh or taken over, the loop begins in a good state or the run has ended; a fresh run has tried exactly its ready nodes; a takeover takes the verdicts of the status files, all of them unless it was stopped; one with no completion to fold and no missing pod dispatched no node that S3 shows started |
| Coordinators.Coordinator.Run | coordinator/src/coordinator.rs:315-477 | over every sequence of events: all are handled in order until the run ends, the loop waits in a good state until then, summaries are sound, nodes only move up; with favourable answers, no fail-fast and no event that ends a run by itself it ends only complete, with its true outcome |
| Coordinators.Coordinator.RunOut | coordinator/src/coordinator.rs:405-442 | left to its timers and messages, in any order and with any answers, every waiting run ends; with favourable answers and no fail-fast it ends complete, with its true outcome |
| Coordinators.Coordinator.StoredRunIsListed | state_store/src/lib.rs:497-521 | a coordinator's stored, unleased run is listed as finished iff the coordinator counts it complete, and as an orphan otherwise |
| Coordinators.Coordinator.WorkIsBounded | coordinator/src/coordinator.rs:373-477 | the bounds of `Protocol.TerminationBound` for every coordinator at every moment |
| Coordinators.Coordinator.DispatchesWereDurable | coordinator/src/coordinator.rs:829-882 | every dispatch this coordinator ever made, the last one included, was durable, and its node was never dispatched again |
| StoredRuns.InitializeRunState | coordinator/src/coordinator.rs:254-284 | a stored run that can be read is taken over as it is; otherwise the run begins anew, and where nothing is stored and the save arrives the store holds the created run at version 0 with its pipeline |
| StoredRuns.FirstSave | coordinator/src/coordinator.rs:492-508 | a coordinator's first save is accepted iff its answer arrives, unless it could not read the store and a version above 0 is stored; on an absent key it is always taken |
| StoredRuns.DeletionFences | state_store/src/lib.rs:450-453 | after a deletion a coordinator that knows a version above 0 is refused |
| StoredRuns.OldLifeIsAccepted | state_store/src/lib.rs:423-453 | a behaviour in which a run is deleted and created again and the store then takes the save of a coordinator of the old life and refuses the new one's |
| StoredRuns.Adopt | coordinator/src/reaper.rs:124-156 | an adopted run goes on with the stored pipeline, statuses, graph and version |
| StoredRuns.Handover | coordinator/src/coordinator.rs:492-508 | the takeover round trip: after a save that was taken, heard of or not, the adopter has the same pipeline, statuses and dependencies and the next version, so it is ready to start the same nodes and they are defined for it |
| Takeovers.RefusedDispatchSave | coordinator/src/coordinator.rs:884-893 | a life in which the save after a dispatch is refused and the loop goes on |
| Takeovers.RedispatchWhileFolding | coordinator/src/coordinator.rs:698-721 | a life in which folding dispatches a node that S3 shows started |
| Takeovers.RedispatchAfterMissingPod | coordinator/src/coordinator.rs:757-776 | a life in which a missing pod makes the promotion pass dispatch a node that S3 shows started |
| Takeovers.FailureOutlivesItsSave | coordinator/src/coordinator.rs:895-920 | a life in which a waiting coordinator's table shows a wrong verdict, because its row was ahead of the loaded state |
| Takeovers.LateFinalization | coordinator/src/coordinator.rs:1172-1183 | a life in which a late early exit turns the row of a node into a failure while the successor waits with the node Running |
| RunHistory.TracksVerdict | run_history/src/lib.rs:422-447 | overwriting a row with the verdict catches up; not writing it leaves the table at or below the run |
| RunHistory.TracksDispatch | run_history/src/lib.rs:407-420 | insert-or-ignore at dispatch catches up when the node had no row |
| RunHistory.RowIsBehind | run_history/src/lib.rs:407-447 | a row is not ahead of a status iff there is none for Pending, no verdict for Running, and not the opposite verdict |
| Reaper.ReadStatusFiles | coordinator/src/reaper.rs:312-382 | a row with a verdict keeps it; a row without one has afterwards the verdict of its node's status file iff that file shows a finish time too and the write succeeds; no row comes or goes |
| Reaper.ReconstructRunState | coordinator/src/reaper.rs:484-509 | a node is Pending iff it has no row, Running iff its row has no verdict, and otherwise has the verdict of its row; version 0 and the pipeline's graph |
| Reaper.Reconcile | coordinator/src/reaper.rs:312-482 | finalizes iff every node has a row with a verdict or a row and a complete status file that could be written; as success iff each of these says success; a resumed run has per node the status its row says, or its status file where the row says nothing |
| Reaper.DirectVerdictAgrees | coordinator/src/reaper.rs:517-527 | the direct verdict, `outcome_status_for` and the coordinator's verdict agree and both "done" tests hold |
| Reaper.RecoveryMirror | coordinator/src/reaper.rs:484-509 | with one writer of the table: at every loop head each node whose row was not ahead of the statuses the coordinator began with is rebuilt at or below its status with no wrong verdict; the rebuilt state is exact for a fresh run whose writes arrived |
| Reaper.MirroredAtTakeover | coordinator/src/reaper.rs:484-509 | at a takeover the rebuilt state is at or below the loaded one iff no row is ahead of it |
| SharedTable.RowIsLastVerdict | run_history/src/lib.rs:407-447 | under any writers a row shows a verdict iff it was the last written to it, or none was and the row began with it |
| SharedTable.SavedVerdictIsRight | coordinator/src/coordinator.rs:624-657 | a verdict written after its accepted save is the store's verdict, then and for ever, whoever writes it |
| SharedTable.SavedFailureIsRight | coordinator/src/coordinator.rs:895-920 | so is a dispatch failure whose own save was accepted |
| SharedTable.WrongIff | coordinator/src/coordinator.rs:1172-1183 | the table claims a verdict the store does not show iff the last verdict written to the row came from a failed dispatch or a finalization and the store does not show it, or none was written and the row was wrong from the start |
| SharedTable.CarefulIsNeverWrong | coordinator/src/reaper.rs:484-509 | with no finalization while the life goes on and every dispatch failure saved, a row that was not wrong never becomes wrong |
| Reaper.RunThenRebuild | coordinator/src/reaper.rs:484-509 | with one writer of the table: any life of a fresh run followed by the loss of its state rebuilds each node that had no row at or below its status, and equal to it unless a write was lost |
| PodWatcher.ClassifiedSpeaksForItself | coordinator/src/pod_watcher.rs:188-202 | a signal carries the pod's own node and uid and is never a deletion failure |
| PodWatcher.MainDecidedBy | coordinator/src/pod_watcher.rs:234-295 | the first main container that fails or runs decides, and which reason it gives: image pull, create error, memory, exit code, running, in this order |
| PodWatcher.InitDecidedBy | coordinator/src/pod_watcher.rs:204-232 | the first failed init container decides, with its name and cause, unless one before it has no state |
| PodWatcher.FailedInitHides | coordinator/src/pod_watcher.rs:188-202 | a failed init container is the signal whatever the main containers do |
| PodWatcher.RunningPod | coordinator/src/pod_watcher.rs:188-295 | a pod is running from its first running container when nothing before it failed |
| PodWatcher.NoDuplicates | coordinator/src/pod_watcher.rs:326-341 | over any trace no two signals share kind, node and uid |
| PodWatcher.EveryKeyIsSent | coordinator/src/pod_watcher.rs:459-482 | every classified pod event has been signalled by the time it was handled |
| PodWatcher.SignalsAreClassified | coordinator/src/pod_watcher.rs:459-482 | every signal that is no deletion failure is what the pod event it answers was classified as |
| PodWatcher.MissingReport | coordinator/src/pod_watcher.rs:484-500 | the missing-pod report is made once, at the first InitDone, and is exactly seed minus observed |
| PodWatcher.MissingOverall | coordinator/src/pod_watcher.rs:484-500 | over the whole run a node is reported missing iff it was seeded, the listing ended and no pod of it was listed before the first end, and at most once |
| PodWatcher.DeletionFailureHasCause | coordinator/src/pod_watcher.rs:502-532 | a deletion failure needs a deletion, an earlier sign of life and no announcement |
| PodWatcher.DeletionFailuresOverall | coordinator/src/pod_watcher.rs:502-532 | over the whole run every deletion failure answers a deletion, after a sign of life and with no announcement before |
| PodWatcher.DeletionIsReported | coordinator/src/pod_watcher.rs:502-532 | over any trace an unannounced deletion of a pod whose node was seeded or reported running has been signalled by the time it was handled, and just then if it was not before |
| PodWatcher.SeenPodIsMissed | coordinator/src/pod_watcher.rs:502-532 | a node whose pod was once classified as running does not lose a pod unannounced without a failure being sent |
| PodWatcher.WatcherState.Seeded | coordinator/src/pod_watcher.rs:309-324 | the seed counts as running and nothing is reported yet |
| PodWatcher.WatcherState.SendOnce | coordinator/src/pod_watcher.rs:326-341 | a signal is sent iff its key was never sent, and the tables remember exactly the keys sent |
| PodWatcher.WatcherState.HandleDelete | coordinator/src/pod_watcher.rs:502-532 | for every deletion exactly what the trace specification says, which `DeletionFailuresOverall` and `DeletionIsReported` pin from both sides |
| PodWatcher.WatcherState.EmitPresenceDiff | coordinator/src/pod_watcher.rs:484-500 | reports the missing pods in any order, once |
| PodWatcher.WatcherState.Handle | coordinator/src/pod_watcher.rs:459-482 | one input extends a correct trace to a correct trace |
| PodWatcher.WatcherState.Watch | coordinator/src/pod_watcher.rs:405-457 | the whole loop makes a correct trace without duplicates for any events |
| SourceManager.CompletedNeedsBoth | coordinator/src/source_manager.rs:86-98 | a half-written status file never counts as a verdict |
| SourceManager.ChunksConserve | coordinator/src/source_manager.rs:203-273 | the parts join to the body, all but the last are full, none is empty or too large |
| SourceManager.ChunksAfterFull | coordinator/src/source_manager.rs:216-241 | full parts cut off while the body is still arriving are the first parts of the whole body |
| SourceManager.FillBuffer | coordinator/src/source_manager.rs:218-232 | reads on until the buffer holds a part or the body ends, loses nothing, and tells these apart from a broken frame |
| SourceManager.UploadParts | coordinator/src/source_manager.rs:203-273 | for any frames both loops end; it succeeds iff nothing broke and no part was refused, and then the parts are numbered from 1, join to the body, are not empty, and all but the last are full, which is at least 5 MiB |
| SourceManager.BodyIs | coordinator/src/source_manager.rs:222-231 | the body is what the data frames carry, in their order; trailers add nothing |
| Pipelines.ValidateDependencies | pipelines/src/pipeline.rs:558-576 | accepts iff no node lists itself or a name no node has, and otherwise returns the first fault in reading order |
| Pipelines.EdgesComeFromNodes | coordinator/src/run.rs:12-25 | in the graph of a run a node waits for exactly what the last definition under its name lists |
| Pipelines.ValidatedGraphIsClosed | pipelines/src/pipeline.rs:558-576 | the graph of an accepted pipeline is closed and without self-loops, duplicate names included |
| Pipelines.CyclesPassValidation | pipelines/src/pipeline.rs:558-576 | two nodes that wait for each other are accepted |
| Pipelines.OnlySplit | pipelines/src/pipeline.rs:494-527 | the scan stops at the only place where the number can end |
| Pipelines.ExponentOrSuffix | pipelines/src/pipeline.rs:528-530 | `E` opens an exponent iff a digit or a sign follows, and then only an exponent can be accepted |
| Pipelines.RestIsDigits | pipelines/src/pipeline.rs:536-543 | accepts a non-empty run of digits up to the end |
| Pipelines.IsSuffix | pipelines/src/pipeline.rs:528-555 | accepts exactly the suffixes of the grammar |
| Pipelines.IsValidQuantity | pipelines/src/pipeline.rs:494-556 | accepts exactly the quantity grammar and never reads outside the string |
| Pipelines.SuffixLetters | pipelines/src/pipeline.rs:544-555 | after a number exactly the letters n, u, m, k, K, M, G, T, P and E are suffixes, and exactly the last six take an i |
| Pipelines.SignsAndExponents | pipelines/src/pipeline.rs:494-543 | before a digit may stand exactly a digit, a dot or a sign; e and E open an exponent, which may have a sign |
| KubeNames.SanitizeIsClean | coordinator/src/kube_dispatcher.rs:65-77 | the text between leading and trailing dashes of the lowered name, empty iff the name has no ASCII letter or digit |
| KubeNames.TruncateShape | coordinator/src/kube_dispatcher.rs:89-97 | a long name becomes a prefix of the sanitized one, less its trailing dashes, and the hash of the name as given; any other is only sanitized |
| KubeNames.TruncateIsClean | coordinator/src/kube_dispatcher.rs:89-97 | at most prefix, dash and hash long, clean, and empty iff the name has no letter or digit |
| KubeNames.JobNameIsValid | coordinator/src/kube_dispatcher.rs:107-113 | at most 55 characters, and a valid label iff the node name has a letter or a digit |
| KubeNames.ConfigMapNameIsValid | coordinator/src/kube_dispatcher.rs:115-117 | at most 62 characters and always a valid label |
| KubeNames.ShortLabelsNeverShareAJob | coordinator/src/kube_dispatcher.rs:89-113 | two short, clean node names of one run never get the same job name |
| KubeNames.JobNameDetermines | coordinator/src/kube_dispatcher.rs:99-113 | for run ids with short forms of one length the job name determines both short forms |
| KubeNames.LongRunsShareAJob | coordinator/src/kube_dispatcher.rs:99-113 | two long clean run ids such as UUIDs share a job name only if their prefixes, their hashes and the short node names agree |
| KubeNames.LongNodeIsCut | coordinator/src/kube_dispatcher.rs:89-105 | a long clean node name keeps its first 24 characters before the hash |
| KubeNames.DashIsAmbiguous | coordinator/src/kube_dispatcher.rs:107-113 | short run ids can share a job: run `a-b` with node `c` and run `a` with node `b-c` |
| Tenancy.ValidateDnsLabel | tenancy/src/lib.rs:346-371 | accepts exactly the non-empty texts within the limit of lower-case letters, digits and dashes that do not start with a dash |
| Tenancy.ValidateOrgName | tenancy/src/lib.rs:319-344 | accepts exactly the non-empty texts of at most 39 letters, digits and dashes that do not start with a dash |
| Tenancy.ValidateConnectorIds | tenancy/src/lib.rs:280-294 | at least one connector id and none blank |
| Tenancy.ValidateAppEntry | tenancy/src/lib.rs:249-270 | a label id, an app id within 64 bits, a non-empty secret and a key that is not blank |
| Tenancy.ValidateTenant | tenancy/src/lib.rs:272-309 | valid fields and a known app |
| Tenancy.BuildApps | tenancy/src/lib.rs:100-113 | succeeds iff every app is valid and ids are distinct; then the table is the list |
| Tenancy.AddConnectors | tenancy/src/lib.rs:181-191 | refuses iff a (connector, org) pair repeats, within the tenant too |
| Tenancy.BuildTenants | tenancy/src/lib.rs:158-202 | succeeds iff every tenant is valid and slugs, (app, org) and (connector, org) keys are all distinct; then the three tables are the list |
| Tenancy.AcceptedTenants | tenancy/src/lib.rs:158-202 | a list of tenants is valid iff each one is and lists no connector twice, and no two share a slug, an (app, org) pair, or a connector for the same org |
| Tenancy.FromDocument | tenancy/src/lib.rs:223-230 | the same for the whole document, with app references resolved in it |
| Tenancy.LookupsScanTheList | tenancy/src/lib.rs:124-144 | each lookup returns a tenant iff a scan of the list finds it under that key |
| Auth.OrgFromGroup | auth/src/handlers.rs:274-276 | the part before the first colon, or the whole group |
| Auth.ResolveAuthorizedSlugs | auth/src/handlers.rs:284-299 | without a connector nothing; otherwise every opened slug, each once, in the order of the first group that opens it |
| Auth.AuthorizedSlugsAreTrusted | auth/src/handlers.rs:284-299 | exactly the slugs of tenants trusting that connector for a listed organisation, without repetition |

## Left out

- Fencing: holds within one create-to-delete life of a run's key, which a finalization ends; for a coordinator that outlives the deletion `StoredRuns.DeletionFences` and `StoredRuns.OldLifeIsAccepted` say when its save is taken.
- SharedTable: the reaper's own writes are not among the steps; it writes only where it found no state stored.
- Coordinators.Coordinator.Fresh: when reading the state failed, the copy the coordinator believes stored is version 0 of the run and not what the store holds; `Fencing.StaleStartNeverSaves` says what becomes of it.
- Coordinators.Coordinator.PersistState: the handlers take any answer to a save; `Coordinators.Coordinator.PersistIn` and `Fencing` tie the answer to the stored version.
- StateStore.RedisStateStore.Scan: connection errors, keys deleted during the scan and undecodable states are not modelled.
- Coordinators.Coordinator.SpawnTimeout: no time passes in the model; a sleeping task may send its message at any moment, so seconds, deadlines and the exact duration of a re-armed timer are not stated.
- Coordinators.Coordinator.RehydratePhaseTimers: states that every running node has at least one live timer; overwritten handles are not aborted by the program, so not that it has at most one.
- Coordinators.Coordinator.FinalizeRun: the row of a node still running takes the success S3 shows while the memory counts it as failed, so agreement of table and memory is stated up to finalization only.
- Coordinators.Coordinator.FoldAndPromote: when answers are unfavourable while completions are folded, which nodes are dispatched depends on the order; stated is then that a node without a verdict is dispatched iff it leaves Pending.
- Reaper.RecoveryMirror: promises nothing of a node whose row was ahead of the statuses the coordinator began with, nor once another coordinator has written the table; `Takeovers.FailureOutlivesItsSave` and `Takeovers.LateFinalization` show that the table can be wrong there, and `SharedTable.WrongIff` says exactly when.
- Reaper.RunThenRebuild: one coordinator has the table to itself, for the same reason.
- Fencing.TakeoverAloneDoesNotFence: the lease expires at any moment in the model; the renewal interval and the time to live are not.
- PodWatcher.WatcherState.SendOnce: a failing channel and its capacity are not modelled.
- SourceManager.UploadParts: the width of the part number, the limit of 10,000 parts and the abort request after a failure are not modelled.
- KubeNames.TruncateIsClean: the hash is any function into eight lowercase hexadecimal digits; nothing is stated about collisions.
- StateStore.RedisStateStore.LoadRun: a stored value that cannot be decoded and errors of the connection are not modelled, except that `StoredRuns.InitializeRunState` may find the store unreadable.
- Tenancy.FromDocument: reading the file, parsing YAML and the text of error messages are not modelled.
- Strings are sequences of characters; where the program measures bytes the answer is the same, because only ASCII is accepted.
- Clients of Redis, RabbitMQ, S3, Postgres and Kubernetes are arbitrary answers with the meaning of the scripts and statements they send.
- Job and Pod construction, HTTP routes, login, webhooks, secrets and volume merging, logs and failure texts: wide but shallow.
