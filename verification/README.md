# Fox Schema: verified models

Dafny models of the parts of Fox Schema whose correctness depends on order,
interleaving or repetition, with proofs about every run. Asynchronous code is
modelled as a transition system: each stretch between two `await`s is one
step, and anything another caller can do may happen between two steps. Where
the source keeps the state in an object or in the variables of one function, a
class with those fields stands beside the transition system, and its methods
are proved to take exactly its steps; `Traversal` and `RetryOverlap`, whose
state is the call stack, have none.

`dafny verify dfyconfig.toml` checks the whole project.

## What is covered

- **Planner and reference check** (`Graphs`, `Plan`, `PlanProperties`,
  `WorkflowGraph`). Kahn's algorithm returns exactly for acyclic graphs and
  layers nodes by longest path; the depth-first reference check is sound and
  complete and reports a real cycle.
- **Executor** (`SourceWindow`, `SourceDelivery`, `SourceRun`, `Contracts`,
  `ContractFields`, `Routing`, `RoutingPlan`, `Traversal`, `RetryOverlap`,
  `PipeProgress`, `SourceProgress`). At-least-once delivery through a bounded window with retries, honest
  checkpoints, a redelivery bound, routing that does not depend on the
  schedule, when a batch's promise can settle before its writes and a retry
  overlap them, contracts that lose nothing, progress counters that lose no
  update. A batch counts as delivered once its traversal has ended without an
  error; one that a downstream pipe skipped
  (`packages/workflow-engine/src/runtime/executor.ts:302-305`) is among them.
- **Circuit breaker and pool cache** (`CircuitBreaker`, `BreakerRuns`,
  `BreakerOutcomes`, `BreakerObject`, `PoolCache`, `PoolRuns`, `PoolObject`). One
  trial per half-open period, which outcomes open and close a circuit, and
  conservation and reuse of pools, in every interleaving of calls.
- **Migrations** (`Migration`, `MigrationTruth`, `MigrationReports`,
  `MigrationModule`, `SchemaUpgrade`). What the migration events report, and when
  it is true of the target; interrupted upgrades of the
  server's own schema converge.
- **Mail** (`SmtpReplies`, `SmtpConnection`, `DotStuffing`, `Base64`, `Utf8`,
  `SmtpEncoding`). Replies are parsed alike however the stream is cut; stuffed
  messages, header words and bodies are read back by the receivers the
  standards describe.
- **Workflow documents and the event stream** (`GraphEdits`, `WorkflowEdits`,
  `EditedPlans`, `WorkflowExtract`, `EventStream`). Which edits keep a document
  plannable and what they leave alone; every event is streamed once, in order,
  and the stream ends.

## Claims the code does not keep everywhere

For each of these the project gives the exact condition under which the claim
holds, and an input or a run for which it does not.

- A retry attempt can overlap the previous attempt's writes
  (`packages/workflow-engine/src/runtime/executor.ts:444-445`). It never does
  exactly when retries are off or no batch leads, delivery by delivery, to a
  pipe that writes and has a deadline, or to a port whose edges start two things
  at once, one of them leading to a pipe that writes
  (`RetryOverlap.RetryNeverOverlapsIff`). Ports of one batch are sent one after
  another, so two ports of one edge each are no such place. What an edge starts
  is a delivery, or the announcement that its contract turned everything away,
  which can fail too. Which pipes write is a parameter: with all of them the
  theorem is about every operation.
- The count of processed batches can fall short after a successful execution,
  exactly when a cursor was stored by a write reported failed
  (`SourceDelivery.ProgressIsExact`); a progress mark that cannot be stored is
  made good by the next.
- A half-open period admits one trial exactly when `successThreshold` is at
  most 1, which is what the shared breaker uses
  (`BreakerRuns.OneTrialPerPeriodIff`).
- `maxPools` bounds the pools in every run with at most K creations in flight
  at once exactly when K is at most 1 (`PoolRuns.MaxPoolsKeptIff`); for every K
  and every limit some run keeps `maxPools - 1 + K` pools
  (`PoolRuns.PeakBoundReached`), and none more (`PoolRuns.PoolsConserved`).
- `rolledBack: true` can be reported for a plan that was committed, exactly when
  the commit, at a known place among the operations, took effect but was
  reported failed and the plan changes something
  (`MigrationTruth.RolledBackIsTruthfulIff`,
  `MigrationTruth.LateCommitReportedRolledBack`,
  `MigrationTruth.RolledBackButApplied`).
- A step reported FAILED can have changed the target. With working rollback the
  reports are true of the target throughout a run exactly when no failed step
  leaves anything (`MigrationTruth.ReportsTrueThroughoutIff`). Whether a rollback
  undoes a statement is a parameter for each statement, so this covers engines
  that undo everything, nothing, or rows but not tables. A failed step leaves its
  sealed statements, those up to the last that no rollback undoes and, on engines
  that go on without a transaction, those after it (`MigrationTruth.Residue`); or
  everything, when its commit took effect late. Where all its statements can be
  undone only the last is left (`MigrationTruth.LeavesNothingIff`); on MySQL a
  table made before the failing statement stays and rows put in before it go
  (`MigrationTruth.TableStaysRowsGo`). The target at the end of the run alone
  does not decide it, since a later step can write over what was left
  (`MigrationTruth.LaterStepCanHideIt`).
- A cycle can be planned when an edge points at an unknown id
  (`PlanProperties.UnknownTargetHidesCycle`). A planned graph is acyclic exactly
  when ids and edge ends together are as many as the ids
  (`PlanProperties.PlannedAcyclicIff`).
- Reply parsing depends on chunk boundaries, since every chunk is decoded by
  itself and an unreadable line ends a pass over the buffer. It does not exactly
  when every byte is read by itself and no complete line follows an unreadable
  one (`SmtpReplies.ChunkIndependentIff`): of well-formed text, when it is ASCII
  and no such line does (`SmtpReplies.TextChunksIff`).
- The header comment bounds each encoded word to 75 characters, and that holds;
  the 76-character line limit of section 2 of RFC 2047 is exceeded by the line
  the subject starts on exactly when the subject has more than 39 bytes
  (`SmtpEncoding.SubjectLineFitsIff`).
- A plain ASCII subject is read back unchanged exactly when none of its tokens
  is itself an encoded word (`SmtpEncoding.PlainHeaderReadsIff`).
- Two dependencies with different ends can be merged. Merging keeps the edges
  exactly when no two of them share a key (`WorkflowEdits.DedupedKeepsEdges`),
  and edges between some ids can share one exactly when `u`, `t`, `u + NUL + m`
  and `m + NUL + t` are among the ids (`WorkflowEdits.ApartIff`).
- Adding or replacing a pipeline can make a cycle, exactly when it names itself
  or something it feeds, as asked or from before the replacement, leads back to
  something it waits for (`EditedPlans.AddAcyclicIff`). A replacement can do so
  while feeding nothing (`EditedPlans.ReplaceClosesCycle`).
- Extracting a pipeline can make a cycle of references, exactly when the
  pipeline calls the new id, or something that leads to a workflow referring to
  that id already (`WorkflowExtract.ExtractCyclesIff`).
- An event stream that its client keeps open can fall silent without an end,
  exactly when a read of its first write fails
  (`EventStream.FirstWriteFailsIff`); the first read may even have succeeded
  (`EventStream.RunReadFails`). A failure in a later write costs nothing
  (`EventStream.LaterFailureEnds`).

## Model

| member | source | states |
|---|---|---|
| Plan.TopoPlan | packages/workflow-engine/src/compiler/plan.ts:23-66 | the in-place peeling of waves returns or throws exactly what the graph dictates: sorted waves by longest incoming path, an unknown source, or a cycle |
| Plan.PeelWaves | packages/workflow-engine/src/compiler/plan.ts:46-61 | repeated release of ready nodes ends with exactly the nodes that are not downstream of a cycle, in waves |
| PlanProperties.PlansExactlyAcyclicGraphs | packages/workflow-engine/src/compiler/plan.ts:23-66 | with known edge ends, a plan exists if and only if the ids are distinct and the graph has no cycle |
| PlanProperties.PlannedAcyclicIff | packages/workflow-engine/src/compiler/plan.ts:34-63 | a graph that was planned has no cycle if and only if ids and edge ends together are as many as the ids; otherwise an unknown target hid one |
| PlanProperties.OrderIsPermutation | packages/workflow-engine/src/compiler/plan.ts:46-65 | the order lists every id exactly once |
| PlanProperties.WaveIsLongestPath | packages/workflow-engine/src/compiler/plan.ts:46-61 | a node is in wave i if and only if its longest incoming path has i edges |
| Sorting.LessIff | packages/workflow-engine/src/compiler/plan.ts:43-60 | ids of a wave stand in the order of their first different characters, a shorter one before its continuations |
| PlanProperties.PathsLeadToLaterWaves | packages/workflow-engine/src/compiler/plan.ts:80-91 | a path leads to a strictly later wave, so members of a wave are independent |
| PlanProperties.PlanIgnoresListOrder | packages/workflow-engine/src/compiler/plan.ts:23-66 | the plan is the same for any order of ids and any order or repetition of edges |
| WorkflowGraph.ReferencedWorkflowIds | packages/workflow-engine/src/compiler/workflow-graph.ts:21-31 | exactly the workflows named by sub-workflow pipes, each once |
| WorkflowGraph.CycleSearch.Visit | packages/workflow-engine/src/compiler/workflow-graph.ts:44-70 | ends with the workflow proved safe or with a real cycle; its first check never fires |
| WorkflowGraph.CycleSearch.AssertNoWorkflowCycles | packages/workflow-engine/src/compiler/workflow-graph.ts:40-73 | throws if and only if a cycle of known references can be reached from the root, and the path it reports is such a cycle |
| SourceWindow.WindowLimit | packages/workflow-engine/src/runtime/executor.ts:392-395 | the largest concurrency any pipe asks for, and at least 1 |
| SourceWindow.ResolveErrorAction | packages/workflow-engine/src/runtime/executor.ts:762-787 | an abort always fails; a retry is granted only within the retry budget, whatever the hook answers |
| SourceDelivery.RecoverDecides | packages/workflow-engine/src/runtime/executor.ts:762-787 | the source starts over if and only if the error is no abort, budget is left and the hook asks for a retry or, the hook silent, the policy retries all errors or the error is transient; it skips or fails exactly as the hook, the abort and the budget say |
| SourceDelivery.GivesUpAfterAllAttempts | packages/workflow-engine/src/runtime/executor.ts:355-480 | a run whose error would be retried fails exactly when it has begun `attempts` and one more readings, and starts over before |
| SourceDelivery.DeliveredBy | packages/workflow-engine/src/runtime/executor.ts:418-432 | a batch becomes delivered by its traversal ending without an error and by nothing else |
| SourceWindow.StepKeepsSafe | packages/workflow-engine/src/runtime/executor.ts:364-480 | every step keeps: everything below the checkpoint and the drained prefix is delivered, and the window holds the batches just read, in order |
| SourceDelivery.CheckpointNeverSkips | packages/workflow-engine/src/runtime/executor.ts:376-404 | at every moment the stored source checkpoint names a batch that is delivered, as are all before it, in whatever order batches finish |
| SourceDelivery.AtLeastOnce | packages/workflow-engine/src/runtime/executor.ts:364-480 | a successful run has traversed every batch, over any failures, retries and earlier interrupted executions; a batch that a downstream pipe skipped counts as traversed |
| SourceDelivery.WindowBound | packages/workflow-engine/src/runtime/executor.ts:381-438 | batches in flight never outnumber the window, and none is left when an attempt begins |
| SourceDelivery.CheckpointOnlyAdvances | packages/workflow-engine/src/runtime/executor.ts:796-811 | no step moves the stored checkpoint back |
| SourceDelivery.RedeliveryBound | packages/workflow-engine/src/runtime/executor.ts:364-480 | reads are at most the retry budget plus one, batches sent at most the rest of the stream plus one window per retry |
| SourceDelivery.ProgressIsExact | packages/workflow-engine/src/runtime/executor.ts:397-404 | a successful execution raises the stored processedBatches by the batches past the checkpoint less the cursors stored by writes reported failed, however often progress could not be stored |
| SourceProgress.CountsAgree | packages/workflow-engine/src/runtime/executor.ts:831-894 | at the end of a run the source's counts, in memory and in the store, are those of its lane of progress updates after exactly the steps the run made there, one mark of the source after the other |
| SourceProgress.MarksOneForOne | packages/workflow-engine/src/runtime/executor.ts:397-404 | the updates of that lane which carry a batch are the marks of the run, one for one, in order and each with the records of its batch |
| SourceProgress.CountIsMarks | packages/workflow-engine/src/runtime/executor.ts:854-894 | so the count in memory is the start plus one for each mark of a batch, whether or not it could be stored, the records add up, and the stored count has the marks up to the last put that took effect |
| SourceDelivery.NoSkipWithoutHook | packages/workflow-engine/src/runtime/executor.ts:449-459 | unless the connector's hook answers skip, returning normally means success |
| SourceDelivery.SkipLosesBatches | packages/workflow-engine/src/runtime/executor.ts:456-459 | with that answer a run over any stream can return normally having delivered nothing |
| RetryOverlap.RetryNeverOverlapsIff | packages/workflow-engine/src/runtime/executor.ts:443-478 | over all runs of a source and its traversals, no attempt reads while a write of an earlier one runs, if and only if retries are off or no batch leads to a writing pipe with a deadline or to a port starting two things at once, one of which leads to a write |
| RetryOverlap.TameIsQuiet | packages/workflow-engine/src/runtime/executor.ts:443-448 | in that case no write of an earlier attempt runs or begins at any moment after the retry |
| Traversal.SettlesLastIff | packages/workflow-engine/src/runtime/executor.ts:528-554 | the promise of one batch never settles while a write it started runs, if and only if no chain of deliveries from it reaches such a pipe or port |
| Traversal.TurnedExactly | packages/workflow-engine/src/runtime/executor.ts:536-550 | an edge announces a ported batch, and delivers nothing, exactly when it is meant for that port and its contract accepts none of the records |
| SourceRun.SourceReader.DrainTheHead | packages/workflow-engine/src/runtime/executor.ts:397-404 | takes the head only, and stores its cursor before marking it, by steps of the transition system |
| SourceRun.SourceReader.ReadLoop | packages/workflow-engine/src/runtime/executor.ts:406-439 | keeps the window bounded and moves only by steps of the transition system |
| SourceRun.SourceReader.Recovery | packages/workflow-engine/src/runtime/executor.ts:443-478 | waits for everything still travelling; unless the handling itself throws it retries if and only if a retry is due, and skips if and only if the hook says so |
| SourceRun.SourceReader.RunSource | packages/workflow-engine/src/runtime/executor.ts:355-480 | terminates in success, skipped or failed by a run of the transition system, so all its theorems apply |
| Contracts.ApplyRecord | packages/workflow-engine/src/runtime/contracts.ts:50-94 | succeeds if and only if the contract accepts the record, with its one accepted form |
| Contracts.ApplyContract | packages/workflow-engine/src/runtime/contracts.ts:25-48 | delivers the accepted records in order, rejects the others as they came |
| Contracts.ContractConserves | packages/workflow-engine/src/runtime/contracts.ts:25-48 | delivered and rejected records together are exactly the records sent, with multiplicity |
| Contracts.ContractSorts | packages/workflow-engine/src/runtime/contracts.ts:25-94 | acceptance alone decides on which side a record ends |
| Contracts.OutputUnique | packages/workflow-engine/src/runtime/contracts.ts:50-94 | a record has at most one accepted form |
| ContractFields.KindIs | packages/workflow-engine/src/runtime/contracts.ts:96-127 | the name of a type decides alone how its values are coerced |
| ContractFields.CoercesIff | packages/workflow-engine/src/runtime/contracts.ts:96-127 | a value is coerced to exactly the integer, number, boolean or text it reads as, and to nothing else |
| ContractFields.FieldIs | packages/workflow-engine/src/runtime/contracts.ts:57-81 | a missing field is null or rejects the record as `nullable` says; a value that does not fit gives null, the default or a rejection as `onError` says |
| ContractFields.UnknownKeys | packages/workflow-engine/src/runtime/contracts.ts:83-91 | keys no field is named for are dropped, kept with their values or reject the record, as `unknownFields` says |
| ContractFields.AppliedAgain | packages/workflow-engine/src/runtime/contracts.ts:50-94 | with defaults the fields would keep, a contract accepts the records it has put out and leaves them as they are |
| Routing.DefaultOutputPort | packages/workflow-engine/src/runtime/ports.ts:38-45 | a declared port, and `out` whenever that is possible |
| Routing.PortedBatches | packages/workflow-engine/src/runtime/ports.ts:55-68 | no form of output loses or repeats a batch; its ports are all declared if and only if those it names are; normalising again changes nothing |
| Routing.CarryAccounts | packages/workflow-engine/src/runtime/executor.ts:536-551 | on a contract edge, records carried on and records rejected add up to those sent; only an empty rest is dropped |
| Routing.SendsExactly | packages/workflow-engine/src/runtime/executor.ts:482-555 | a delivery sends a batch to a pipe as often as there are a batch of its output and an edge there meant for the same port, a missing name on either standing for the default port, with the records the edge lets through; a fully rejected batch goes nowhere |
| Routing.SendsBelow | packages/workflow-engine/src/runtime/executor.ts:482-555 | whatever a delivery sends goes strictly nearer the end of the DAG, so dispatch terminates |
| Routing.Delivery.Dispatch | packages/workflow-engine/src/runtime/executor.ts:267-327 | the recursive traversal delivers exactly the multiset owed to the batch |
| Routing.Delivery.RouteOutput | packages/workflow-engine/src/runtime/executor.ts:482-515 | delivers everything owed to exactly these sends |
| Routing.ScheduleIrrelevant | packages/workflow-engine/src/runtime/executor.ts:528-554 | any complete interleaving of deliveries gives every pipe the same multiset of batches |
| Routing.PlanOrderAgrees | packages/workflow-engine/src/runtime/executor.ts:243-327 | depth-first delivery equals evaluating the pipes once each in topological order |
| RoutingPlan.DeliveryFollowsPlan | packages/workflow-engine/src/runtime/executor.ts:243-258 | for every pipeline that `planExecution` accepts, its plan order is such an order and delivery terminates |
| PipeProgress.NoLostProgress | packages/workflow-engine/src/runtime/executor.ts:831-910 | in every interleaving over many pipes, an idle pipe's counters are its start plus every mark that did not fail before it was cached, and its stored record has the first of these, all of them when nothing was cached since the last put that took effect |
| PipeProgress.BatchesAre | packages/workflow-engine/src/runtime/executor.ts:862-890 | what counts as progress is each update of a running or successful pipe that carries a batch |
| PipeProgress.StoreLagsIff | packages/workflow-engine/src/runtime/executor.ts:893-894 | with no put under way the stored record lacks marks that were cached if and only if the last put failed without effect |
| PipeProgress.CachedDropsNothing | packages/workflow-engine/src/runtime/executor.ts:868-876 | once a record is cached no later failure loses a mark |
| PipeProgress.NoReadFailureNoDrop | packages/workflow-engine/src/runtime/executor.ts:838-852 | without a failing first read every mark counts |
| PipeProgress.PipeUpdates.MarkPipe | packages/workflow-engine/src/runtime/executor.ts:831-852 | queues behind the pipe's own updates and touches no other pipe |
| PipeProgress.PipeUpdates.ApplyUpdate | packages/workflow-engine/src/runtime/executor.ts:854-894 | caches the old counters plus this mark before storing them, for this pipe only |
| CircuitBreaker.EnsureOk | packages/db/src/cores/circuit-breaker.ts:141-169 | a key gets a circuit and the bound holds; the others are unchanged, and exactly those are lost that had to make room: the healthy ones of a full table, or its oldest if none is |
| BreakerRuns.OneTrialPerPeriod | packages/db/src/cores/circuit-breaker.ts:183-256 | with a success threshold of 1, in every interleaving with late completions, trials of a circuit are at least the cooldown apart from each other and from its openings and one per half-open period, and no other call gets through a circuit that has opened |
| BreakerRuns.OneTrialPerPeriodIff | packages/db/src/cores/circuit-breaker.ts:227-236 | that holds in all runs if and only if one success closes the circuit |
| BreakerRuns.NeverMoreThanMaxCircuits | packages/db/src/cores/circuit-breaker.ts:141-169 | the map never exceeds its bound |
| BreakerOutcomes.OutcomesDecide | packages/db/src/cores/circuit-breaker.ts:183-256 | in every run and with any thresholds, a circuit is closed if and only if its calls have never failed `failureThreshold` times in a row, and counts the failures since its last success; half-open, it counts the successes of its period, fewer than `successThreshold` |
| BreakerOutcomes.OpensAndClosesIff | packages/db/src/cores/circuit-breaker.ts:227-256 | a closed circuit opens, for the whole cooldown, if and only if the last `failureThreshold` of its calls have all failed; a half-open one opens on any failure and goes away if and only if its period has seen `successThreshold` successes |
| BreakerOutcomes.GetsThroughIff | packages/db/src/cores/circuit-breaker.ts:171-211 | a call gets through if and only if its circuit is closed or missing, or its cooldown is over or it is half-open with no trial in flight |
| BreakerObject.Breaker.EnsureCircuit | packages/db/src/cores/circuit-breaker.ts:141-169 | the eviction loop and the map update leave the table the transition system prescribes |
| BreakerObject.Breaker.RunBegins | packages/db/src/cores/circuit-breaker.ts:189-211 | claims the trial slot in the same step as the state check |
| BreakerObject.Breaker.RunEnds | packages/db/src/cores/circuit-breaker.ts:213-256 | records the outcome as the transition system does, so `BreakerOutcomes` speaks of it, and frees only the slot of the circuit that let the call in |
| PoolRuns.PoolsConserved | packages/db/src/cores/pool-cache.ts:58-142 | in every interleaving each pool is live or disposed of exactly once, creations are one per key, the map is in last-use order, and pools plus creations stay within the bound and the peak overlap |
| PoolCache.StaleAre | packages/db/src/cores/pool-cache.ts:116-129 | the expired keys are exactly those not used for `idleTtlMs`, each once and the least recently used first |
| PoolRuns.UndisturbedReuse | packages/db/src/cores/pool-cache.ts:69-73 | a call of its own run for a pool used more lately is given that pool, creates none, and disposes of exactly the expired pools, the least recently used first |
| PoolRuns.ServedIsLive | packages/db/src/cores/pool-cache.ts:69-103 | whatever pool a call is given is the live pool of its key at that moment |
| PoolRuns.ArrivesKeeps | packages/db/src/cores/pool-cache.ts:91-100 | when a pool arrives its key has none, so the duplicate branch is never taken |
| PoolRuns.PeakBoundReached | packages/db/src/cores/pool-cache.ts:78-103 | for every limit and every number of overlapping creations, some run keeps that many pools more than `maxPools - 1` |
| PoolRuns.MaxPoolsKeptIff | packages/db/src/cores/pool-cache.ts:78-103 | the limit holds in all runs with at most K overlapping creations if and only if K is at most 1 |
| PoolCache.OldestIsLeastRecentlyUsed | packages/db/src/cores/pool-cache.ts:131-135 | the first entry of the map is the least recently used |
| PoolObject.BoundedPoolCache.Peek | packages/db/src/cores/pool-cache.ts:58-67 | returns the live pool and makes it the newest |
| PoolObject.BoundedPoolCache.LoopForRoom | packages/db/src/cores/pool-cache.ts:78-91 | evicts until there is room, one disposal per step |
| PoolObject.BoundedPoolCache.Keep | packages/db/src/cores/pool-cache.ts:91-103 | stores the new pool and ends the creation |
| Migration.SupportOf | packages/db/src/modules/dialect-transaction-support.ts:44-103 | no engine is said to undo DDL that cannot undo DML |
| Migration.ExactlyOneDone | packages/db/src/modules/migration.module.ts:86-187 | every run of either mode emits exactly one `done`, last |
| MigrationReports.AtomicReports | packages/db/src/modules/migration.module.ts:86-137 | an all-or-nothing run reports every step up to the first whose statements do not all run, by name and in order, as skipped or as begun and successful, that one as begun and failed, and none after it; it reports success if and only if there is none such and the commit works |
| MigrationReports.ContinueReports | packages/db/src/modules/migration.module.ts:146-187 | a run that goes on reports every step, by name and in order, as successful if and only if its own transaction and statements all work on what the steps before it left |
| MigrationTruth.AtomicSuccessIsTruthful | packages/db/src/modules/migration.module.ts:86-119 | reported success means the target is all non-skipped steps applied in order |
| MigrationTruth.RolledBackIsTruthfulIff | packages/db/src/modules/migration.module.ts:119-131 | when a rollback is reported, the target is unchanged if and only if the commit did not take effect while being reported failed, or the plan changes nothing |
| MigrationTruth.LateCommitReportedRolledBack | packages/db/src/modules/migration.module.ts:119-131 | every such commit is reported as rolled back, with the whole plan applied |
| MigrationTruth.ReportsTrueThroughoutIff | packages/db/src/modules/migration.module.ts:146-187 | with working rollback, whichever statements it undoes, the target is after each step exactly the steps reported SUCCESS so far if and only if no step reported FAILED leaves anything |
| MigrationTruth.LeavesNothingIff | packages/db/src/modules/migration.module.ts:164-183 | a step whose statements a rollback undoes leaves nothing when it fails if and only if its commit did not take effect late, or changes nothing |
| MigrationTruth.StatementsSealed | packages/db/src/modules/migration.module.ts:170-174 | when statements in a transaction stop at a failure, what others see is exactly the sealed ones applied |
| MigrationTruth.TableStaysRowsGo | packages/db/src/modules/dialect-transaction-support.ts:52-57 | where rollback undoes rows and not tables, a failed step leaves the table it made and not the rows it put in |
| MigrationTruth.LaterStepCanHideIt | packages/db/src/modules/migration.module.ts:146-187 | the end of a run alone does not tell, since a later step can write over what an earlier one left |
| MigrationTruth.ContinueIsTruthful | packages/db/src/modules/migration.module.ts:146-187 | where no failed step leaves anything the target is at the end exactly the steps reported SUCCESS, applied in order; a run that could not choose its schema leaves it untouched |
| MigrationTruth.ModesAgree | packages/db/src/modules/migration.module.ts:86-187 | when nothing fails both modes leave the same target and emit the same events |
| MigrationModule.ExecuteAtomic | packages/db/src/modules/migration.module.ts:86-137 | the loops over a connection with its transaction state do what the theorems speak of, event for event |
| MigrationModule.ExecuteContinueOnError | packages/db/src/modules/migration.module.ts:146-187 | likewise with a transaction per step |
| SchemaUpgrade.InterruptedUpgradesConverge | packages/server/src/database/schema.ts:591-650 | after any runs stopped at any statement, a completed run leaves the schema of one clean upgrade and records each migration once, in list order |
| SchemaUpgrade.LaterRunCompletes | packages/server/src/database/schema.ts:596-650 | no interruption keeps a later run from completing |
| SchemaUpgrade.CleanUpgradeIff | packages/server/src/database/schema.ts:613-634 | a clean upgrade exists if and only if no column is added to a table that neither exists nor is created earlier |
| SchemaUpgrade.HealsRun | packages/server/src/database/schema.ts:614-634 | tolerated errors are enough: a partly applied migration run again throws nowhere and ends like a clean one |
| SchemaUpgrade.MetadataStore.RunMigrations | packages/server/src/database/schema.ts:596-650 | the nested loops with their catch, stopped anywhere, take exactly the steps the theorems speak of |
| SmtpReplies.ChunkIndependentIff | packages/db/src/mail/smtp.ts:123-144 | every cutting of a stream of bytes gives the same replies, unreadable lines and leftover if and only if each byte is decoded by itself and no complete line follows an unreadable one |
| SmtpReplies.TextChunksIff | packages/db/src/mail/smtp.ts:123-124 | of well-formed UTF-8, exactly the ASCII of that kind can be cut anywhere |
| SmtpReplies.ChunksDoNotMatter | packages/db/src/mail/smtp.ts:123-144 | such a stream fed in any chunks, each decoded by itself, equals the stream decoded and fed whole |
| SmtpReplies.ReadsWhatIsPrinted | packages/db/src/mail/smtp.ts:123-144 | replies printed as sections 4.2 and 4.2.1 of RFC 5321 have it are read back, in order, however their bytes are cut |
| SmtpConnection.RepliesConserved | packages/db/src/mail/smtp.ts:123-163 | in every run no reply is lost, repeated or reordered, and the first failure stays |
| SmtpConnection.KthReadGetsKthReply | packages/db/src/mail/smtp.ts:139-163 | while nothing failed, the k-th read gets the k-th reply, whichever came first, and a read waits only with no reply queued |
| SmtpConnection.NextReadGets | packages/db/src/mail/smtp.ts:155-163 | a read takes the first reply that has arrived and was not given out, also after a failure; only with none left is it rejected or does it wait |
| SmtpConnection.NoReadAbandonedIff | packages/db/src/mail/smtp.ts:155-163 | every read is answered or still waiting if and only if reads are made one at a time |
| SmtpConnection.ReplyPerRead | packages/db/src/mail/smtp.ts:123-163 | printed replies reach the reads one for one, however their bytes are cut and whenever they come |
| SmtpConnection.Connection.Receive | packages/db/src/mail/smtp.ts:123-144 | the loop over the buffer hands over exactly the replies of its complete lines, and stops at an unreadable one |
| SmtpConnection.Connection.Fail | packages/db/src/mail/smtp.ts:147-153 | keeps the first failure and rejects the waiting read once |
| SmtpConnection.Connection.Read | packages/db/src/mail/smtp.ts:155-163 | queue first, then the failure, then waiting |
| DotStuffing.ReceivedAsSent | packages/db/src/mail/smtp.ts:334-336 | the receiver of section 4.5.2 of RFC 5321 gets every message back and takes up exactly after the end mark |
| DotStuffing.MarkOnlyAtEnd | packages/db/src/mail/smtp.ts:334-336 | the end mark of section 4.1.1.4 of RFC 5321 occurs where the client put it and nowhere before |
| SmtpEncoding.EncodeHeader | packages/db/src/mail/smtp.ts:253-266 | the gathering loop cuts the value as the specification does |
| SmtpEncoding.HeaderWordsFit | packages/db/src/mail/smtp.ts:253-266 | the words are the whole value, split no character, are cut as late as possible, and none passes 75 characters |
| SmtpEncoding.EncodedHeaderReads | packages/db/src/mail/smtp.ts:253-266 | a reader of section 6.2 of RFC 2047 sees every non-plain value again |
| SmtpEncoding.HeaderIsPlain | packages/db/src/mail/smtp.ts:253-266 | whatever the value holds, line breaks included, the header has only printable ASCII but for its own folds |
| SmtpEncoding.PlainHeaderReadsIff | packages/db/src/mail/smtp.ts:254-254 | a plain value is seen unchanged if and only if none of its tokens is an encoded word |
| SmtpEncoding.SubjectLineFitsIff | packages/db/src/mail/smtp.ts:281-281 | the subject's first line keeps the line limit if and only if the subject has at most 39 bytes |
| SmtpEncoding.BodyLinesJoin | packages/db/src/mail/smtp.ts:268-272 | body lines are at most 76 characters, none empty, and rejoin to the encoding |
| SmtpEncoding.BodyPartReads | packages/db/src/mail/smtp.ts:268-272 | a part is decoded to the body it was made of |
| SmtpEncoding.AlternativeReads | packages/db/src/mail/smtp.ts:286-298 | whatever the bodies hold, the boundary stands only between parts, and both bodies are read back |
| Base64.DecodeEncode | packages/db/src/mail/smtp.ts:265-265 | decoding an encoding gives the bytes back |
| Utf8.DecodeEncode | packages/db/src/mail/smtp.ts:265-265 | decoding an encoding gives the text back |
| Utf8.LossyEncode | packages/db/src/mail/smtp.ts:124-124 | the decoder that replaces what spells nothing gives encoded text back, reading byte by byte exactly when it is ASCII |
| EventStream.ExactlyOnce | apps/workflow-server/src/routes/runs.ts:187-247 | at every moment of every interleaving, what was sent is a gap-free, duplicate-free, increasing run of the store after the start |
| EventStream.EndMeansAll | apps/workflow-server/src/routes/runs.ts:201-235 | `end` is sent at most once, and only after every event stored when the run was seen to be over |
| EventStream.NothingAfterTheEnd | apps/workflow-server/src/routes/runs.ts:214-239 | `end` is the last thing written |
| EventStream.ElevenPollsEnd | apps/workflow-server/src/routes/runs.ts:221-235 | once the run is over and nothing is appended, eleven answered polls end the stream |
| EventStream.FirstWriteFailsIff | apps/workflow-server/src/routes/runs.ts:214-247 | unless the client leaves, a stream falls silent without an end if and only if a read of its first write fails |
| EventStream.LaterFailureEnds | apps/workflow-server/src/routes/runs.ts:240-247 | after a failed read of a later write, eleven answered polls still end the stream of a run that is over |
| EventStream.Stream.Flush | apps/workflow-server/src/routes/runs.ts:204-213 | the loop sends all it was given and remembers the last number and any terminal status |
| EventStream.Stream.OnEvents | apps/workflow-server/src/routes/runs.ts:220-235 | after a read: leave, ask for the run record, or finish |
| WorkflowEdits.DedupeDependencies | apps/workflow-server/src/workflow-mutation.ts:173-178 | the insertion-ordered map keeps one entry per key, where it was first mentioned, with its last value |
| WorkflowEdits.DedupedKeepsEdges | apps/workflow-server/src/workflow-mutation.ts:173-178 | merging keeps exactly the last dependency of every key, and the same edges if and only if no two of them share a key |
| WorkflowEdits.ApartIff | apps/workflow-server/src/workflow-mutation.ts:176-176 | edges between some ids can share a key if and only if one id continues another past a NUL by what a third begins with |
| WorkflowEdits.AddKeepsLegal | apps/workflow-server/src/workflow-mutation.ts:68-135 | adding or replacing keeps ids distinct and dependencies closed |
| WorkflowEdits.RemoveKeepsLegal | apps/workflow-server/src/workflow-mutation.ts:137-171 | so does removing |
| WorkflowEdits.AddOkIff | apps/workflow-server/src/workflow-mutation.ts:72-99 | an addition is refused exactly for a taken id without `replace` or an end not in the document |
| WorkflowEdits.AddRefusedWith | apps/workflow-server/src/workflow-mutation.ts:72-99 | a refused addition names the taken id or the first unknown end, of those it waits for first |
| WorkflowEdits.RemoveOkIff | apps/workflow-server/src/workflow-mutation.ts:141-163 | a removal is refused exactly for a missing, only or depended-on pipeline |
| WorkflowEdits.RemoveRefusedWith | apps/workflow-server/src/workflow-mutation.ts:141-163 | a refused removal says why, and names exactly the pipelines that depend on it |
| WorkflowEdits.AddLeavesPipelines | apps/workflow-server/src/workflow-mutation.ts:101-134 | adding touches no other pipeline and no other field of the document |
| WorkflowEdits.RemoveLeavesRest | apps/workflow-server/src/workflow-mutation.ts:165-170 | removing takes out that pipeline and the dependencies into it, and nothing else |
| EditedPlans.AddWires | apps/workflow-server/src/workflow-mutation.ts:108-134 | each edge has the last dependency asked for it, else what it had, unless a replace dropped it |
| EditedPlans.FeedsAsAsked | apps/workflow-server/src/workflow-mutation.ts:114-134 | each pipeline to be fed has one dependency on the new one, on success unless asked otherwise, with the gate asked for unless it is empty |
| EditedPlans.DependsAsAsked | apps/workflow-server/src/workflow-mutation.ts:114-134 | likewise each pipeline it is to wait for |
| EditedPlans.AddAcyclicIff | apps/workflow-server/src/workflow-mutation.ts:68-135 | an added or replaced pipeline makes a cycle exactly when it names itself, or something it feeds, as asked or from before, leads back to something it waits for |
| EditedPlans.AddKeepsWaves | apps/workflow-server/src/workflow-mutation.ts:68-135 | a new pipeline that feeds nothing leaves every other in its wave |
| EditedPlans.RemoveKeepsWaves | apps/workflow-server/src/workflow-mutation.ts:137-171 | removing a pipeline leaves every other in its wave and changes nothing about cycles |
| EditedPlans.AddThenRemove | apps/workflow-server/src/workflow-mutation.ts:68-171 | removing what was added restores the pipelines and the dependencies, one per edge |
| EditedPlans.ReplaceTwice | apps/workflow-server/src/workflow-mutation.ts:106-135 | the same replacement again changes no pipeline and no edge's dependency |
| GraphEdits.WiredAcyclicIff | apps/workflow-server/src/workflow-mutation.ts:114-134 | the graph fact behind it: exactly when wiring in a node closes a cycle |
| WorkflowExtract.ExtractKeepsPlan | apps/workflow-server/src/workflow-extract.ts:52-178 | whatever the planner made of the document, waves or error, it makes of it after extraction |
| WorkflowExtract.ExtractOkIff | apps/workflow-server/src/workflow-extract.ts:56-75 | extraction is refused exactly for a missing pipeline and for an id that is blank or the document's own |
| WorkflowExtract.ExtractedHasPurpose | apps/workflow-server/src/workflow-extract.ts:77-98 | the new document always has a purpose, and its pipeline a task |
| WorkflowExtract.MovesThePipeline | apps/workflow-server/src/workflow-extract.ts:52-122 | the new document has the first pipeline of that id, with its pipes, edges and plan, inherits the origin, and may be called by the old one only |
| WorkflowExtract.NamesTheDocument | apps/workflow-server/src/workflow-extract.ts:77-98 | purpose and name are those given, else the pipeline's task and name |
| WorkflowExtract.LeavesACaller | apps/workflow-server/src/workflow-extract.ts:124-178 | the old document keeps its other pipelines and fields; in the place of the moved one stands a caller of the new document, pinned as asked, that always has a plan |
| WorkflowExtract.SplitTargets | apps/workflow-server/src/workflow-extract.ts:124-178 | the two documents together refer to exactly what the old one did, and the new workflow |
| WorkflowExtract.ExtractKeepsReferences | apps/workflow-server/src/workflow-extract.ts:52-178 | with an id no reachable workflow uses, reference cycles are neither made nor removed and everything reachable stays reachable |
| WorkflowExtract.ExtractCyclesIff | apps/workflow-server/src/workflow-extract.ts:66-178 | whether or not a caller is left, a reference cycle can be reached afterwards if and only if one could before, or the pipeline calls the new id or something leading to a workflow that refers to it already |
| WorkflowExtract.ExtractKeepsReach | apps/workflow-server/src/workflow-extract.ts:52-178 | whatever could be reached by references still can, and nothing else but the new workflow |

## Left out

- Sockets, TLS, SQL drivers, SQLite, HTTP replies and timers: stores, adapters and clocks are parameters that may fail at any step.
- Failing traversals in the routing theorems: `Routing` speaks of runs in which every delivery completes; what a failed batch means for its source is in `SourceDelivery`, and what it leaves running in `Traversal` and `RetryOverlap`.
- In `Traversal` what a pipe does with a batch is a function of the batch, and every operation, announcement and record of progress may fail; a process that is stopped takes its traversals with it, so `RetryOverlap` follows one execution.
- Transform and sink checkpoints, which are written in completion order and promise no prefix; only the source's checkpoint is modelled.
- Checkpoints of partitions other than '0' are stored but never read back; the at-least-once theorems hold for them too, since a source then starts over.
- Backoff delays, jitter, debug samples, pipe logs and secret caching in the executor: they do not affect routing or checkpoints.
- Pipe records' timestamps, ids and error texts, and their eviction when an execution ends; an executor without a run store.
- `CoerceValue`: number and text conversion are parameters; lower-casing is ASCII only.
- Sorting compares characters by code point where JavaScript compares UTF-16 code units; both are total orders, and no theorem depends on which.
- What a call that joins a creation in flight is given: it holds the creator's promise. `PoolRuns.ServedIsLive` speaks of the calls that find or create a pool.
- Which errors count as unavailability, and the text of errors: a call's outcome is a parameter of the breaker's steps.
- A `create` that throws before its first await, and `maxPools` of 0, in the pool cache.
- The statement splitter and comment stripper of `runStatement`: whether a statement is executable, and what it does, are parameters.
- A lost connection in the middle of a migration is an operation that fails, before or after taking effect.
- Signup-wizard settings and row changes of schema upgrades, which depend on earlier partial runs; two servers upgrading one database at once.
- SchemaUpgrade.InterruptedUpgradesConverge: creating an index fails only because it exists, and no statement but those of the migrations changes the schema.
- The TLS upgrade of an SMTP connection, which keeps the buffer, and the 80 characters an error message shows of an unreadable line.
- Lone surrogates: text is a sequence of Unicode scalar values.
- Encoded words in charsets other than UTF-8, which a mail reader may also decode: `SmtpEncoding.PlainHeaderReadsIff` speaks of a reader of UTF-8 words, in base64 or `Q`, their names in either case.
- Message headers other than the subject, addresses, and the sign-in dialogue.
- Event stores number the events of a run upwards; a store that does not is not modelled.
- Schemas, triggers, descriptions and middleware of workflow documents, which the edits copy unchanged.
- Workflow packages, credential scopes, middleware, schema-to-table mapping and connection fingerprints would add only simpler statements.
