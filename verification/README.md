# A verified model of the Tendant service

Tendant takes tasks through a chain of stages: triage, expansion, execution, completion. Each task has a
durable workflow; an agent or a human fills each stage; tasks may block one another; tools act for the
owner behind a gate and can earn the right to act alone. This project models the parts of that service
whose guarantees span many operations, and proves those guarantees. Dafny 4.11 checks it with
`dafny verify dfyconfig.toml`.

| files | what they model |
|---|---|
| `Lifecycle.dfy`, `Relations.dfy` | task states; the relation graph, its recursive reach query and its cycle guard |
| `Readiness.dfy` | when a task is ready, and how long it parks when it is not |
| `ChainProtocol.dfy`, `ChainSafety.dfy`, `ChainWakeups.dfy`, `ChainHistory.dfy` | all chain workflows and the resolvers around them as one interleaved machine, its invariants, and what they say about whole runs |
| `ChainPatience.dfy` | how often that machine looks at a task before its start date |
| `ChainResolvers.dfy` | what the owner's mutations come to once their resolver is through |
| `ChainRace.dfy` | the same machine with the completion's read and write as separate steps |
| `ChainStore.dfy` | the transactions of that machine as updates of shared tables |
| `Replay.dfy`, `ReplayOrder.dfy`, `ChainRefinement.dfy` | one chain workflow on a memoizing engine that may die at any moment, what its log shows, and why a restart is the machine's crash step |
| `Embedding.dfy`, `EmbeddingRebuild.dfy`, `EmbeddingHistory.dfy`, `EmbeddingStore.dfy` | blue/green embedding versions, rebuilds running beside each other, their histories, the tables |
| `Agent.dfy`, `AgentHistory.dfy`, `AgentCalls.dfy`, `AgentRunner.dfy`, `AgentBounds.dfy` | the agent loop as a machine over events, its guarantees, what becomes of each call, the loops that drive it, what bounds its model calls |
| `Calibration.dfy`, `CalibrationHistory.dfy`, `CalibrationEngine.dfy` | trust scores, grants, proposals and demotions, their histories, the tables |
| `Interpolate.dfy`, `InterpolateResolve.dfy`, `InterpolateEscape.dfy`, `InterpolateValues.dfy` | `${...}` references in configuration strings, what becomes of escaped ones, what a reference stands for |
| `Cursor.dfy`, `CursorFormat.dfy`, `Paging.dfy` | the page cursor, what it looks like, and keyset pagination of the task list |

A database transaction, a durable step, a send and a receive are one step each. Code that changes rows in
place is a class or a method with loops, proved equal to a step function; the lemmas are about the step
functions and hold for every input, every interleaving and every length of run. What the outside answers
(model, gate, tools, embedder, owner, environment, files) is a function of the moment it is asked.

## Where the code is weaker than its words

Each line names the lemmas with the exact condition and, where it helps, the run or input that shows it.

- A crash between the completion commit and the wake sends loses those wakes; a dependent it finds without a
  blocker left and without a message waits for the re-evaluation, up to six hours later
  (`WakesSurviveExactly`, `CrashLosesExactlyOwedWakes`, `CrashCanLoseWake`).
- A task parked for its start date alone is not woken when the date is moved forward
  (`WakeGuaranteeExact`, `RescheduleWakesNobody`).
- The completion step reads the task state without locking the row, so a cancel that commits between its
  read and its write is overwritten (`UnlockedCompletionExact`, `CancelInsideCompletion`).
- A rebuild that was superseded but is still writing can overwrite served vectors when its slot is the one
  served (`ServedSlotExact`, `StaleBuildCorrupts`), and keys an abandoned build left in the slot are served
  later if the next listing lacks them (`ServedListingExact`, `LeftoversServed`).
- The iteration limit does not bound the model calls of a stage that has a gate budget, an iteration and a
  listed tool, because a resume restarts the same iteration (`IterationLimitExact`, `BoundIsReached`); and
  calls proposed after one that needs the owner are dropped (`PendingDropsTheRest`).
- A demotion lifts a score that is below the baseline (`DemotionExact`), and approvals are all earned only
  if every decrement used is positive (`EarnedExact`, `NoDecrementKeepsAutonomy`). A window of zero makes a
  routine eligible whose proposal cannot be written, and a negative one is refused by the query; either ends
  the sweep (`BreaksExactly`).
- `$$` is documented as a literal `$`, yet no result ever contains `${`: a string with `$${` fails, unless
  expansions ending in an odd run of dollars stand directly before the escape; then the reference it was to
  protect is live (`EscapeExact`, `EscapeUndone`, `ResolvableExact`), and a live file reference there becomes
  escaped, so that the string fails (`LiveKept`, `ReferenceEscaped`). A secret that contains `$$` or `${` does
  not come through as it is, be it from a variable or a file (`EnvValueVerbatim`, `FileValueVerbatim`).
- A page size of 2147483647 or more wraps the limit, which fails the query or drops tasks
  (`PageSizeExact`, `WrapExact`); a task created in a year without four digits gets a cursor the server rejects
  (`CursorRoundTrip`).

## Model

| member | source | states |
|---|---|---|
| `Lifecycle.StatesExact` | services/api/internal/lifecycle/edges.go:37-84 | Each state is entered from the listed states only, intake adds one edge, and the terminal states are exactly those no edge leaves. |
| `Relations.ReachSetExact` | services/api/internal/db/relations.sql.go:416-441 | The recursive reach query ends on any graph, cyclic ones included, and returns exactly the tasks reachable by one or more edges of the kind. |
| `Relations.GuardIsExact` | services/api/graph/relations.resolvers.go:29-48 | On an acyclic graph the guard refuses an edge if and only if the edge would make the graph cyclic. |
| `Relations.AddKeepsValid` | services/api/graph/relations.resolvers.go:20-67 | An add succeeds exactly when the edge is new and the table with it still has all its properties; otherwise the table is unchanged. |
| `Relations.RunsKeepTableValid` | services/api/graph/relations.resolvers.go:20-123 | After any sequence of adds and removals the blocks and subtask_of graphs are acyclic and every task has at most one parent and one original. |
| `Relations.RelationTable.AddTaskRelation` | services/api/graph/relations.resolvers.go:20-67 | Each outcome is given if and only if it is due in the order of the checks (self, cycle, then parent, duplicate or known edge by the kind, then an unknown task), and only success changes the table. |
| `Relations.RelationTable.RemoveTaskRelation` | services/api/graph/relations.resolvers.go:96-123 | Removes the one edge, reports whether it was there, and wakes the former dependent exactly when a blocks edge went. |
| `Relations.SomeMemberUnblocked` | services/api/graph/relations.resolvers.go:34-48 | Every nonempty finite set of tasks in an acyclic graph has a member none of the others blocks. |
| `Relations.NoMutualBlocking` | services/api/internal/db/relations.sql.go:14-19 | A nonempty set of live tasks that contains its own live blockers has a member with no unmet blocker. |
| `Relations.CycleWouldDeadlock` | services/api/graph/relations.resolvers.go:34-48 | What the guard rules out: live tasks each blocked by another of them never become ready, over any sequence of states in which work ends only after readiness. |
| `Relations.PairBlocksItself` | services/api/graph/relations.resolvers.go:34-48 | Two tasks that block each other are such a set, and a cycle. |
| `Readiness.ParkBounds` | services/api/internal/chain/readiness.go:48-58 | Every park lasts between one second and six hours, and ends within a millisecond before and a second after a start date that is nearer than six hours. |
| `Readiness.EvaluationsBounded` | services/api/internal/chain/workflow.go:746-768 | A task held only by a start date d away is looked at in vain at most floor(d/6h)+2 times on a clock that does not go back. |
| `Readiness.EvaluationsBoundTight` | services/api/internal/chain/readiness.go:48-58 | That bound is reached. |
| `ChainPatience.VainLooksBounded` | services/api/internal/chain/workflow.go:746-768 | On every run of the machine, crashes and wakes included, a task at the gate whose start date is d away and stays the same is evaluated before it at most floor(d/6h)+2 times, and once more for each message it takes. |
| `ChainSafety.StepKeepsSound` | services/api/internal/chain/workflow.go:182-324 | Every step of every workflow and resolver keeps the invariant tying task states to program counters, inboxes and open resolvers, and moves each state along legal edges only. |
| `ChainWakeups.RunKeepsSound` | services/api/internal/chain/workflow.go:182-324 | That invariant holds in every state any run reaches, crashes included. |
| `ChainSafety.GateDecides` | services/api/internal/chain/workflow.go:773-810 | Under that invariant the gate lets a live task into execution if and only if it is ready, and otherwise parks it, waiting, on exactly its unmet blockers. |
| `ChainHistory.TerminalForever` | services/api/internal/chain/workflow.go:700-726 | Over any run, crashes included, a terminal state never changes, so a cancelled task is never later done; states only climb. |
| `ChainHistory.ExecutionWasGated` | services/api/internal/chain/workflow.go:773-810 | Whoever is executing or done entered through one readiness evaluation that found all blockers terminal and the start date reached, and those blockers have kept their states since. |
| `ChainWakeups.StepKeepsCovered` | services/api/internal/chain/workflow.go:826-840 | Every step but a crash keeps each parked task covered: a queued message, a sender under way, or a blocker that still stands. |
| `ChainWakeups.NoLostWakeup` | services/api/internal/chain/workflow.go:746-840 | In every crash-free run a chain parked on blockers that has none left has a wake queued or a sender that has yet to send it. |
| `ChainWakeups.WaitingIsAttended` | services/api/internal/chain/workflow.go:746-768 | In any run, crashes included, every waiting task has a chain that is about to evaluate or is parked for one second to six hours and wakes by itself. |
| `ChainWakeups.NoDeadlock` | services/api/internal/chain/readiness.go:24-40 | When nothing is in flight, whoever is parked on blockers really has one, and some live task has none. |
| `ChainWakeups.CrashLosesExactlyOwedWakes` | services/api/internal/chain/workflow.go:202-211 | After a crash a waiting task parked on blockers has none left, no message and no sender under way if and only if the crash found it without a blocker left and with an empty inbox. |
| `ChainWakeups.WakesSurviveExactly` | services/api/internal/chain/workflow.go:202-211 | Over every run with any crashes: at every point a waiting task that parked on blockers and has none left has a message queued or a sender under way, if and only if no crash of the run found it without a blocker left and with an empty inbox. |
| `ChainHistory.CrashCanLoseWake` | services/api/internal/chain/workflow.go:293-324 | A reachable state in which a crash between the completion commit and the sends has left a dependent parked on nothing for the full six hours. |
| `ChainHistory.WakeGuaranteeExact` | services/api/internal/chain/workflow.go:746-768 | In crash-free runs every waiting task that is parked and has no blocker left is sure to be woken if and only if it parked on some blocker. |
| `ChainHistory.RescheduleWakesNobody` | services/api/graph/schema.resolvers.go:167-195 | Moving a start date forward sends no wake: a crash-free run leaves a task that is ready parked for six hours. |
| `ChainResolvers.CancelTakesEffect` | services/api/graph/schema.resolvers.go:256-326 | A cancel taken to its end halts the task, whatever live state it was in, stops its chain and sends it the sentinel exactly when that is under way, wakes every task still waiting behind it once, and changes nothing else. |
| `ChainResolvers.DismissTakesEffect` | services/api/graph/schema.resolvers.go:364-420 | A dismissal taken to its end leaves the task dismissed and wakes every task still waiting behind it once. |
| `ChainResolvers.RemoveTakesEffect` | services/api/graph/relations.resolvers.go:96-123 | Removing a blocks edge sends the task it blocked one wake; removing any other edge, or none, wakes nobody. |
| `ChainResolvers.ParkEnds` | services/api/internal/chain/workflow.go:746-768 | A parked chain nobody wakes stands at the gate again once its deadline is reached, not before, with nothing else changed. |
| `ChainResolvers.ProposalCanFinish` | services/api/internal/chain/workflow.go:182-324 | In every sound world a new proposal can be accepted, attached and taken through all stages: it ends done, its chain returned, and nothing else has changed. |
| `ChainRace.UnlockedCompletionExact` | services/api/internal/chain/workflow.go:700-726 | The completion reads the state without a row lock: over every run in which its read and its write are separate steps, terminal states are kept at every step if and only if no cancel of a task commits between the two. |
| `ChainRace.StaleExact` | services/api/internal/chain/workflow.go:700-726 | What a completion under way has read is out of date exactly when a cancel of the task committed since. |
| `ChainRace.RaceRunSound` | services/api/internal/chain/workflow.go:182-324 | The invariant of the machine holds in every state those runs reach. |
| `ChainRace.ReadThenWriteIsAdvance` | services/api/internal/chain/workflow.go:700-726 | With nothing in between, read and write are the one completion step of the machine. |
| `ChainRace.CancelInsideCompletion` | services/api/internal/chain/workflow.go:856-885 | A reachable state in which the cancel has committed in between, the task is halted and the pending write makes it done. |
| `ChainStore.Store.EvaluateReadiness` | services/api/internal/chain/readiness.go:24-40 | Ready if and only if no blocker is unmet and the start date has arrived. |
| `ChainStore.Store.RunReadinessStep` | services/api/internal/chain/workflow.go:773-810 | The transaction performs the evaluation step of the machine: a terminal task ends it, a ready one is let into execution from accepted or waiting, any other one waits. |
| `ChainStore.Store.RunCompletionStep` | services/api/internal/chain/workflow.go:700-726 | The transaction performs the completion step of the machine: an executing task is done, any other keeps its state. |
| `ChainStore.Store.HandleCancelCleanup` | services/api/internal/chain/workflow.go:856-885 | The task is halted, unless it was terminal already; nothing else changes. |
| `ChainStore.Store.DismissProposedTask` | services/api/graph/schema.resolvers.go:364-408 | Succeeds exactly for proposed tasks and accepted intake tasks, and leaves them dismissed. |
| `ChainStore.Store.WakeDependents` | services/api/internal/chain/workflow.go:826-840 | Each accepted or waiting task the ended one blocks hears exactly one more wake, in id order; nobody else hears anything. |
| `ChainStore.PostAllExact` | services/api/internal/db/relations.sql.go:244-251 | Sending to a list of distinct dependents adds one wake to each inbox of the list and none elsewhere. |
| `Replay.ChainWorkflow` | services/api/internal/chain/workflow.go:182-324 | Re-executed from the top on any of its own logs, the workflow issues the recorded names over the whole log; the new log is the record of all values supplied, or unchanged when the task is terminal. |
| `Replay.OccupyHumanAndWait` | services/api/internal/chain/workflow.go:351-374 | The wait loop and its timeouts issue the operations of the reference automaton in order, however often the slot expires. |
| `Replay.RunReadinessGate` | services/api/internal/chain/workflow.go:746-768 | The gate alternates evaluation and receive as the reference automaton does and ends with the routing of execution. |
| `Replay.RunOpenAssignmentStep` | services/api/internal/chain/workflow.go:498-591 | A push is issued exactly when the assignment got an id, pushes are wired and the owner is known. |
| `Replay.FinishTask` | services/api/internal/chain/workflow.go:293-324 | Completion, listing, one send per dependent, then the feedback start, in the order of the reference automaton. |
| `Replay.CrashesLeaveNoTrace` | services/api/internal/chain/workflow.go:193-211 | However often and wherever the process dies, the log is the one an uninterrupted lifetime with the same answers leaves. |
| `Replay.EveryLogReplays` | services/api/internal/chain/workflow.go:182-324 | Every log some sequence of lifetimes leaves is the record of its own values, so it can be replayed again. |
| `Replay.WiringExact` | services/api/internal/chain/workflow.go:135-150 | Two boots agree on every log if and only if they agree on pushes to a known owner, on the durable agent path and on the feedback start. |
| `ReplayOrder.OrderOfOperations` | services/api/internal/chain/workflow.go:182-324 | In every log each operation is the one its predecessor and the value recorded for that call for: routing, agent result, slot, push, wait, timeout, gate, stage order, completion, wakes. |
| `ReplayOrder.StageClosedByFiller` | services/api/internal/chain/workflow.go:243-290 | A stage is closed only directly after a message to its human, a result of its agent that is not a fail-close, or a routing step that filled it itself. |
| `ReplayOrder.HumanSlotExact` | services/api/internal/chain/workflow.go:248-276 | A slot for a human is opened if and only if the routing decided for a human or the agent of the stage failed closed just before. |
| `ReplayOrder.GateBeforeExecution` | services/api/internal/chain/workflow.go:228-296 | Execution is routed only after an evaluation that found the task ready, and completion only after execution was closed. |
| `ReplayOrder.TimeoutsNumbered` | services/api/internal/chain/workflow.go:351-374 | The timeouts of a slot are recorded under the numbers one, two, three and so on, each after a wait that expired. |
| `ReplayOrder.WakesInOrder` | services/api/internal/chain/workflow.go:826-840 | After the listing the dependents are woken one by one in its order, then the feedback starts if it is wired. |
| `ReplayOrder.GoesOnExactly` | services/api/internal/chain/workflow.go:182-324 | While there are values a run goes on if and only if the value is one its operation continues with: a failure, a cancel or a terminal task ends it there. |
| `ReplayOrder.SendsGoOnExactly` | services/api/internal/chain/workflow.go:826-840 | After a wake that was sent the run goes on if and only if another one or the feedback start is left. |
| `ChainRefinement.StepSimulates` | services/api/internal/chain/workflow.go:213-324 | Each step of a chain in the machine is what the code does when its operations yield the answers of that step. |
| `ChainRefinement.OperationIsStep` | services/api/internal/chain/workflow.go:213-324 | Conversely, every operation of the code, in whatever way a stage is filled, either stays within the counter of the machine or is the next step of the machine; a value the code does not go on with ends it. |
| `ChainRefinement.RunSimulated` | services/api/internal/chain/workflow.go:182-324 | In every state of every run, crashes included, each chain under way stands where its code stands on the answers that run gave it. |
| `ChainRefinement.RestartStands` | services/api/internal/chain/workflow.go:193-211 | Replayed on the log it left, the code stands where it stood when the process died. |
| `ChainRefinement.CrashIsRestart` | services/api/internal/chain/workflow.go:193-211 | A crash of the machine is a restart of the code: a chain exits exactly when it is stopped or its task has ended; any other keeps its counter, and its code, run again on the log this very run left, issues nothing new and stands there. |
| `Embedding.RunKeepsProtocol` | services/api/internal/embedding/reindex.go:184-297 | In every reachable state at most one version is active and one building, the building one newest and on the other slot; statuses only move on; the active version number never decreases. |
| `Embedding.LastConfigurationWins` | services/api/internal/embedding/reindex.go:229-297 | From a configuration change on, whatever flips are attempted, the registry builds that configuration or serves it with nothing building. |
| `Embedding.EnsureSettles` | services/api/internal/embedding/reindex.go:260-296 | A build is started exactly when the configuration is neither being built nor served, and repeating the request changes nothing. |
| `Embedding.EnsureExact` | services/api/internal/embedding/reindex.go:241-297 | A request gives up exactly the build for another configuration and starts, if any, the next version: building, with that configuration, on the slot that is not served. |
| `Embedding.FlipKeepsProtocol` | services/api/internal/embedding/reindex.go:184-227 | A flip succeeds exactly for the building version, which then is the one active version. |
| `EmbeddingRebuild.BuildingWritesElsewhere` | services/api/internal/embedding/store.go:95-110 | While a version is building, none of its batches changes a vector in the slot being served. |
| `EmbeddingHistory.FlipServesTheRebuild` | services/api/internal/embedding/reindex.go:85-227 | If superseded builds are stopped, at the flip the served slot is what its prepare step in the run found, overlaid with every item listed then and the vector the run wrote for it since, and the retired slot is empty. |
| `EmbeddingHistory.PreparedFrom` | services/api/internal/embedding/reindex.go:91-153 | Every build of every run goes back to one prepare step: its slot, listing and former column are those of that step, its vectors those written since. |
| `EmbeddingHistory.RunKeepsSane` | services/api/internal/embedding/reindex.go:184-297 | The invariant of rebuilds holds in every state any run reaches, stopped builds or not. |
| `EmbeddingHistory.ServedListingExact` | services/api/internal/embedding/reindex.go:91-115 | After the flip the served keys are the listing if and only if the slot held no key outside the listing when it was prepared. |
| `EmbeddingHistory.LeftoversServed` | services/api/internal/embedding/reindex.go:91-115 | A run with every superseded build stopped that serves an item its listing does not have. |
| `EmbeddingHistory.ServedSlotExact` | services/api/internal/embedding/reindex.go:122-153 | In every reachable state no content of a build's next batch can change what is served if and only if its slot is not the one served, which holds for every build still building. |
| `EmbeddingHistory.StaleBuildCorrupts` | services/api/internal/embedding/reindex.go:122-153 | A reachable run in which a superseded build overwrites a vector that is being served. |
| `EmbeddingStore.GatheredAt` | services/api/internal/embedding/reindex.go:122-153 | The 64-sized batches partition the list: item k is embedded once, as entry k mod 64 of batch k div 64. |
| `EmbeddingStore.BatchVectorsExact` | services/api/internal/embedding/reindex.go:128-146 | The n-th call hands the embedder the texts of items 64n, 64n+1 and so on in that order, and takes an answer of that length only. |
| `EmbeddingStore.EachItsOwn` | services/api/internal/embedding/reindex.go:122-153 | Embedding and writing the list gives the last item of every key the vector the embedder made at the position of its own text, and changes no other key. |
| `EmbeddingStore.OwnVector` | services/api/internal/embedding/reindex.go:122-153 | With an embedder f that looks at each text alone, item k is stored with f of its own text. |
| `EmbeddingStore.DimensionExact` | services/api/internal/embedding/reindex.go:147-153 | The dimension is the length of the first vector of the last batch whose first vector has any entries. |
| `EmbeddingStore.Tables.EnsureActiveVersion` | services/api/internal/embedding/reindex.go:241-297 | The transaction changes the registry as the protocol step says and reports the build to start and the one to cancel. |
| `EmbeddingStore.Tables.FlipLive` | services/api/internal/embedding/reindex.go:186-227 | The transaction retires, activates and clears exactly as the protocol step says, and nothing else. |
| `EmbeddingStore.Tables.RunBatch` | services/api/internal/embedding/reindex.go:128-146 | A batch is written whole, each vector under the item at its position, or, on an embedder error or a wrong count, not at all; the embedder gets the texts of the batch in order. |
| `EmbeddingStore.Tables.ReindexWorkflow` | services/api/internal/embedding/reindex.go:85-182 | Finishes exactly when the version was building, no batch failed and the dimension is at most 16000; then every item has the vector of its own text, whatever is not listed is as before, and the version serves. |
| `Agent.LedgerHolds` | services/api/internal/agent/runner.go:336-506 | In every state of a stage: counters equal the events counted, and model calls equal the iteration index plus the resumes plus the turn under way. |
| `Agent.RunIsBounded` | services/api/internal/agent/runner.go:336-506 | Over all segments: gate evaluations within the budget, resumes within the evaluations, nudges within 2, model calls within maxIter plus budget. |
| `AgentBounds.BoundIsReached` | services/api/internal/agent/runner.go:468-489 | Every configuration that lists a tool and has a positive iteration limit and no negative budget has a run, against some answers of the outside, that makes exactly maxIter plus budget model calls with budget resumes. |
| `AgentBounds.IterationLimitExact` | services/api/internal/agent/runner.go:336-531 | The iteration limit bounds the model calls of every run a configuration has if and only if its budget is not positive, it has no iteration, or its allowlist lists no tool or cannot be read. |
| `AgentHistory.DispatchDiscipline` | services/api/internal/agent/runner.go:404-494 | A dispatch directly follows the approval of the same call and vice versa; what is gated is on the allowlist of its segment; a handoff is never gated and ends the run. |
| `AgentCalls.CallsInOrder` | services/api/internal/agent/runner.go:404-494 | The calls of a turn are settled one by one in the order the model proposed them, and all of them are when the next turn is taken, unless the owner was asked in between. |
| `AgentCalls.NoCallWithoutTurn` | services/api/internal/agent/runner.go:404-494 | Whatever is handed off, refused, gated or found beyond the budget is the call of the latest turn whose number is how many were settled before it. |
| `AgentCalls.BranchExact` | services/api/internal/agent/runner.go:404-466 | A call hands off, is refused, exhausts the budget or is gated if and only if its name is the handoff, not allowed, allowed with the budget spent, or allowed with budget left. |
| `AgentCalls.NudgeExact` | services/api/internal/agent/runner.go:378-399 | After a turn without calls the model is nudged if and only if its content looks like a botched call and it was nudged less than twice; otherwise the run finishes. |
| `AgentCalls.ResumesExactly` | services/api/internal/agent/runner.go:468-489 | A run resumes exactly after a gate that requested the owner. |
| `AgentCalls.EndsExactly` | services/api/internal/agent/runner.go:336-506 | A run ends exactly at a handoff, an exhausted budget, the last iteration, a failed model call, an unreadable allowlist or a finished turn, each with its own result. |
| `AgentCalls.GivesUpExactly` | services/api/internal/agent/runner.go:336-342 | A turn is taken only while turns less resumes are below the limit, and a run gives up only when they have reached it. |
| `AgentHistory.AnswersOnlyWithoutCalls` | services/api/internal/agent/runner.go:378-399 | A result that is not a fail-close is the content of a last turn without tool calls, and of a suspected botched call only once both nudges are spent. |
| `AgentHistory.FaithfulTranscript` | services/api/internal/agent/runner.go:288-334 | At every loop head, pending state and resume the record without its system entry equals, by role and content, what the model is shown. |
| `AgentHistory.TranscriptIsHistory` | services/api/internal/agent/runner.go:361-368 | The record is the history of the run, event by event, nothing lost or repeated over saves and resumes. |
| `AgentHistory.PendingDropsTheRest` | services/api/internal/agent/runner.go:468-489 | After a call that needs the owner the next events are the injected outcome and a new model turn in the same iteration; the remaining calls of the turn are dropped. |
| `AgentRunner.RunsAreUnique` | services/api/internal/agent/runner.go:233-506 | Against the same answers of model, gate, tools and owner there is one run. |
| `AgentRunner.ResolveExact` | services/api/internal/agent/runner.go:508-531 | A name is allowed exactly when some listed id is a known tool of that name, and stands for the last such id. |
| `AgentRunner.SegmentTools` | services/api/internal/agent/runner.go:508-531 | Every segment starts with exactly the names the catalog knows the listed ids by at that moment, or with nothing if the allowlist cannot be read; a resume injects what the owner sent. |
| `AgentRunner.ResolveAllowlist` | services/api/internal/agent/runner.go:508-531 | The loop computes that table. |
| `AgentRunner.HandleCall` | services/api/internal/agent/runner.go:404-494 | One call takes the branch the machine takes, in the order handoff, allowlist, budget, gate. |
| `AgentRunner.RunSegment` | services/api/internal/agent/runner.go:233-506 | A segment ends in the state its log leads to, done or pending with the saved conversation, and resumes at the saved iteration. |
| `AgentRunner.Run` | services/api/internal/agent/runner.go:216-227 | The synchronous form returns the segment result and turns a pending decision into a fail-close. |
| `AgentRunner.AgentStageWorkflow` | services/api/internal/agent/workflow.go:126-167 | The open loop ends, with the result of a complete run within all bounds. |
| `Calibration.DemotionExact` | services/api/internal/calibration/score.go:28-58 | A demotion leaves the auto band exactly when the score was within one decrement of 0.8, and raises a score exactly when that was below 0.5 or the decrement is negative; a promotion is the least lift into the band. |
| `Calibration.DemotionsAddUp` | services/api/internal/calibration/score.go:49-58 | From 0.5 or more, n demotions take off n decrements, down to 0.5 and no further. |
| `Calibration.CleanCountExact` | services/api/internal/db/calibration.sql.go:333-349 | The clean count of a window is the number of its clean outcomes. |
| `Calibration.WindowExact` | services/api/internal/db/calibration.sql.go:333-349 | The window has as many outcomes as there are matured ones of the routine with fewer than n newer ones, and its clean count is how many of those are clean. |
| `Calibration.LatestCleanExact` | services/api/internal/db/calibration.sql.go:260-269 | The query returns the latest time of a matured clean outcome of the routine, none exactly when there is none. |
| `Calibration.LatestDeclinedExact` | services/api/internal/db/calibration.sql.go:234-243 | The query returns the latest time the routine was declined or withdrawn. |
| `Calibration.DemoteToolsExact` | services/api/internal/calibration/calibrator.go:304-318 | Demoting all tools of a task does to each what demoting it alone does, and fails as a whole if one is missing. |
| `CalibrationHistory.LiveStep` | services/api/internal/calibration/calibrator.go:165-235 | After any operation a grant is live exactly when it was live and not revoked, or the owner just accepted it. |
| `CalibrationHistory.LatestRoutineExact` | services/api/internal/db/calibration.sql.go:292-298 | The routine that is flagged is that of the latest outcome of the tool under the task, none if there is none. |
| `CalibrationHistory.OutcomesGrow` | services/api/internal/calibration/calibrator.go:125-163 | An operation adds one outcome of its tool and task, clean or bad as it says and stamped with the time, or none; a bad one of an unknown tool is not kept. |
| `CalibrationHistory.RunKeepsOrder` | services/api/internal/db/calibration.sql.go:333-349 | Over any history the outcomes only grow and stay in the order of their time. |
| `CalibrationHistory.RespondExact` | services/api/graph/phase8_helpers.go:37-120 | An answer counts exactly for an open proposal of a known tool, an acceptance only without a live grant of the routine; it records answer and time, and an acceptance grants that routine and lifts the score to 0.8 unless it is higher. |
| `CalibrationHistory.GrantHistory` | services/api/internal/db/calibration.sql.go:314-319 | Over any history a live grant exists exactly when the owner accepted that very routine and nothing since revoked it. |
| `CalibrationHistory.ScoreHistory` | services/api/internal/calibration/calibrator.go:165-235 | Over any history, with settings that change at any time, a tool is in the auto band exactly when the owner accepted a promotion of it after its latest demotion, if each demotion had a positive decrement. |
| `CalibrationHistory.AutonomyIsEarned` | services/api/internal/gate/autonomy.go:28-50 | Over any history, with settings that change at any time, the autonomy layer approves if and only if the owner accepted a promotion of the tool after its latest demotion, and one for that exact routine not revoked since, if each demotion had a positive decrement. |
| `CalibrationHistory.EarnedExact` | services/api/internal/calibration/score.go:49-58 | For every fresh start and every set of settings a history may use and change between: all its approvals were earned if and only if all their decrements are positive, or none of them lets a promotion come about (window, sample and ratio), or there is no tool. |
| `CalibrationHistory.NoDecrementKeepsAutonomy` | services/api/internal/calibration/calibrator.go:165-235 | From any fresh start with a tool, with settings that can promote and then ones whose decrement is not positive, a run earns two routines, demotes the tool, and still approves the other routine. |
| `CalibrationHistory.RunKeepsExclusive` | services/api/internal/calibration/sweep.go:105-139 | In every reachable state each routine of each tool has at most one open proposal or live grant. |
| `CalibrationHistory.AcceptNeverConflicts` | services/api/graph/phase8_helpers.go:76-120 | Accepting an open proposal never hits the unique index on live grants. |
| `CalibrationHistory.WithdrawnStaysWithdrawn` | services/api/internal/db/decisions.sql.go:123-132 | A proposal withdrawn by a demotion can never be accepted, whatever happens after and whatever the settings. |
| `CalibrationHistory.Cooldown` | services/api/internal/calibration/calibrator.go:397-407 | After a decline or withdrawal at T no new proposal appears until a clean outcome recorded at or after T has matured. |
| `CalibrationHistory.ProposesExactly` | services/api/internal/calibration/sweep.go:111-128 | A promotion is proposed if and only if the tool exists, nothing of the routine is open or live, the limit is not negative, the last matured outcomes up to it are some, enough and clean to the ratio, counted one by one, and a matured success outlasts every decline. |
| `CalibrationHistory.SweepNeedsCleanWindow` | services/api/internal/calibration/calibrator.go:363-378 | With fewer outcomes in the window than required, or a clean share below the ratio, sweeping the routine changes nothing. |
| `CalibrationHistory.LimitExact` | services/api/internal/calibration/calibrator.go:363-368 | The limit of the query is the window setting where that fits 32 bits, and congruent to it elsewhere. |
| `CalibrationHistory.BreaksExactly` | services/api/internal/calibration/sweep.go:116-126 | A routine ends the sweep with an error if and only if nothing of it is open or live and the limit is negative, or it passes every check and its tool is missing or the limit is zero. |
| `CalibrationHistory.SweepIsComplete` | services/api/internal/calibration/sweep.go:99-139 | A sweep that gets through its candidates leaves no promotion due: of no candidate under the settings its evaluation read, of no other routine under any. |
| `Calibration.CandidatesExact` | services/api/internal/db/calibration.sql.go:17-25 | The candidates are the routines with a matured outcome, each once. |
| `CalibrationEngine.Engine.DemoteOne` | services/api/internal/calibration/calibrator.go:165-235 | Score, grants and every open proposal of the tool change as one demotion says; nothing of another tool does. |
| `CalibrationEngine.Engine.FlagLatest` | services/api/internal/calibration/calibrator.go:240-299 | Records the bad outcome on the latest routine and demotes, or changes nothing. |
| `CalibrationEngine.Engine.DemoteTask` | services/api/internal/calibration/calibrator.go:304-340 | Demotes every tool that acted, or, if one is missing, rolls all of it back. |
| `CalibrationEngine.Engine.MaybeProposePromotion` | services/api/internal/calibration/calibrator.go:345-429 | The sequence of checks decides the evaluation: not eligible, eligible with its window as evidence, or an error for a negative limit or a missing tool; an empty window passes the ratio test. |
| `CalibrationEngine.Engine.EmitProposal` | services/api/internal/calibration/sweep.go:143-162 | Inserts the proposal, or nothing when its evidence is empty and its ratio cannot be encoded. |
| `CalibrationEngine.Engine.SweepWorkflow` | services/api/internal/calibration/sweep.go:99-139 | The pass equals sweeping the candidates in turn, each with the settings read then, up to the first that breaks; if none does, nothing is due afterwards. |
| `CalibrationEngine.Engine.RespondToPromotion` | services/api/graph/phase8_helpers.go:37-120 | The first answer resolves; accepting promotes and grants; any failure leaves everything as it was. |
| `Interpolate.FindLeafTokens` | services/api/internal/config/interpolate.go:105-138 | Returns every leaf of the string, each once, disjoint and in document order, and fails exactly when an opening is never closed. |
| `Interpolate.LeavesDisjoint` | services/api/internal/config/interpolate.go:102-105 | Two leaves never overlap. |
| `InterpolateResolve.SubstituteTokens` | services/api/internal/config/interpolate.go:143-162 | Splicing right to left in place equals replacing every leaf of the scheme at once; on failure the last leaf that cannot be expanded is reported. |
| `InterpolateResolve.ResolveString` | services/api/internal/config/interpolate.go:75-94 | Both phases and the unescape; a successful result never contains an opening. |
| `InterpolateResolve.UnescapeOpensNothing` | services/api/internal/config/interpolate.go:86-93 | Unescaping never creates an opening. |
| `InterpolateEscape.EscapeExact` | services/api/internal/config/interpolate.go:20-24 | For every string, environment and escaped opening, once the first phase succeeds: the opening is taken for a reference only if the expansions directly before its dollars end in an odd run of dollars and it then begins a file reference; otherwise the string never resolves, and is unresolved whenever the second phase gets through. |
| `InterpolateEscape.EscapeKept` | services/api/internal/config/interpolate.go:105-162 | The first phase keeps every escaped opening, and keeps it escaped if and only if the expansions directly before its dollars end in an even run of dollars. |
| `InterpolateEscape.LiveKept` | services/api/internal/config/interpolate.go:105-162 | The mirror case: a live opening left for the second phase stays live if and only if the expansions directly before its dollars end in an even run of dollars; otherwise it has become escaped and the string never resolves. |
| `InterpolateEscape.OnlyExpansionsSplice` | services/api/internal/config/interpolate.go:143-162 | Only an expansion that ends right where the dollars begin can bring any. |
| `InterpolateEscape.ResolvableExact` | services/api/internal/config/interpolate.go:75-94 | For every string and environment whose first phase succeeds: some contents of the files make it resolve if and only if every opening left, escaped or not, begins a file reference. |
| `InterpolateEscape.EscapeUndone` | services/api/internal/config/interpolate.go:20-24 | With D set to a dollar, `${env:D}$${file:p}` expands the escaped reference, without an error. |
| `InterpolateEscape.ReferenceEscaped` | services/api/internal/config/interpolate.go:20-24 | With D set to a dollar, `${env:D}${file:p}` is an error, whatever the file holds. |
| `InterpolateResolve.TokenlessResolve` | services/api/internal/config/interpolate.go:75-94 | Of all strings without a reference exactly those resolve that contain no opening at all, escaped or not. |
| `InterpolateResolve.EscapedReferenceFails` | services/api/internal/config/interpolate.go:20-24 | The escaped reference `$${HOME}` is an error, not the literal text. |
| `InterpolateResolve.EnvValueVerbatim` | services/api/internal/config/interpolate.go:182-201 | A reference to a set variable yields its text if and only if that text has neither `$$` nor `${`. |
| `InterpolateValues.EnvReference` | services/api/internal/config/interpolate.go:182-201 | `${env:NAME}` yields the variable, and is an error that names it when it is unset or empty, or has no name. |
| `InterpolateValues.EnvDefault` | services/api/internal/config/interpolate.go:182-201 | `${env:NAME:-DEFAULT}` yields the variable when that is set and not empty, else the default; without a name it is an error. |
| `InterpolateValues.DefaultVerbatim` | services/api/internal/config/interpolate.go:75-94 | What a reference with a default yields comes through as it is if and only if it has neither `$$` nor `${`. |
| `InterpolateValues.FileMissing` | services/api/internal/config/interpolate.go:164-178 | A reference to a file that cannot be read is an error that names the path. |
| `InterpolateValues.UnknownScheme` | services/api/internal/config/interpolate.go:143-162 | A reference of neither scheme is left standing and makes the string unresolved. |
| `InterpolateValues.UnescapeRun` | services/api/internal/config/interpolate.go:86-93 | Unescaping turns a run of n dollars into half as many, rounded up, and keeps every other character. |
| `InterpolateEscape.FileValueVerbatim` | services/api/internal/config/interpolate.go:164-178 | A reference to a readable file yields its text without trailing white space if and only if that text has neither `$$` nor `${`. |
| `Paging.QueryIsSuffix` | services/api/internal/db/tasks.sql.go:243-255 | Filtering by the cursor before sorting cuts the sorted list off right behind the task of the cursor. |
| `Paging.FollowReadsPrefix` | services/api/graph/schema.resolvers.go:729-785 | After any number of pages the walk has read a prefix of the full list, and there is a next page exactly when tasks remain. |
| `Paging.WalkIsTheList` | services/api/graph/schema.resolvers.go:729-785 | Following the end cursors visits every task of the filter exactly once, newest first, and stops. |
| `Paging.PageSizeExact` | services/api/graph/schema.resolvers.go:735-746 | A page size works for every table if and only if one more still fits 32 bits. |
| `Paging.WrapExact` | services/api/graph/schema.resolvers.go:735-746 | A page size of 2147483647 or more gets an error if the wrapped limit is negative, else as many tasks as that limit says and no next page, however many there are. |
| `Paging.Tasks` | services/api/graph/schema.resolvers.go:729-785 | The resolver with its default of 50, error cases, extra row and edge loop computes the specified page. |
| `Paging.RequestExact` | services/api/graph/schema.resolvers.go:731-752 | A page size that is not positive and a cursor that cannot be read fail; an empty cursor is none. |
| `Paging.LessExact` | services/api/internal/db/tasks.sql.go:243-255 | The row comparison is that of the instants of creation, and of the ids byte by byte among tasks created at the same instant. |
| `Paging.QueryBelow` | services/api/internal/db/tasks.sql.go:243-255 | From any position, of a task still there or not, the query finds the tasks of the filter below it, newest first. |
| `Cursor.Base64RoundTrip` | services/api/graph/mappers.go:158-161 | Base64 of RFC 4648 section 4 with padding is lossless on every byte string. |
| `Cursor.TimeRoundTrip` | services/api/graph/mappers.go:158-181 | The RFC 3339 timestamp with trimmed fraction reads back to the nanosecond. |
| `Cursor.IdRoundTrip` | services/api/graph/mappers.go:158-181 | The hyphenated form of an id reads back. |
| `Cursor.CursorRoundTrip` | services/api/graph/mappers.go:158-181 | The cursor is lossless if and only if the year has four digits; otherwise the server rejects its own cursor. |
| `CursorFormat.CursorText` | services/api/graph/mappers.go:155-161 | The encoded text is the timestamp, a bar and the id. |
| `CursorFormat.BitsExact` | services/api/graph/mappers.go:158-161 | Three bytes are cut into four sextets, most significant first, as in RFC 4648 section 4. |
| `CursorFormat.DecodesExactly` | services/api/graph/mappers.go:163-167 | A string decodes if and only if it is whole groups of four characters of the alphabet, the last of which may end in one or two pads. |
| `CursorFormat.TimestampExact` | services/api/graph/mappers.go:158-161 | The timestamp has a year of four digits and five fields of two, with the separators of RFC 3339 section 5.6, the fraction and the zone. |
| `CursorFormat.FractionExact` | services/api/graph/mappers.go:158-161 | The fraction has the value of the nanoseconds, no superfluous digit, and is left out when they are zero. |
| `CursorFormat.CalendarExact` | services/api/graph/mappers.go:172-175 | A day is read only if its month has it; February has 29 days in leap years only. |
| `CursorFormat.IdExact` | services/api/graph/mappers.go:158-161 | Each byte of the id is two hexadecimal digits at its place, in groups of 8, 4, 4, 4 and 12 between hyphens. |

## Left out

- ChainWakeups.NoLostWakeup: holds for crash-free runs, for chains parked on at least one blocker (`WakeGuaranteeExact`) and for mutations that return no error; CancelTask returns before the wakes when the demotion of the tools fails, which `DemoteToolsExact` shows happens exactly when one of them is missing. Sends are taken to succeed.
- Relations.RunsKeepTableValid: takes the check and the insert of one add as one step; two adds at the same time are not excluded by the code.
- ChainHistory.TerminalForever: takes the completion transaction as one step; `ChainRace` takes it apart.
- ChainStore.Store.ChangeState: the transition function of the source writes the new state after looking only at its own arguments; callers pass the state they read, so the model compares nothing else.
- EmbeddingHistory.FlipServesTheRebuild: assumes that superseded builds are stopped; the service asks the engine to cancel them and does not wait.
- EmbeddingStore.Tables.ReindexWorkflow: one process lifetime with no other transaction in between; interleavings are the subject of `EmbeddingRebuild`. Index creation and the step log are not modelled.
- CalibrationHistory.AutonomyIsEarned: starts from scores from 0.5 up to, not including, 0.8 with no grants or proposals, and needs a positive decrement at each demotion, as `EarnedExact` shows; the settings are read once per operation; floating-point rounding is not modelled.
- ChainRefinement.StepSimulates: takes one way to fill a stage; `OperationIsStep` covers them all.
- CalibrationHistory.RunKeepsExclusive: takes the evaluation and the insert of one sweep candidate as one step, one clock for service and database, and insertion order where two outcomes have the same timestamp.
- CalibrationEngine.Engine.SweepWorkflow: candidates come in the order of their first outcome, where the query promises none; a failing database is not modelled.
- Paging.WalkIsTheList: over a table that does not change between pages and whose creation years have four digits.
- Cursor.DecodeCursor: reads the forms the service writes; zone offsets, one-digit hours, commas before fractions and the other spellings of a UUID that Go's parsers accept are not modelled, nor are line breaks inside base64.
- InterpolateResolve.ResolveString: the walk over the decoded configuration tree is left out; it applies this to every string.
- Tool-call recovery from plain text, token totals, prompts, owner guidance and the category list: inputs of the agent loop.
- Stage results, findings, routing decisions and escalation on repeated timeouts: only whether a stage ends, and under which operation names, is modelled.
- Audit rows, pushes, metrics, log lines, authorization checks and input parsing of the resolvers.
- The gate's other layers, the overseer, connectors, MCP, vector search, hashing and encryption.
