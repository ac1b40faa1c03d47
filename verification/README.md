# Verified models of the plan validators, the terminal fanout and the autopilot dashboard

This project models the stateful core of the repository in Dafny and proves what it keeps over whole
runs. Code that updates an object in place is a class whose methods are proved equal to a pure
transition function; the theorems are about those functions. Checking the project is
`dafny verify dfyconfig.toml`.

| file | what it models |
|---|---|
| `CycleDetection.dfy` | dependency graphs and the depth-first cycle search |
| `PlanSemantics.dfy`, `AdapterPlans.dfy` | semantic validation of plans; acceptance means schedulable |
| `StructuralValidation.dfy`, `StructuralErrors.dfy` | the JSON Schema subset interpreter with its shared error list and probes, and what it reports |
| `Fanout.dfy`, `FanoutGuarantees.dfy` | the re-entrant subscriber registry and what a broadcast promises |
| `OutBuffer.dfy`, `SendPump.dfy`, `SendPumpProgress.dfy` | the drop-oldest byte buffer, the bounded queue and the batching pump |
| `SubscriberRegistry.dfy` | the shared session registry and its subscriber counts |
| `PlanTracker.dfy`, `PlanTrackerProgress.dfy` | the locked load, append and replace protocol of many processes |
| `LifecycleStatus.dfy` | lifecycle events, the resume scan and the incremental status cache |
| `SessionControl.dfy` | start, pause, cancel and resume with spontaneous exits |
| `CostAttribution.dfy`, `CostAgreement.dfy`, `SummaryFiling.dfy` | the two cost folds and how their totals compare |
| `StreamTail.dfy` | the bounded first read of a stream and the reads that follow |
| `SubagentPeak.dfy`, `ConcurrencyMetrics.dfy`, `StableSorting.dfy` | peak subagents and the session concurrency sweep |
| `Options.dfy`, `Sequences.dfy`, `Bytes.dfy`, `Lines.dfy` | shared helpers |

Some promises do not hold as written, and the model follows the code:

- A schema definition that leads back to itself through fields, items and references accepts no value
  that follows the way back (`RecursiveDefinitionRejectsRoute`); references mean their definitions
  whenever definitions do not recurse (`RefIsTransparent`). A way back through if, then, else or oneOf
  is not covered: a failing probe there can select another branch.
- Closing a fanout registry inside a callback does not stop the running broadcast
  (`ClosingBroadcast`).
- A subscriber count can fall below its live holders after an eviction and a reconnect
  (`StaleFinishUndercounts`); the counts of a run are exact exactly when no release in it hits a foreign
  entry (`CountsExactIffNoStaleFinish`).
- A line or record that is seen half written is lost (`HalfWrittenLineIsLost`,
  `HalfWrittenRecordIsLost`); reads in parts are right exactly at line boundaries
  (`PartsAgreeExactlyAtBoundaries`, `ReadsAgreeExactlyAtLineEnds`). A stream replaced by one of equal size is not noticed
  (`SameSizeReplacementUnseen`).
- The resume scan counts completions that the status rejects (`RejectedCompletionDisagrees`); the two
  agree under an exact condition on the last line that names a completion (`ScanAgreesExactlyWhen`).
- An anonymous result does not always get a fresh key (`AnonymousKeyCanBeTaken`); a phase counts
  everything in full exactly when no made-up key clashes with an id (`PhaseCostIsFullWithoutClash`).
- A start whose tmux call fails leaves the run reported as running, and a resume is refused
  (`FailedStartLooksRunning`).
- A cancel whose event is not written does not prevent a resume (`CancelRefusesWhenWritten`).
- The deviation tracker exits with status 0, declared as success, although a write failed and nothing
  was committed (`FailedWriteExitsWithZero`, `StatusZeroCommitsUnlessWriteFails`).
- The dashboard charges a session that straddles phases twice (`DashboardCoversSummary`).
- The concurrency sweep goes negative exactly when some session loses its start (`SweepBalances`).

## Model

| member | source | states |
|---|---|---|
| `DependencyGraphs.TopologicalOrderImpliesAcyclic` | adapters/claude-code/claude/tools/validate-plan.py:205-234 | An order of all nodes that lists every node after its dependencies rules out every closed walk; the partner of the search below. |
| `CycleDetection.ClosingTheCycle` | adapters/claude-code/claude/tools/validate-plan.py:213-222 | Cutting the current path at a node on the stack gives a simple closed walk of the graph, and its sorted key is exactly its nodes. |
| `CycleDetection.FinishingNode` | adapters/claude-code/claude/tools/validate-plan.py:226-230 | Leaving a node keeps the search invariant: every known dependency of a finished node finished before it, or the edge to it closes a simple cycle whose node set was reported. |
| `CycleDetection.CycleDetector.constructor` | adapters/claude-code/claude/tools/validate-plan.py:205-210 | The search starts with nothing visited, an empty stack and no report, and satisfies its invariant. |
| `CycleDetection.CycleDetector.Report` | adapters/claude-code/claude/tools/validate-plan.py:213-222 | After a back edge, a simple cycle that ends with that very edge has its node set among the reported ones; a report is added only for a new node set, and it is a real simple cycle. |
| `CycleDetection.CycleDetector.Dfs` | adapters/claude-code/claude/tools/validate-plan.py:212-230 | One call visits its node, leaves the stack as it found it, and never loses a visited node, a finished node or a report; afterwards the node is finished, or the edge to it closes a reported cycle; the path is a simple path whose set is the stack; the search ends because unvisited nodes run out. |
| `CycleDetection.CycleDetector.VisitDependencies` | adapters/claude-code/claude/tools/validate-plan.py:227-229 | After the loop every known dependency of the node is finished, or the edge to it closes a reported cycle. |
| `CycleDetection.DetectCycles` | adapters/claude-code/claude/tools/validate-plan.py:205-234 | No report if and only if the graph, restricted to its own nodes, is acyclic, and then the finishing order is topological; every report is a real simple cycle, no node set is reported twice, every closed walk has two neighbouring nodes on one reported cycle, and every edge to a node that did not finish earlier closes a simple cycle whose node set is reported. |
| `CycleDetection.ClosedWalkMeetsReport` | adapters/claude-code/claude/tools/validate-plan.py:223-230 | Why no cyclic part is missed: an edge whose ends lie on no reported cycle leads back in the finishing order, so a closed walk cannot consist of such edges. |
| `CycleDetection.DifferentKeysDifferentNodes` | adapters/claude-code/claude/tools/validate-plan.py:214-217 | Two simple cycles have the same sorted key exactly when they have the same node set. |
| `PlanSemantics.CollectTaskIds` | dashboard/tools/validate-plan.py:232-244 | The owner map keeps each id with the phase of its first occurrence, and one duplicate error is reported, in order, for every later occurrence. |
| `PlanSemantics.NoDuplicateErrors` | dashboard/tools/validate-plan.py:237-244 | Duplicate errors are absent exactly when all ids, placeholders included, are distinct. |
| `PlanSemantics.OwnerIsFirst` | dashboard/tools/validate-plan.py:243-244 | The owner of an id is the phase of its first entry. |
| `PlanSemantics.DuplicateErrorsExact` | dashboard/tools/validate-plan.py:237-242 | The duplicate errors are exactly those of the entries that repeat an id, each with the phase of the first entry and its own. |
| `PlanSemantics.Plan20Exactly` | dashboard/tools/validate-plan.py:41-44 | A plan counts as schema 2.x exactly when its version begins with a 2 and a dot. |
| `PlanSemantics.OwnersCoverIds` | dashboard/tools/validate-plan.py:232-244 | The owner map has exactly the ids that occur in the plan. |
| `PlanSemantics.CheckDependencies` | dashboard/tools/validate-plan.py:257-269 | The errors of the dependencies of one task, in order: unknown, or outside the phase where that is forbidden. |
| `PlanSemantics.CheckTasks` | dashboard/tools/validate-plan.py:253-269 | The dependency errors of one phase, task by task, dependency by dependency. |
| `PlanSemantics.CheckReferences` | dashboard/tools/validate-plan.py:248-269 | All dependency errors of a plan, in order: unknown ids, and for schema 1.x ids that are not written in the same phase. |
| `PlanSemantics.BuildGraph` | dashboard/tools/validate-plan.py:304-308 | The dependency dictionary in which a repeated id keeps its last dependency list, and a list of exactly its keys. |
| `PlanSemantics.NoReferenceErrors` | dashboard/tools/validate-plan.py:257-269 | Reference errors are absent exactly when each dependency is known and, for schema 1.x, belongs to its own phase. |
| `PlanSemantics.ReferenceErrorsExact` | dashboard/tools/validate-plan.py:257-269 | The reference errors are exactly those of the bad dependencies: unknown, or written in another phase where that is forbidden, each with its phase, task, dependency and owner. |
| `PlanSemantics.ReferencesAccepted` | dashboard/tools/validate-plan.py:257-269 | The same, stated of the plan alone: every dependency is the id of some task and, for schema 1.x, an id written in the same phase. |
| `PlanSemantics.ScheduleIsTopologicalOrder` | dashboard/tools/validate-plan.py:276-297 | For distinct ids, an order runs every task after its dependencies exactly when all dependencies are known and the order is topological for the dependency graph. |
| `PlanSemantics.PhasedScheduleSchedules` | dashboard/tools/validate-plan.py:299-335 | Running the phases one after the other, each in an order of its own, is one valid order of all tasks. |
| `PlanSemantics.DetectPerPhase` | dashboard/tools/validate-plan.py:299-335 | The errors are, phase after phase, a report of that phase: real simple cycles, no node set twice, and one for every back edge of the search; there is none exactly when every phase is acyclic, and then the run yields a phase-by-phase schedule. |
| `PlanSemantics.AcceptedPlansAreAcyclic` | dashboard/tools/validate-plan.py:271-335 | A plan with a valid schedule has known dependencies only and no dependency cycle, over the whole plan and, for schema 1.x, in each phase. |
| `PlanSemantics.ValidateSemantic` | dashboard/tools/validate-plan.py:217-337 | No error if and only if the ids are unique and one order of all tasks respects every dependency, phase by phase and with phase-local dependencies for schema 1.x; the error list is the duplicates, then the references, then a cycle report, of the whole plan or of each phase, with a cycle for every back edge. |
| `AdapterPlans.CheckPhases` | adapters/claude-code/claude/tools/validate-plan.py:249-255 | The errors are, phase after phase, its reference errors and then a cycle report with a cycle for every back edge of the phase; there is none exactly when every phase has good references and is acyclic, and then the run yields a phase-by-phase schedule. |
| `AdapterPlans.ValidateExecutionPlan` | adapters/claude-code/claude/tools/validate-plan.py:237-257 | The errors are the duplicates and then the findings phase by phase; a plan passes exactly when it meets the schema 1.x rules of the dashboard, with the schedule to show for it. |
| `AdapterPlans.ValidateGrinderPlan` | adapters/claude-code/claude/tools/validate-plan.py:311-378 | The errors are the duplicates, the dangling references and a cycle report with a cycle for every back edge, in that order; a plan passes exactly when its batch ids are unique and one order of all batches, across passes, respects every dependency. |
| `StructuralValidation.StructuralValidator.MatchesSchema` | dashboard/tools/validate-plan.py:103-110 | A probe leaves the shared error list exactly as it was and answers whether the value satisfies the candidate. |
| `StructuralValidation.StructuralValidator.ValidateValue` | dashboard/tools/validate-plan.py:130-140 | The shared list ends up as the old list followed by the errors of the value, for every schema and value, with termination by the definitions not yet being resolved and then the size of the schema. |
| `StructuralValidation.StructuralValidator.ValidateBranch` | dashboard/tools/validate-plan.py:142-152 | The errors of the chosen then or else branch, after a probe of the condition that leaves no trace. |
| `StructuralValidation.StructuralValidator.ValidateOneOf` | dashboard/tools/validate-plan.py:154-171 | The errors of a oneOf: none matching, more than one matching, or those of re-validating the single match. |
| `StructuralValidation.StructuralValidator.ValidateContent` | dashboard/tools/validate-plan.py:180-210 | The errors of the remaining keywords: type first, then the value constraints, the items, and the object rules. |
| `StructuralValidation.StructuralValidator.ValidateFields` | dashboard/tools/validate-plan.py:120-128 | The errors of the fields of an object, in field order: unknown fields only when additional properties are forbidden. |
| `StructuralValidation.ValidateStructural` | dashboard/tools/validate-plan.py:47-214 | The returned list is the pure error function of the plan, and it is empty if and only if the plan satisfies the schema. |
| `StructuralErrors.ErrorsExact` | dashboard/tools/validate-plan.py:103-210 | An error is in the list if and only if some visit, reached from the plan through references, the selected branches, items and fields, has exactly that fault by the schema applied there, at its own path. |
| `StructuralErrors.ErrorsPointToFaults` | dashboard/tools/validate-plan.py:112-128 | The path of every reported error leads, by fields and items, to a value of the plan that has the fault: too short, too few, too small, of the wrong type, without the field, with the unknown field, or not matching the pattern. |
| `StructuralErrors.OneVisitExact` | dashboard/tools/validate-plan.py:130-210 | The errors of one visit are its own faults and the errors of the visits it leads to. |
| `StructuralErrors.KeywordErrorsInOrder` | dashboard/tools/validate-plan.py:184-197 | The faults of one value come in the order pattern, enum, length, number of items, minimum, each at most once. |
| `StructuralErrors.ErrorsInOrder` | dashboard/tools/validate-plan.py:142-210 | First the errors of the branch, then the faults of the value, then its missing fields, then what its fields report. |
| `StructuralErrors.FieldErrorsInOrder` | dashboard/tools/validate-plan.py:121-128 | The errors of earlier fields come before those of later ones. |
| `StructuralErrors.ItemErrorsInOrder` | dashboard/tools/validate-plan.py:202-203 | The errors of earlier items come before those of later ones. |
| `JsonSchemas.RefNameIsLastSegment` | dashboard/tools/validate-plan.py:132-133 | A reference names what stands after its last slash. |
| `StructuralValidation.NoErrorsIffSatisfies` | dashboard/tools/validate-plan.py:130-210 | The error function is empty exactly when the declarative meaning holds: a reference stands for its definition alone and is false once it is being resolved, if/then/else and oneOf as the code reads them, const and type mismatches ending the check. |
| `StructuralValidation.SingleMatchIsOnlyOption` | dashboard/tools/validate-plan.py:155-170 | The candidates that match are one alone exactly when some option holds and no other does. |
| `StructuralValidation.AcceptanceIgnoresPath` | dashboard/tools/validate-plan.py:103-110 | Whether a value passes does not depend on the path that labels its errors. |
| `StructuralValidation.SingleMatchAddsNothing` | dashboard/tools/validate-plan.py:154-171 | Re-validating the one matching option never adds an error, so a oneOf reports nothing or exactly one error of its own. |
| `StructuralValidation.ResolvingIrrelevant` | dashboard/tools/validate-plan.py:131-140 | When definitions refer only to definitions of lower rank, the set of names being resolved makes no difference. |
| `StructuralValidation.RefIsTransparent` | dashboard/tools/validate-plan.py:131-140 | For such definitions a reference means exactly what its definition means. |
| `StructuralValidation.RecursiveDefinitionRejectsRoute` | dashboard/tools/validate-plan.py:131-140 | A definition that leads back to itself through fields, items and other definitions rejects every value that follows the way back once: the names being resolved are carried into nested values. |
| `StructuralValidation.RouteToEnteredRejects` | dashboard/tools/validate-plan.py:131-140 | So does any schema whose route ends at a definition already being resolved. |
| `StructuralValidation.RecursiveDefinitionRejectsNesting` | dashboard/tools/validate-plan.py:131-140 | For an object type whose child is of the same type, exactly the objects without a child are accepted. |
| `StructuralValidation.StructuralValidator.CheckRequired` | dashboard/tools/validate-plan.py:67-70 | One error for each required field that the object lacks, in order. |
| `StructuralValidation.StructuralValidator.CheckPattern` | dashboard/tools/validate-plan.py:83-85 | An error exactly for a string that a given pattern does not match. |
| `StructuralValidation.StructuralValidator.CheckEnum` | dashboard/tools/validate-plan.py:87-89 | An error exactly for a value that equals none of the allowed ones. |
| `StructuralValidation.StructuralValidator.CheckBounds` | dashboard/tools/validate-plan.py:91-101 | The errors of strings and arrays that are too short and numbers that are too small, booleans excepted. |
| `StructuralValidation.StructuralValidator.ValidateKeywords` | dashboard/tools/validate-plan.py:184-197 | The errors of the value constraints together, in the order of the code. |
| `StructuralValidation.StructuralValidator.ValidateItems` | dashboard/tools/validate-plan.py:199-203 | The errors of all items, in order, each under its own path. |
| `StructuralValidation.StructuralValidator.ValidateField` | dashboard/tools/validate-plan.py:121-128 | The errors of one field: unknown, ignored, or those of its value. |
| `StructuralValidation.StructuralValidator.ValidateBase` | dashboard/tools/validate-plan.py:154-210 | The errors of the schema itself once its branch is done: oneOf, else const, else the rest. |
| `Fanout.FanoutRegistry.constructor` | dashboard/server/pty_session.py:233-239 | A new registry is open, empty and idle. |
| `Fanout.FanoutRegistry.Add` | dashboard/server/pty_session.py:241-246 | Adds at the end; a closed registry and a second subscription are refused without effect. |
| `Fanout.FanoutRegistry.Remove` | dashboard/server/pty_session.py:248-256 | Removes at once when idle and stages the removal during a broadcast; a closed registry and an unknown callback are refused without effect. |
| `Fanout.FanoutRegistry.CloseRegistry` | dashboard/server/pty_session.py:297-302 | Closes, and forgets subscribers and staged removals. |
| `Fanout.FanoutRegistry.BroadcastChunk` | dashboard/server/pty_session.py:258-295 | The in-place broadcast loop, with callbacks that subscribe, unsubscribe, close, raise or are cancelled while it runs, equals the broadcast function: same state, same calls in the same order, same cancellation. |
| `Fanout.FanoutRegistry.Serve` | dashboard/server/pty_session.py:271-284 | Awaiting one callback: the calls made meanwhile take effect in order, and a raising callback is staged for removal. |
| `Fanout.FanoutRegistry.SweepSnapshot` | dashboard/server/pty_session.py:264-284 | The loop over the snapshot equals the recursive sweep, up to a cancellation. |
| `FanoutGuarantees.BroadcastContract` | dashboard/server/pty_session.py:258-295 | Without close or cancellation, a callback is called exactly if no callback served before it asked for its removal, in registration order; afterwards the registry is the snapshot plus the subscriptions made meanwhile, in order, without those unsubscribed and those that raised. |
| `FanoutGuarantees.SweepServes` | dashboard/server/pty_session.py:264-284 | The same for the part of the snapshot still to be served, from any point of the loop. |
| `FanoutGuarantees.TurnKeepsStaging` | dashboard/server/pty_session.py:265-284 | The staging set answers, for each callback still waiting, whether an already served callback removed it. |
| `FanoutGuarantees.CloseWins` | dashboard/server/pty_session.py:297-302 | However calls interleave, a close among them leaves the registry closed, empty and without staged removals. |
| `FanoutGuarantees.ClosingBroadcast` | dashboard/server/pty_session.py:258-302 | A whole broadcast whose callback k closes the registry: the callbacks before k are served as usual, every one from k on is called, removed or not, and the registry ends closed and empty. |
| `FanoutGuarantees.CancelledBroadcast` | dashboard/server/pty_session.py:271-295 | A whole broadcast cancelled in callback k: nobody after k is called, and the registry still takes over the subscriptions, removals, failures and closes up to there, in order. |
| `FanoutGuarantees.CloseDuringBroadcast` | dashboard/server/pty_session.py:285-302 | The same from the closing callback on, from any state of the sweep. |
| `FanoutGuarantees.RunsStayIdle` | dashboard/server/pty_session.py:241-302 | Between broadcasts nothing is staged and no callback is registered twice; once closed, a registry stays closed and delivers nothing. |
| `FanoutGuarantees.DeliveredExactlyOnce` | dashboard/server/pty_session.py:258-295 | Over any run without close or cancellation, a callback receives a broadcast once if it was registered when the broadcast began and nobody served before it removed it, and otherwise not at all. |
| `FanoutGuarantees.DeliveredInOrder` | dashboard/server/pty_session.py:258-295 | Deliveries follow the order of the broadcasts. |
| `FanoutGuarantees.DeliveriesExact` | dashboard/server/pty_session.py:258-295 | A delivery belongs to a run exactly when the broadcast of its step calls that callback. |
| `FanoutGuarantees.UnsubscribedGetsNothing` | dashboard/server/pty_session.py:248-256 | A callback that unsubscribes between broadcasts receives nothing in the rest of the run, whatever happens there, until it is added again. |
| `FanoutGuarantees.SubscribedStays` | dashboard/server/pty_session.py:241-246 | A callback that subscribes between broadcasts stays registered while nobody removes it, no callback fails and nobody closes. |
| `FanoutGuarantees.SubscribedReceives` | dashboard/server/pty_session.py:241-295 | Such a callback receives every later chunk exactly once. |
| `FanoutGuarantees.ClosedDeliversNothing` | dashboard/server/pty_session.py:297-302 | After a close between broadcasts nobody receives anything any more. |
| `OutBuffer.ByteBuffer.constructor` | dashboard/server/terminal_ws.py:339-341 | A new buffer holds nothing and owes no notice. |
| `OutBuffer.ByteBuffer.DropOldest` | dashboard/server/terminal_ws.py:343-346 | The drop loop keeps exactly the newest batches that fit, and counts exactly the bytes it drops. |
| `OutBuffer.ByteBuffer.Append` | dashboard/server/terminal_ws.py:331-353 | The new buffer and whether a notice is due, for every batch and every buffer whose byte count is right. |
| `OutBuffer.ByteBuffer.DrainOne` | dashboard/server/terminal_ws.py:356-362 | Sends the oldest batch, or nothing when there is none. |
| `OutBuffer.DroppedThenKept` | dashboard/server/terminal_ws.py:343-346 | Dropping splits the buffer: what was dropped followed by what is kept is everything. |
| `OutBuffer.KeepNewestLongest` | dashboard/server/terminal_ws.py:343-346 | No longer tail of the buffer would have fitted. |
| `OutBuffer.RunsKeepBufferValid` | dashboard/server/terminal_ws.py:331-362 | Over any run of appends and drains the byte count is the exact total of the buffered batches, and the drop counter is zero whenever no notice is outstanding. |
| `OutBuffer.AppendKeepsBufferValid` | dashboard/server/terminal_ws.py:331-353 | After every append the buffer is within the high watermark. |
| `OutBuffer.DropCounterExact` | dashboard/server/terminal_ws.py:346-352 | The drop counter is exactly the number of bytes dropped since its last reset. |
| `OutBuffer.OneNoticePerEpisode` | dashboard/server/terminal_ws.py:342-353 | Between two overflow notices some append ended at or below the low watermark. |
| `OutBuffer.NoticeExactlyAtEpisodeStart` | dashboard/server/terminal_ws.py:342-353 | A notice is due if and only if an append overflows and every earlier overflow was followed by an append that kept everything at or below the low watermark. |
| `SendPump.TerminalConnection.OnChunk` | dashboard/server/terminal_ws.py:302-326 | The callback never refuses: a full queue loses its oldest chunk, and the drop is counted. |
| `SendPump.TerminalConnection.SeedScrollback` | dashboard/server/terminal_ws.py:647-670 | A fresh connection gets the scrollback in pieces of the batch size, at most as many as the queue holds, and is then in a state that a run from a fresh connection reaches. |
| `SendPump.QueuedIsReached` | dashboard/server/terminal_ws.py:657-661 | Filling a fresh queue with at most 32 chunks is offering them one by one. |
| `SendPump.SeededRunsAccount` | dashboard/server/terminal_ws.py:647-670 | After seeding, every run accounts for all chunks and bytes, with the scrollback in front. |
| `SendPump.SeededReadsNeverOverflow` | dashboard/server/terminal_ws.py:647-670 | After seeding and with reads of at most 4096 bytes, no batch exceeds 8191 bytes, no byte is dropped by the buffer and the notice never fires. |
| `SendPump.TerminalConnection.TakeFirst` | dashboard/server/terminal_ws.py:404-406 | The pump leaves idle with the oldest queued chunk. |
| `SendPump.TerminalConnection.TakeMoreChunks` | dashboard/server/terminal_ws.py:408-419 | While the accumulator is below the batch size, the oldest queued chunk is added to it. |
| `SendPump.TerminalConnection.FlushBatch` | dashboard/server/terminal_ws.py:420-424 | The accumulated batch goes through the buffer; an overflow is announced first, otherwise the oldest batch is sent. |
| `SendPump.TerminalConnection.FinishSend` | dashboard/server/terminal_ws.py:356-362 | A finished send returns to idle; a failed one stops the pump. |
| `SendPump.TerminalConnection.DrainStep` | dashboard/server/terminal_ws.py:423-424 | After an announcement the pump sends the oldest buffered batch or goes idle. |
| `SendPump.OfferStep` | dashboard/server/terminal_ws.py:302-326 | The newest chunk is at the end of the queue when the callback returns. |
| `SendPump.RunsAccount` | dashboard/server/terminal_ws.py:292-424 | In every run, the offered chunks are those that left the queue followed by the queue, and the bytes taken from it are, in order, those of the flushed batches, the batch in flight, the buffer and the accumulator; between steps the buffer is empty. |
| `SendPump.ByteBalance` | dashboard/server/terminal_ws.py:292-424 | The byte balance holds after every run. |
| `SendPump.AccountedBytesBalance` | dashboard/server/terminal_ws.py:292-424 | Every offered byte is exactly one of: sent, dropped by the queue, dropped by the buffer, lost in a failed send, in flight, held by the pump, or still queued. |
| `SendPump.BoundedChunksNeverOverflow` | dashboard/server/terminal_ws.py:408-424 | If no chunk exceeds a bound that leaves room above the batch size, no byte is ever dropped by the buffer, in any run. |
| `SendPump.TerminalReadsNeverOverflow` | dashboard/server/terminal_ws.py:391-424 | From a fresh connection, with chunks of at most 4096 bytes, every batch is at most 8191 bytes and the overflow notice never fires. |
| `SendPump.OverflowBoundIsExact` | dashboard/server/terminal_ws.py:408-424 | No run with chunks up to a bound announces an overflow if and only if a chunk of that length still fits on top of an accumulator just below the batch size. |
| `SendPump.LongChunkOverflows` | dashboard/server/terminal_ws.py:408-424 | The run from a fresh connection that shows it: a chunk just below the batch size, then one that is too long. |
| `SendPump.LargerChunksOverflow` | dashboard/server/terminal_ws.py:412-423 | The same from any state with an unfinished accumulator on top of which the queued chunk does not fit. |
| `SendPump.SeededPrefix` | dashboard/server/terminal_ws.py:658-661 | The seeded pieces are at most 4096 bytes each and join to a prefix of the scrollback: all of it, or its first 32 pieces. |
| `SendPumpProgress.StopsOnlyWhenTold` | dashboard/server/terminal_ws.py:402-424 | A run without a cancellation and a broken connection never stops the pump. |
| `SendPumpProgress.EverythingQueuedGetsSent` | dashboard/server/terminal_ws.py:402-424 | From every state of such a run the pump can go on until the queue is empty and it waits again, and then it has sent, in order, the batch at hand and every queued chunk that fits. |
| `SendPumpProgress.DropsAreCounted` | dashboard/server/terminal_ws.py:302-321 | The drop counter is the number of chunks the queue lost, and nothing is lost within the depth of the queue. |
| `SubscriberRegistry.SessionRegistry.Reserve` | dashboard/server/terminal_ws.py:515-556 | Reserving joins the existing entry below the cap, refuses at the cap, and otherwise builds a helper whose failure leaves no entry. |
| `SubscriberRegistry.SessionRegistry.EvictIfSame` | dashboard/server/terminal_ws.py:275-284 | Deletes the entry of the connection only while it holds that very helper; a replacement and every other entry stay. |
| `SubscriberRegistry.SessionRegistry.Release` | dashboard/server/terminal_ws.py:788-793 | The final decrement goes to whatever entry has the name now, and stops at zero. |
| `SubscriberRegistry.RunsStayBalanced` | dashboard/server/terminal_ws.py:255-284 | In every interleaving counts stay between 0 and 8, helpers are never shared between names, and each count plus the stale decrements it took equals its live holders plus the decrements it clamped; so no count exceeds its live holders. |
| `SubscriberRegistry.CountsExactIffNoStaleFinish` | dashboard/server/terminal_ws.py:788-793 | Every count is exactly the number of live holders after every step of a run if and only if no release in it takes a slot of an entry that its connection never reserved. |
| `SubscriberRegistry.HeldEntriesKeepCountsExact` | dashboard/server/terminal_ws.py:275-284 | If no eviction removes an entry that still has live holders, no release is stale, so every count stays exact. |
| `SubscriberRegistry.CountsExactWithoutStaleFinish` | dashboard/server/terminal_ws.py:515-556 | In a run without such a release no session has more than eight live holders. |
| `SubscriberRegistry.StaleFinishUndercounts` | dashboard/server/terminal_ws.py:788-793 | A release after an eviction and a reconnect does hit the new entry: it reads zero while its only holder is live. |
| `SubscriberRegistry.AdmittedExactlyBelowCap` | dashboard/server/terminal_ws.py:515-542 | In every run a connection is turned away exactly when its session counts eight; otherwise it shares the helper of its session and is counted, and other sessions are untouched. |
| `SubscriberRegistry.AdmittedExactlyBelowEightHolders` | dashboard/server/terminal_ws.py:515-530 | Without stale releases it is turned away exactly when eight live connections hold a slot. |
| `SubscriberRegistry.EvictedSessionIsRebuilt` | dashboard/server/terminal_ws.py:255-284 | An eviction by a connection that holds the helper removes the entry, and the next connection gets a helper that no live one has. |
| `PlanFiles.FindTask` | adapters/claude-code/claude/tools/deviation-tracker.py:120-126 | The first task with the id in document order, or none when no task has it. |
| `PlanFiles.LoadAndAppend` | adapters/claude-code/claude/tools/deviation-tracker.py:129-156 | Fails without a task of that id, and otherwise returns the plan with the result appended to the first one. |
| `PlanFiles.AppendedEffect` | adapters/claude-code/claude/tools/deviation-tracker.py:148-154 | The task gains the result at the end; the results of every other id, and every other task, stay. |
| `PlanTracker.RunsAreSafe` | adapters/claude-code/claude/tools/deviation-tracker.py:196-269 | In every interleaving with failures and crashes at any step, the plan on disk is the initial plan with the committed results appended in commit order, each process commits at most once, and whoever is between locking and unlocking holds the lock. |
| `PlanTracker.OneWriterAtATime` | adapters/claude-code/claude/tools/deviation-tracker.py:250-264 | At most one process is between locking and unlocking. |
| `PlanTracker.NoLostUpdates` | adapters/claude-code/claude/tools/deviation-tracker.py:257-264 | At every moment each task holds its initial results followed by exactly the committed ones for it, in commit order. |
| `PlanTracker.ExitsReportTheTruth` | adapters/claude-code/claude/tools/deviation-tracker.py:250-269 | A process whose append ended well has committed exactly once, and one whose append failed in any way not at all. |
| `PlanTracker.StatusZeroCommitsUnlessWriteFails` | adapters/claude-code/claude/tools/deviation-tracker.py:319-329 | A process that exits with status 0, which is declared to mean success, has committed if and only if none of its loads, temporary files, dumps and replaces failed; any other status means no commit. |
| `PlanTracker.FailedWriteExitsWithZero` | adapters/claude-code/claude/tools/deviation-tracker.py:326-329 | The run that shows it: the temporary file cannot be created, the plan stays as it was, and the status is 0. |
| `PlanTracker.OnlyResultsChange` | adapters/claude-code/claude/tools/deviation-tracker.py:129-193 | The plan keeps its shape and every field but the results, and a task no commit was meant for keeps those too. |
| `PlanTracker.CommitReplays` | adapters/claude-code/claude/tools/deviation-tracker.py:159-193 | The atomic replace is the one step that changes the plan, and it adds the result of its own process to what is on disk at that moment. |
| `PlanTrackerProgress.NothingIsLeftBehind` | adapters/claude-code/claude/tools/deviation-tracker.py:250-269 | In every run the lock is held only by a process between taking and releasing it, and only a crash leaves a temporary file. |
| `PlanTrackerProgress.LockIsFree` | adapters/claude-code/claude/tools/deviation-tracker.py:250-264 | Once nobody is in between, whoever asks for the lock gets it. |
| `PlanTrackerProgress.WriterGetsThrough` | adapters/claude-code/claude/tools/deviation-tracker.py:250-269 | Whatever happened before, a process that begins while all others are outside, whose task exists and whose calls work, puts its result on the disk, frees the lock and exits with status 0. |
| `LifecycleEvents.DerivedClosedForm` | dashboard/server/status_helper.py:147-203 | The folded state in closed form: the last valid event decides the status, the phase at pause is kept only while paused, and start time, last completed phase and session name come from the last event that carries them. |
| `LifecycleEvents.LastEventIsLast` | dashboard/server/status_helper.py:147-203 | What "the last valid event with a property" means, independently of the fold. |
| `LifecycleEvents.ScanLastPhaseComplete` | dashboard/server/resume_helper.py:129-157 | The scan loop returns the last completed phase that has a name. |
| `LifecycleEvents.ScanAgreesExactlyWhen` | dashboard/server/resume_helper.py:129-157 | The resume scan and the folded status find the same phase if and only if no line names a completion, or the last line that does is valid, or it names the phase of the last valid completion. |
| `LifecycleEvents.ScanAgreesWithStatus` | dashboard/server/resume_helper.py:129-157 | In particular they agree when no rejected line names a completion. |
| `LifecycleEvents.RejectedCompletionDisagrees` | dashboard/server/resume_helper.py:149-156 | Otherwise they can differ: the scan does not validate the event, the status does. |
| `LifecycleEvents.NextAfter` | dashboard/server/resume_helper.py:164-179 | The phase after the one at a position of a duplicate-free order, or none after the last. |
| `LifecycleEvents.NextAfterRounds` | dashboard/server/resume_helper.py:164-179 | After completing k suggested phases, the next suggestion is phase k, and none once the order is used up. |
| `LifecycleEvents.RoundsWalkTheOrder` | dashboard/server/resume_helper.py:129-179 | Completing whatever is suggested walks the phase order once, in order. |
| `LifecycleStatus.StatusCache.ApplyText` | dashboard/server/status_helper.py:280-281 | Applying the new text line by line is the fold over its pieces. |
| `LifecycleStatus.StatusCache.DeriveStatus` | dashboard/server/status_helper.py:245-282 | One poll: the cache afterwards and the reported status, for a missing file, a failed stat or open, a shrunk file and a grown one. |
| `LifecycleStatus.FoldInTwoParts` | dashboard/server/status_helper.py:275-281 | Reading a stream in two parts that meet at a line boundary is reading it at once. |
| `LifecycleStatus.CacheEqualsReplay` | dashboard/server/status_helper.py:245-282 | After any legal sequence of polls the cached state is the replay of the whole content it reflects, and its offset is the length of that content. |
| `LifecycleStatus.CurrentPollIsExact` | dashboard/server/status_helper.py:245-282 | A poll that sees the whole current file makes the cached state the replay of that file. |
| `LifecycleStatus.PartsAgreeExactlyAtBoundaries` | dashboard/server/status_helper.py:275-281 | Reading a stream in two parts gives the state of the whole, for every grammar and every rest, if and only if the first part ends at a line boundary. |
| `LifecycleStatus.HalfWrittenLineIsLost` | dashboard/server/status_helper.py:279-281 | How it fails: a line first seen half written is never applied. |
| `LifecycleStatus.SameSizeReplacementUnseen` | dashboard/server/status_helper.py:266-269 | A stream replaced by another of the same size is not noticed: a cancelled run keeps its old status. |
| `SessionControl.ControlServer.HandleStart` | dashboard/server/control.py:408-478 | The whole effect and answer of a start: the checks in order, the started event before the session, and the event kept when tmux fails. |
| `SessionControl.ControlServer.HandlePause` | dashboard/server/control.py:481-521 | The whole effect of a pause and its answer, with whether the target was already pausing. |
| `SessionControl.ControlServer.HandleCancel` | dashboard/server/control.py:524-561 | The whole effect of a cancel and its answer: cancelled, or already cancelled when there was no session. |
| `SessionControl.ControlServer.HandleResume` | dashboard/server/control.py:571-724 | The whole effect of a resume and its answer: each rejection by its own reason, or the session and the phase it resumes from. |
| `SessionControl.ControlServer.Emit` | dashboard/server/control.py:386-405 | Writing an event makes the directory where that works; without a directory or with a failed append the stream stays as it was. |
| `SessionControl.NamesAreInjective` | dashboard/server/tmux_session.py:109-120 | Different targets have different session names, and all of them count towards the cap. |
| `SessionControl.CapIsNeverExceeded` | dashboard/server/control.py:286-291 | In every run of requests, script events and spontaneous exits, live sessions never exceed the cap once they are within it. |
| `SessionControl.StepRespectsCap` | dashboard/server/control.py:286-291 | Even above the cap no step raises the number of sessions. |
| `SessionControl.CancelRefusesWhenWritten` | dashboard/server/control.py:524-561 | A cancel makes later resumes refused exactly when tmux answers and its event gets written, or they were refused before. |
| `SessionControl.NoResumeAfterCancel` | dashboard/server/control.py:524-561 | After a cancel whose event was written, no resume has any effect in any later state reached without a paused event for that target. |
| `SessionControl.ResumeNeedsPauseOrNothing` | dashboard/server/control.py:620-641 | A resume succeeds only if the last event of the target is a pause, or there is none. |
| `SessionControl.RunKeepsOwnNames` | dashboard/server/control.py:254-272 | Streams written by the dashboard and scripts that name no other session never name another session. |
| `SessionControl.LookupNeverInconsistent` | dashboard/server/terminal_ws.py:453-466 | For such streams the inconsistent-lookup close is unreachable, and a connection let through has its session alive. |
| `SessionControl.AdmittedExactlyWhen` | dashboard/server/terminal_ws.py:453-466 | A connection is let through exactly when the run is running or paused and names the live deterministic session; a live session is reported as it is. |
| `SessionControl.StartSucceedsExactlyWhen` | dashboard/server/control.py:408-478 | A start succeeds exactly when the target can be started, the cap leaves room, the session does not exist and tmux works; then exactly that session is added. |
| `SessionControl.StartedSessionIsReachable` | dashboard/server/control.py:437-478 | After a start whose event was written, the run is reported as running since then and a terminal connection is let through. |
| `SessionControl.FailedStartLooksRunning` | dashboard/server/control.py:437-472 | When tmux fails after the event was written, the run is reported as running without a session, and a resume is refused. |
| `SessionControl.CancelKillsSession` | dashboard/server/control.py:524-561 | A cancel kills that session and no other, answers whether there was one, and once its event is written the run is reported as cancelled and connections are turned away. |
| `SessionControl.PausedAtLastPhase` | dashboard/server/control.py:481-521 | A pause leaves its file and, once its event is written, the run paused at the last completed phase, with its session kept. |
| `SessionControl.ResumeSucceedsExactlyWhen` | dashboard/server/control.py:620-724 | The exact condition for a resume to create the session, and that the run is running again once its event is written. |
| `SessionControl.ResumedFromNextPhase` | dashboard/server/control.py:587-609 | A resumed autopilot run starts at the phase after its last completed one, or at the first. |
| `SessionControl.PausedRunResumes` | dashboard/server/control.py:481-724 | A run that is paused can be resumed once its session is gone, as long as a phase is left and the cap leaves room. |
| `CostAttribution.ParseStreamPhases` | dashboard/server/autopilot_helpers.py:368-417 | The dashboard loop computes the dashboard fold; each entry it returns is what the results that arrived while that phase was current credit, and its total counts every anonymous result in full if and only if no made-up key clashes with a session id. |
| `CostAttribution.Aggregate` | adapters/claude-code/claude/tools/cost-summary.py:113-150 | The summary loop computes the sessions of the summary fold, each with the phase of its first result. |
| `CostAttribution.PhaseKeepsSessionMaxima` | dashboard/server/autopilot_helpers.py:335-351 | Whatever else a phase receives, results without ids included, the recorded cost of a session is the maximum of its costs there, and nothing unless that is positive, as long as its id was not made up for another result. |
| `CostAttribution.PhaseCostIgnoresOrderAndRepeats` | dashboard/server/autopilot_helpers.py:335-351 | In mixed phases too: with the same results with ids, in any order and however often repeated, and the same anonymous ones, the cost of the phase and of each session is the same when no key clashes. |
| `CostAttribution.PhaseCostIsFullWithoutClash` | dashboard/server/autopilot_helpers.py:342-351 | The cost of a phase is at most the maxima of its sessions plus every positive anonymous cost, and equal to that if and only if no key made up on the way is also the id of a session with a cost. |
| `CostAttribution.OrdinaryIdsNeverClash` | dashboard/server/autopilot_helpers.py:342-351 | If no session id looks like a made-up key, nothing clashes: the cost is full and every session keeps its maximum. |
| `CostAttribution.KeysAccounted` | dashboard/server/autopilot_helpers.py:344-350 | In every phase the keys are session ids with a cost or made-up keys below the number of keys, so a made-up key can only be taken by a session id. |
| `CostAttribution.PhaseHoldsItsCredits` | dashboard/server/autopilot_helpers.py:397-415 | The entry of a phase is what the results with a cost that arrived while the phase was current credit, in order. |
| `CostAttribution.DashboardHasNamedPhases` | dashboard/server/autopilot_helpers.py:402-412 | The dashboard has an entry for exactly the phases that the stream names. |
| `CostAttribution.AnonymousResultsAddUp` | dashboard/server/autopilot_helpers.py:342-351 | One anonymous result counts in full exactly when its made-up key is free, which fails only if a session has that very id. |
| `CostAttribution.AnonymousKeyCanBeTaken` | dashboard/server/autopilot_helpers.py:344-350 | A session of that name does swallow the next anonymous result. |
| `CostAttribution.CreditKeepsKeys` | dashboard/server/autopilot_helpers.py:344-350 | Every recorded key is a given session id or an anonymous key numbered below the number of keys. |
| `CostAgreement.DashboardCoversSummary` | adapters/claude-code/claude/tools/cost-summary.py:64-150 | On a canonical stream the dashboard total is at least the summary total without its pre-pipeline sessions, and it is equal if and only if no session is charged in two phases or both before and inside the pipeline. |
| `CostAgreement.ReadingsAgree` | dashboard/server/autopilot_helpers.py:397-415 | Both folds are in the same phase after every event, no dashboard charge exceeds the cost of its session, and the surplus of the dashboard is positive exactly when a session is charged twice. |
| `CostAgreement.RecordedResults` | dashboard/server/autopilot_helpers.py:347-350 | A session is recorded in a phase exactly when one of its results with a positive cost arrived in that phase. |
| `CostAgreement.FiledBeforePipeline` | adapters/claude-code/claude/tools/cost-summary.py:119-148 | A session is filed before the pipeline exactly when one of its results arrived before the first phase. |
| `SummaryFiling.CurrentIsLastOpened` | adapters/claude-code/claude/tools/cost-summary.py:132-136 | Results are filed under the phase opened last by a running event with a name, or before the pipeline. |
| `SummaryFiling.SessionsFiledByFirstResult` | adapters/claude-code/claude/tools/cost-summary.py:140-148 | A session is in the summary exactly when it has a result; it is filed under the phase that was current at its first one, and its cost is the largest of its results, at least zero. |
| `StreamTail.ReadStreamIncremental` | dashboard/server/autopilot_helpers.py:910-960 | One read: nothing for an unreadable file, and otherwise the wanted events of the text it gets and the offset it reports. |
| `StreamTail.FirstRead` | dashboard/server/autopilot_helpers.py:530-549 | The first read gives exactly the events of the file from the first line that begins after the start of the window, or of the whole file, and puts the offset at the end. |
| `StreamTail.WindowIsKept` | dashboard/server/autopilot_helpers.py:530-549 | No line that begins inside the window after its first byte is lost. |
| `StreamTail.FileInTwoParts` | dashboard/server/autopilot_helpers.py:947-958 | At the start of a line, the events of a file are those before it followed by those after it. |
| `StreamTail.EventsExact` | dashboard/server/autopilot_helpers.py:947-958 | The events of a text are exactly the objects its lines parse to, system and rate limit events and blank lines excepted. |
| `StreamTail.ReadsGiveSuffix` | dashboard/server/autopilot_helpers.py:910-960 | A bounded first read and any number of reads at line boundaries collect a suffix of the events of the final file, whole records once each, with the offset at its end; without a bound they collect all of them. |
| `StreamTail.ReadsAgreeExactlyAtLineEnds` | dashboard/server/autopilot_helpers.py:936-958 | Two reads that meet at some position collect the events of the whole file, for every decoding, grammar and rest, if and only if that position is the end of a line. |
| `StreamTail.HalfWrittenRecordIsLost` | dashboard/server/autopilot_helpers.py:953-956 | How it fails: a record first seen half written is lost for good. |
| `SubagentPeak.PeakSubagents` | dashboard/server/metrics_helpers.py:470-482 | The clamped counter returns the largest surplus of starts over stops in any run of consecutive events in stable time order, whether the other events are left out or not. |
| `SubagentPeak.KeptSorted` | dashboard/server/metrics_helpers.py:473-476 | Leaving out the other events and sorting stably can be done in either order. |
| `SubagentPeak.WindowsOfKept` | dashboard/server/metrics_helpers.py:473-482 | The largest surplus of any window is the same with and without the other events. |
| `StableSorting.SortedIsOrdered` | dashboard/server/metrics_helpers.py:300-310 | The sort used for sessions, for their starts and ends and for subagent events puts them in order and keeps every element. |
| `StableSorting.SortingIsStable` | dashboard/server/metrics_helpers.py:300-310 | It keeps elements of equal time in the order in which they came. |
| `ConcurrencyMetrics.CollectBounds` | dashboard/server/metrics_helpers.py:253-268 | Each session id is listed once, in order of appearance, with the bounds that its own times give. |
| `ConcurrencyMetrics.BoundsOfTimes` | dashboard/server/metrics_helpers.py:264-268 | An end is the largest time of its session, and a start is empty exactly when the last time is. |
| `ConcurrencyMetrics.StartIsSmallestSinceEmpty` | dashboard/server/metrics_helpers.py:264-268 | A start is the smallest time since the last empty one. |
| `ConcurrencyMetrics.SessionLifecycle` | dashboard/server/metrics_helpers.py:243-316 | The sessions in stable start order, and the running total after each start and end in stable time order. |
| `ConcurrencyMetrics.TimelineCountsOpenSessions` | dashboard/server/metrics_helpers.py:303-316 | At the last point of a time, the timeline is the number of sessions open then, less one for each session that has ended without a recorded start. |
| `ConcurrencyMetrics.PairedSweepNeverNegative` | dashboard/server/metrics_helpers.py:304-316 | If every ended session has a start, stable sorting keeps each start before its own end and the running total never drops below zero. |
| `ConcurrencyMetrics.SweepBalances` | dashboard/server/metrics_helpers.py:243-316 | The total never goes below zero if and only if no session that has a time ends with an event without one, and exactly then it ends at zero. |

## Left out

- The wording of messages, log lines and audit rows: errors carry the data that the messages print.
- JSON and YAML parsing, regular expressions, UTF-8 decoding and ISO dates: given as functions or predicates on lines, patterns and bytes. For decoding, the tail reader assumes only that a newline byte, and nothing else, decodes to a newline.
- Structural validation with the `jsonschema` library, the legacy structural checker of the adapter, and the checks of deferred findings.
- A `schema_version` that is not a string is modelled as an absent one; both mean schema 1.x. Ids and dependencies are strings, and `depends` is a list.
- Field-for-field equality of Python values is modelled on JSON values, with numbers as reals and booleans equal to 0 and 1 as in Python; floating-point rounding is not modelled.
- Schema keywords whose values have the wrong shape, which make the original raise.
- `RealPtySession` beyond its registry: the read loop is a run of broadcasts, and closing the pty and its task is not modelled. Callbacks are numbers, compared by identity.
- The 16 ms timer: a flush may happen at any moment once a chunk was taken. Cancellation inside `asyncio.wait_for` is a stop between two steps.
- The WebSocket handshake, the CSRF and id checks, the inbound drain and the status close codes other than the lookup decision; `ws.accept` is assumed to succeed, because it lies outside the `try` that releases the slot.
- The command line of the tracker before it takes the lock: a missing plan is status 0, invalid input is status 1.
- The second status check of the terminal endpoint (dashboard/server/terminal_ws.py:692-708): when the session was replaced meanwhile it empties the seeded queue and closes before the pump starts, which is no step of the pump model.
- The plan file is written by the tracker alone; `phase_results` is absent or a list, the path checks of the lock file are not modelled, and a crashed process loses its lock as the kernel releases it. The YAML library is a faithful round trip.
- The stream that the status cache and the control handlers look up is assumed to be the same file. In the control model the status is the replay of the stream, which `LifecycleStatus.CurrentPollIsExact` justifies, and a failed derivation, which the original treats as idle, is not a step.
- tmux is a set of names, matched exactly; a failing tmux call changes nothing. A failing `list-sessions` is not a step.
- Duplicate stream files across project roots, TTL caches, and rotation of a stream to one that is at least as long as the part already read.
- Phase status, timestamps, token and turn sums of the dashboard, and the retry and duration columns of the cost summary: independent sums without an interaction.
- Rounding of a phase cost to cents: costs are real numbers before rounding.
- Timestamps in the metrics are natural numbers that stand for strings in their order, zero for the empty string.
- The other tallies of the metrics module, plan discovery, feature merging and the user interface.
- StreamTail.ReadsGiveSuffix: does not cover a file that shrinks below the offset; the original then reads nothing and keeps the old offset.
- SessionControl.NoResumeAfterCancel: assumes that the cancel gets to write its event; `SessionControl.CancelRefusesWhenWritten` says exactly when it does.
- SessionControl.LookupNeverInconsistent: assumes that scripts append only events that name their own session or none.
