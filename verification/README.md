# Verified model of the workbench

The workbench runs agents and workflows behind a gateway: durable runs on a job queue, an approval-gated
workflow engine, an agent loop with context compaction, two provider wire formats, a rate limiter, and a few small
text algorithms. This project models that behaviour in Dafny and proves what it is for.

`dafny verify dfyconfig.toml` checks everything.

## The parts

- **Durable runs and the job queue.** `run_store.dfy` (the run table), `job_queue.dfy` (the three Redis lists) and
  `service.dfy` (submit, the job handler, the reconciler, worker start-up) hold the operations as they run
  uninterrupted. `protocol.dfy` is the same system as a transition system with one action for each atomic access to
  the table or a list, any number of submitters, workers and tasks, a clock, and a crash at every point;
  `service_protocol.dfy` shows that submit, reclaim, start-up and one turn of the consumer are runs of it. Over all its
  runs: `protocol_lease.dfy` proves single active execution and `protocol_status.dfy` forward-only status, each with the
  exact condition and the timing that suffices, one completion a run, and what becomes of an abandoned run;
  `protocol_coverage.dfy` that no pending run is lost, `protocol_delivery.dfy` conservation of queue copies and the
  delivery bound, `protocol_order.dfy` FIFO across crashes, `protocol_submit.dfy` idempotent submission.
  `protocol_witness.dfy` has the runs of the system in which a late heartbeat breaks exclusion and a terminal status.
  `protocol_measure.dfy` and `sums.dfy` are the counting argument they share. `timestamps.dfy` justifies integer time:
  the stored text stamps sort as the instants do.
- **The workflow engine.** `workflow.dfy` has the engine, on values and in place; `workflow_gates.dfy` compares it with
  the engine without gates and follows whole sessions of answers; `workflow_replay.dfy` is a reference machine that
  reads the attempt log alone and must end where the engine does, and `workflow_steps.dfy` says on the log and the
  definition alone which step comes next.
- **The agent loop.** `transcript.dfy` (token estimate, cut, compaction), `agent.dfy` (the loop), `rendering.dfy` (both
  wire formats).
- **The rate limiter**, `rate_limiter.dfy`, against an unbounded history of admissions.
- **Text algorithms.** `json_scanner.dfy` (brace scanner against a JSON printer), `chunking.dfy` and
  `chunk_packing.dfy` (sections, paragraphs, packing), `luhn.dfy`.

## What the proofs show about the code

- **The lease needs the heartbeat.** The claim's comment says that a run is only ever actively executed by one worker
  (runs.py:168-169). The claim alone guarantees only that two successful claims are more than a lease apart
  (`ClaimsApart`). A run of the system keeps exclusion exactly when it never claims or sweeps, its heartbeat older than
  the lease, a run that has a live executor (`ExclusionNeedsTheLease`); timely heartbeats exclude that
  (`SingleActiveExecution`), three intervals of TTL give timeliness with two missed beats (`HeartbeatRatioSuffices`), and
  one late heartbeat is enough for two live executors, from a start with one queued run (`TwoExecutorsReachable`).
- **A swept run can come back.** Terminal writes are unconditional. Statuses only move forward exactly when no executor
  writes its outcome over a different terminal status (`StatusForwardExactly`); a late executor that was swept does
  (`SweptThenOverwritten`, and `OverwriteReachable` for a run of the system that gets there). With timely heartbeats no
  terminal status changes (`StatusMovesForward`) and each run is finished at most once (`FinishedOnce`).
- **Reclaim is not atomic.** Between its pop and its push a crash drops the queue copy, and it was the last one exactly
  when nobody else holds one (`CrashLosesTheOnlyCopy`); the next reconcile restores the run if it lists it
  (`ListingCoversIff`, `ReconcileRestores`).
- **The empty idempotency key.** An `Idempotency-Key` header with no text is treated as no key by submit and by the
  lookup but stored by the insert, so the second such submit raises the integrity error: exactly then, and never for
  another key (`RefusedOnlyForRepeatedEmptyKey`).
- **Compaction may not shorten.** With a negative `keep_recent_items` a transcript of one item is replaced by its
  summary (`CompactedToOneItem`); `CompactionShortensIff` has the exact condition.
- **A negative overlap outgrows the target.** The bound on a chunk's length holds for every document exactly when the
  overlap is not negative (`PiecesWithinLimitIff`).
- **The verdict slice.** The find/rfind slice returns the printed object exactly when no closing brace follows it; the
  scanner needs no such condition (`SliceAgreesIff`, `ExtractReturnsPrinted`).

## Model

| member | source | states |
|---|---|---|
| Timestamps.FmtOrder | platform/observability/src/workbench_observability/runs.py:37-50 | two stamps compare as text exactly as their instants do on the microsecond axis, through the civil calendar with leap years; equal text is the same instant |
| Timestamps.InstantOrder | platform/observability/src/workbench_observability/runs.py:37-54 | the order of instants is the field by field order year, month, ..., microsecond |
| Timestamps.GregorianDays | platform/observability/src/workbench_observability/runs.py:37-54 | the day count behind the instants is the proleptic Gregorian ordinal, 719163 for the first of January 1970 |
| Timestamps.FmtShows | platform/observability/src/workbench_observability/runs.py:46-50 | a stamp reads back as its date and time: each number in its place and width, each separator after it |
| Timestamps.CutoffIsNumeric | platform/observability/src/workbench_observability/runs.py:177-190 | comparing updated_at with the text cutoff tests exactly "more than the given seconds old" |
| RunStore.FindByKey | platform/observability/src/workbench_observability/runs.py:214-229 | an empty key finds nothing; otherwise a row of that kind and key is returned iff there is one |
| RunStore.Store.GetRunByIdempotencyKey | platform/observability/src/workbench_observability/runs.py:214-229 | the lookup in place, tied to the specification |
| RunStore.CreateFresh | platform/observability/src/workbench_observability/runs.py:104-143 | for a fresh id: inserted iff no row has the key; a taken non-empty key returns its holder; a taken empty key raises; uniqueness of keys is kept |
| RunStore.CreateCollision | platform/observability/src/workbench_observability/runs.py:134-143 | for a taken id nothing is written, and the holder of the non-empty key is returned if there is one, else the run with the id |
| RunStore.Store.CreateRun | platform/observability/src/workbench_observability/runs.py:104-143 | the race-safe insert in place, with its integrity-error path |
| RunStore.Store.UpsertRun | platform/observability/src/workbench_observability/runs.py:70-101 | every field of the written row: status, payload, error and time as given, kind and creation time kept, the key kept when none is given; a write whose key is taken is swallowed and changes nothing |
| RunStore.Store.ClaimRun | platform/observability/src/workbench_observability/runs.py:177-197 | won iff pending, or running with a heartbeat strictly older than the lease; a won claim sets running and the time and nothing else |
| RunStore.Store.TouchRun | platform/observability/src/workbench_observability/runs.py:247-255 | what exclusion rests on: a heartbeat moves one row's time and nothing else, and does not bring back a missing row |
| RunStore.Store.SweepStuckRuns | platform/observability/src/workbench_observability/runs.py:273-290 | exactly the running rows with a heartbeat strictly older than the TTL fail, every other row is as before, and their number is returned |
| RunStore.ListingExists | platform/observability/src/workbench_observability/runs.py:296-308 | the ordered, limited query always has an answer |
| RunStore.ListingComplete | platform/observability/src/workbench_observability/runs.py:296-308 | with at most `limit` non-terminal runs the listing holds all of them |
| JobQueue.RemoveFirstSplit | platform/jobs/src/workbench_jobs/queue.py:176-181 | LREM with count 1 takes out the leftmost equal value and nothing else |
| JobQueue.RedisQueue.Enqueue | platform/jobs/src/workbench_jobs/queue.py:125-126 | the main list's young end is the left, so arrival order is right to left; the other lists are untouched |
| JobQueue.RedisQueue.BlMove | platform/jobs/src/workbench_jobs/queue.py:201-206 | the right end of the main list moves to the left end of the processing list; nothing happens on an empty list |
| JobQueue.RedisQueue.Acknowledge | platform/jobs/src/workbench_jobs/queue.py:167-181 | the ack goes by value, the leftmost equal one, so it may take an identical copy instead of its own |
| JobQueue.RedisQueue.Reclaim | platform/jobs/src/workbench_jobs/queue.py:128-161 | empties the processing list: orphans under the limit go back to the right end with one more attempt, in order, the others and unparseable text to the dead-letter list, and the former are counted |
| JobQueue.OrphanFate | platform/jobs/src/workbench_jobs/queue.py:141-158 | an orphan with fewer than five attempts goes back with one more, another parsed one to the dead letters with one more, unparseable text to the dead letters as it is |
| JobQueue.RequeuedConcat | platform/jobs/src/workbench_jobs/queue.py:136-158 | what goes back is decided orphan by orphan, in order |
| JobQueue.DeadLetteredConcat | platform/jobs/src/workbench_jobs/queue.py:136-158 | and so is what goes to the dead letters |
| Service.Submit | apps/autonomous_agent/src/workbench_app_autonomous/api.py:152-177 | a new row and a new job together or neither; otherwise the caller gets the run that has its key; the error case exactly |
| Service.ExecuteRun | apps/autonomous_agent/src/workbench_app_autonomous/api.py:85-138 | a lost claim changes nothing; a won one leaves its own row, and no other, as `completed` or `max_steps_reached` with the result's text, or `failed` with the exception's message, at the end time, kind, key and creation time kept, whatever heartbeats were stored meanwhile |
| Service.ExecutedEnds | apps/autonomous_agent/src/workbench_app_autonomous/api.py:112-125 | the same of the table an execution leaves, which ConsumeOne and the stepped executions refer to |
| Service.SecondExecutionIsIdle | apps/autonomous_agent/src/workbench_app_autonomous/api.py:96-133 | an execution that wins its claim leaves the run terminal, and a redelivery after it changes nothing |
| Service.ConsumeOne | platform/jobs/src/workbench_jobs/queue.py:167-209 | one turn of the loop takes the oldest message, runs it iff it parses and its kind has a handler, and leaves the processing list as it was |
| Service.ReconcileRuns | platform/gateway/src/workbench_gateway/reconcile.py:28-39 | one fresh job for each listed run with a handler, in listing order, and their count |
| Service.JobOfOne | platform/gateway/src/workbench_gateway/reconcile.py:33-36 | a listed run with a handler gets one job with its kind, id and payload and no attempts, another run none |
| Service.JobsConcat | platform/gateway/src/workbench_gateway/reconcile.py:33-36 | the jobs are decided run by run, in listing order |
| Service.StartUp | platform/gateway/src/workbench_gateway/worker.py:40-41 | reclaim then reconcile: the exact three lists, and a job for every non-terminal run with a handler when there are at most 1000 |
| ServiceProtocol.SubmitAlone | apps/autonomous_agent/src/workbench_app_autonomous/api.py:152-177 | a submit stepped alone reaches what the method Submit computes |
| ServiceProtocol.ReclaimAlone | platform/jobs/src/workbench_jobs/queue.py:128-161 | a reclaimer stepped alone reaches what the method Reclaim computes |
| ServiceProtocol.StartUpAlone | platform/gateway/src/workbench_gateway/worker.py:40-41 | a starting worker stepped alone reaches what the method StartUp computes |
| ServiceProtocol.ExecuteAlone | apps/autonomous_agent/src/workbench_app_autonomous/api.py:85-138 | a delivered message stepped alone, with any heartbeats on the way, reaches what ExecuteRun and the ack compute |
| ServiceProtocol.ConsumeAlone | platform/jobs/src/workbench_jobs/queue.py:167-209 | a worker's pop and the task it starts, stepped alone, reach what ConsumeOne computes, for messages that do not parse or have no handler too |
| ProtocolLease.ExecutorFrom | apps/autonomous_agent/src/workbench_app_autonomous/api.py:96-110 | an executor was one before or has just won its claim |
| ProtocolLease.InvariantsHold | apps/autonomous_agent/src/workbench_app_autonomous/api.py:96-138 | along every run, without any timing assumption, an executor's row is not pending and at least as fresh as its last beat |
| ProtocolLease.SingleActiveExecution | platform/observability/src/workbench_observability/runs.py:177-197 | over every interleaving with heartbeats at most a lease old, at most one live executor holds a run and its row is running |
| ProtocolLease.ExclusionNeedsTheLease | platform/observability/src/workbench_observability/runs.py:181-194 | along every run, with no assumption on timing: exclusion holds throughout iff no claim and no sweep takes a run with a live executor whose heartbeat is older than the lease |
| ProtocolLease.ClaimsApart | platform/observability/src/workbench_observability/runs.py:177-197 | any two successful claims of one run are more than a lease apart, whatever the heartbeats do |
| ProtocolStatus.StatusForwardExactly | platform/observability/src/workbench_observability/runs.py:84-98 | along every run, with no assumption on timing: status only moves pending, running, terminal and terminal stays, between any two points, iff no executor writes its outcome over a different terminal status |
| ProtocolStatus.StatusMovesForward | platform/observability/src/workbench_observability/runs.py:260-288 | with timely heartbeats status only moves pending, running, terminal, and a terminal status stays |
| ProtocolStatus.SweptThenOverwritten | platform/observability/src/workbench_observability/runs.py:84-98 | a swept run's live executor writes its outcome over `failed`, and that moves a status back iff the outcome is another one |
| ProtocolLease.DisciplinedRunIsTimely | apps/autonomous_agent/src/workbench_app_autonomous/api.py:85-93 | beats an interval apart, at most two missed in a row and TTL >= 3 intervals make every heartbeat timely |
| ProtocolStatus.HeartbeatRatioSuffices | platform/gateway/src/workbench_gateway/reconcile.py:23-57 | under the same condition no live run is stolen or swept and status moves forward between any two points of the run |
| ProtocolStatus.FinishedOnce | apps/autonomous_agent/src/workbench_app_autonomous/api.py:106-133 | with timely heartbeats each run is finished at most once, and never if it was terminal from the start |
| ProtocolStatus.AbandonedUntilTheLease | platform/observability/src/workbench_observability/runs.py:158-290 | a dead owner's row keeps its time whatever the others do; once the lease has passed, and not before, a delivery wins its claim and a sweep fails it |
| ProtocolWitness.TwoExecutorsReachable | platform/observability/src/workbench_observability/runs.py:158-175 | for every lease, a run of the system from one queued run that ends with two live executors of it |
| ProtocolWitness.OverwriteReachable | platform/observability/src/workbench_observability/runs.py:260-288 | a run of the system in which the sweeper fails a run and its live executor then completes it |
| ProtocolMeasure.MeasureStep | platform/jobs/src/workbench_jobs/queue.py:125-183 | for every weighting of messages, each action changes the total by exactly what it pushes, pops and removes |
| ProtocolCoverage.KnownAndSettled | apps/autonomous_agent/src/workbench_app_autonomous/api.py:106-138 | along every run each handled job names a stored run, and past its claim that run is no longer pending |
| ProtocolCoverage.CoveredStep | platform/jobs/src/workbench_jobs/queue.py:125-183 | no action but a crash with a copy in hand takes the last copy of a pending run |
| ProtocolCoverage.NoPendingRunLost | platform/jobs/src/workbench_jobs/queue.py:125-183 | along every run a pending run has a copy of its job on a list or in a live process's hands |
| ProtocolCoverage.CrashLosesTheOnlyCopy | platform/jobs/src/workbench_jobs/queue.py:138-157 | a crash loses the run's coverage iff nobody else has a copy |
| ProtocolCoverage.ListingCoversIff | platform/gateway/src/workbench_gateway/reconcile.py:28-39 | after a listing a waiting run has a copy iff it had one before or is listed |
| ProtocolCoverage.ReconcileRestores | platform/gateway/src/workbench_gateway/reconcile.py:28-39 | one listing restores a waiting run, whatever was lost before, if it is listed, as it is with at most 1000 non-terminal runs, until a later crash drops a copy in hand |
| ProtocolDelivery.CopiesConserved | platform/jobs/src/workbench_jobs/queue.py:125-183 | copies now + acked + lost in a reclaim crash = copies initially + pushed, for every job value, along every run |
| ProtocolDelivery.AttemptsBounded | platform/jobs/src/workbench_jobs/queue.py:147-157 | no message on the main or processing list ever has more than 5 attempts |
| ProtocolDelivery.DeliveriesBounded | platform/jobs/src/workbench_jobs/queue.py:42-54 | each pushed copy is delivered at most 6 times: deliveries plus those still allowed are at most 6 a push |
| ProtocolDelivery.ReclaimUsesAttempts | platform/jobs/src/workbench_jobs/queue.py:147-158 | the attempts left over all copies fall by exactly one with each orphan reclaim pushes |
| ProtocolOrder.TimelineStep | platform/jobs/src/workbench_jobs/queue.py:125-161 | with one worker, delivery and reclaim leave `main ++ in hand ++ processing` as it is and new jobs go to its front |
| ProtocolOrder.RemovalStep | platform/jobs/src/workbench_jobs/queue.py:147-181 | an ack, a dead letter or a crash in reclaim only removes from the timeline, never reorders |
| ProtocolOrder.FifoAcrossCrashes | platform/jobs/src/workbench_jobs/queue.py:185-209 | along every run with one worker at a time, the un-acknowledged jobs stay in order of arrival, through crashes and restarts |
| ProtocolOrder.NothingRemoved | platform/jobs/src/workbench_jobs/queue.py:185-209 | while nothing is acked, dead-lettered or lost, the timeline is the whole history of arrivals |
| ProtocolOrder.DispatchOldestFirst | platform/jobs/src/workbench_jobs/queue.py:197-207 | a delivery hands out the oldest job not yet delivered |
| ProtocolOrder.RedeliveredInOrder | platform/jobs/src/workbench_jobs/queue.py:128-161 | after a restart's reclaim the un-acked jobs stand in their original order, ahead of everything newer |
| ProtocolSubmit.KeysHold | apps/autonomous_agent/src/workbench_app_autonomous/api.py:151-177 | along every run keys are unique and every submit that returned for a non-empty key holds the id stored under it |
| ProtocolSubmit.OneRunPerKey | apps/autonomous_agent/src/workbench_app_autonomous/api.py:151-177 | any number of interleaved submits with one non-empty key return one run id |
| ProtocolSubmit.RefusedOnlyForRepeatedEmptyKey | platform/observability/src/workbench_observability/runs.py:134-143 | a submit fails iff its key is empty and taken, and enqueues iff no row has its key |
| ProtocolSubmit.EnqueuedOnce | apps/autonomous_agent/src/workbench_app_autonomous/api.py:163-177 | per run id, submit pushes + crashes before the push + submits in flight = 1 if the run was created in this run of the system, else 0 |
| Workflow.TryStep | platform/orchestrator/src/workbench_orchestrator/engine.py:148-190 | the retry loop touches nothing but state and log |
| Workflow.Drive | platform/orchestrator/src/workbench_orchestrator/engine.py:128-209 | a pass ends, keeps the approvals and the budget, and awaits approval iff a pending step, an unapproved gate, is set |
| Workflow.WorkflowRun.constructor | platform/orchestrator/src/workbench_orchestrator/engine.py:86-93 | a fresh run record |
| Workflow.WorkflowRun.RunAttempts | platform/orchestrator/src/workbench_orchestrator/engine.py:149-190 | the retry loop in place computes TryStep |
| Workflow.WorkflowRun.TakeStep | platform/orchestrator/src/workbench_orchestrator/engine.py:148-195 | one counted step in place, failing the run when its attempts are used up |
| Workflow.WorkflowRun.Turn | platform/orchestrator/src/workbench_orchestrator/engine.py:131-197 | one turn of the loop in place: it ends the pass as Drive does, or leaves a state from which Drive gives the same |
| Workflow.WorkflowRun.DriveFrom | platform/orchestrator/src/workbench_orchestrator/engine.py:128-209 | the pass in place computes Drive |
| Workflow.WorkflowRun.ResumeRun | platform/orchestrator/src/workbench_orchestrator/engine.py:97-125 | the decision in place; a run that is not waiting is refused and unchanged |
| Workflow.ExecuteRun | platform/orchestrator/src/workbench_orchestrator/engine.py:86-94 | a new record driven from the entry step |
| WorkflowGates.DriveTransparent | platform/orchestrator/src/workbench_orchestrator/engine.py:128-209 | from any point of a pass, approving every suspension gives what the ungated workflow gives |
| WorkflowGates.ApproveAllTransparency | platform/orchestrator/src/workbench_orchestrator/engine.py:97-209 | a gated run with all suspensions approved equals the ungated run but for approval records, after at most one suspension a gate |
| WorkflowGates.ApproveAll | platform/orchestrator/src/workbench_orchestrator/engine.py:97-125 | the suspend/resume chain terminates on the unapproved gates |
| WorkflowGates.DriveRespectsGates | platform/orchestrator/src/workbench_orchestrator/engine.py:129-146 | within a pass every new attempt of a gated step has an approval from before the pass |
| WorkflowGates.AnswerRecorded | platform/orchestrator/src/workbench_orchestrator/engine.py:106-125 | an answer to a waiting run adds one record of its gate, decision, actor and reason; a rejection ends the run there with nothing executed; any other run is unchanged |
| WorkflowGates.Session | platform/orchestrator/src/workbench_orchestrator/engine.py:97-125 | after any sequence of answers: one record a gate, a rejection only as the last record of a rejected run, gated attempts approved, at most 25 steps |
| WorkflowGates.GateSafety | platform/orchestrator/src/workbench_orchestrator/engine.py:106-146 | after any answers: awaiting iff a gate is pending, a gated attempt has an approval, a rejected gate has no attempt, each gate has at most one record |
| WorkflowGates.ApprovalPrecedesAttempt | platform/orchestrator/src/workbench_orchestrator/engine.py:106-146 | for any answers, each attempt of a gated step comes after an answer that approved that gate while the run waited there and before the attempt was logged |
| WorkflowGates.LogsOnlyGrow | platform/orchestrator/src/workbench_orchestrator/engine.py:110-187 | later answers only extend the log and the approvals |
| WorkflowReplay.TryTracks | platform/orchestrator/src/workbench_orchestrator/engine.py:148-195 | the retry loop moves the reference machine by one group of log entries |
| WorkflowReplay.DriveExplained | platform/orchestrator/src/workbench_orchestrator/engine.py:128-209 | a pass leaves a record that the log alone explains |
| WorkflowReplay.LogExplainsRun | platform/orchestrator/src/workbench_orchestrator/engine.py:131-200 | after any answers the state is the input folded with the logged updates, place and status are where the reference machine stands, and steps_executed is the number of groups, at most 25 |
| WorkflowReplay.LogShape | platform/orchestrator/src/workbench_orchestrator/engine.py:150-190 | the log is groups `retried* (succeeded or failed)` numbered from 1 within max_attempts, and a failure is last |
| WorkflowSteps.StepsFollowTransitions | platform/orchestrator/src/workbench_orchestrator/engine.py:128-200 | after any answers, on log and definition alone: the first step is the entry; each entry is what its step answered in the input folded with the updates before it; after a success comes the step its `next` names or chooses in that state; completed iff that is the end; a waiting or refused run is at its gate; a failed one says why; at most 25 steps |
| Transcripts.EstimateTokens | platform/runtime/src/workbench_runtime/context.py:69-80 | the loop computes the estimate item by item and call by call |
| Transcripts.TokensOfOne | platform/runtime/src/workbench_runtime/context.py:69-80 | four tokens an item, and a quarter of its content and of each call's name and arguments, each rounded down |
| Transcripts.TokensConcat | platform/runtime/src/workbench_runtime/context.py:69-80 | the estimate adds up item by item |
| Transcripts.ChooseCut | platform/runtime/src/workbench_runtime/context.py:100-106 | the first boundary that keeps at most keep_recent_items items, for every transcript and setting |
| Transcripts.RoundsFromBoundary | platform/runtime/src/workbench_runtime/context.py:100-106 | a cut that is not on a tool result falls between two rounds of call and results |
| Transcripts.Compact | platform/runtime/src/workbench_runtime/context.py:130-171 | the compaction with its event, in the source's order of tests |
| Transcripts.CompactionExactly | platform/runtime/src/workbench_runtime/context.py:130-171 | for every transcript: an event iff the estimate reaches the trigger and the first boundary keeping at most keep_recent_items items is 2 or more; then the summary of the items before it stands in their place, and the event tells step, estimates, number of items and usage |
| Transcripts.CompactionKeepsRounds | platform/runtime/src/workbench_runtime/context.py:100-171 | a compaction keeps the transcript well formed, keeps a suffix of at most keep_recent_items items unchanged, and shortens it iff it had two items |
| Transcripts.CompactionShortensIff | platform/runtime/src/workbench_runtime/context.py:137-154 | for every transcript, a compaction fails to shorten it iff it has at most one item and the policy keeps so few, a negative number, that the cut is 2 or more |
| Transcripts.CompactedToOneItem | platform/runtime/src/workbench_runtime/context.py:137-154 | the one-item transcript that a policy keeping -1 items replaces by one item |
| AgentLoop.RunTools | platform/runtime/src/workbench_runtime/agent.py:100-120 | one execution and one result item a call, in order, an unknown tool giving an error result |
| AgentLoop.RunAgent | platform/runtime/src/workbench_runtime/agent.py:64-132 | the loop computes the outcome, and its variables at every head are the heads of the specification |
| AgentLoop.HeadsWellFormed | platform/runtime/src/workbench_runtime/agent.py:64-121 | at every loop head, and in everything sent to the model, the transcript starts with the user and each call item is followed at once by exactly its results |
| AgentLoop.HeadsCarryConversation | platform/runtime/src/workbench_runtime/agent.py:64-121 | at every loop head the transcript is one user item and a suffix of everything said so far, answers, calls and results word for word; without compactions it is the input and all of it |
| AgentLoop.StepsAnswerHeads | platform/runtime/src/workbench_runtime/agent.py:69-88 | step k of the record is the model's answer to the transcript of the k-th head after its compaction, and that head has recorded the steps before it |
| AgentLoop.UsageAccounted | platform/runtime/src/workbench_runtime/agent.py:66-83 | the reported usage is that of all recorded turns and all compactions |
| AgentLoop.RunRecord | platform/runtime/src/workbench_runtime/agent.py:87-132 | at most max_steps steps; all asked for tools but the last of a completed run, whose text is the answer; every call has its execution, with the known tool's own answer or an error naming the unknown tool |
| Rendering.ToAnthropicMessages | platform/runtime/src/workbench_runtime/clients.py:226-274 | the merging loop, never empty for a non-empty transcript |
| Rendering.RolesAlternate | platform/runtime/src/workbench_runtime/clients.py:227-239 | roles strictly alternate, for every transcript |
| Rendering.BlocksPreserved | platform/runtime/src/workbench_runtime/clients.py:235-265 | the concatenated blocks are the items' blocks in order, for every transcript |
| Rendering.LoopTranscriptsPaired | platform/runtime/src/workbench_runtime/clients.py:227-274 | on loop transcripts each assistant message's tool uses are answered, in order, by the next message |
| Rendering.ToOpenAIMessages | platform/runtime/src/workbench_runtime/clients.py:64-98 | one message an item after an optional system message |
| Rendering.SameWire | platform/runtime/src/workbench_runtime/clients.py:64-274 | the chat messages and the merged messages carry the same calls and the same results in the same order, for every transcript |
| Rendering.MessagesSayTranscript | platform/runtime/src/workbench_runtime/clients.py:226-265 | read block by block, the Anthropic messages say what the transcript says, in order: every text with its speaker, every call, every result with its error flag |
| Rendering.ChatSaysTranscript | platform/runtime/src/workbench_runtime/clients.py:64-88 | read message by message, the OpenAI messages say the same but for the error flags, for every transcript |
| RateLimiter.RateLimitMiddleware.ReapIdle | platform/gateway/src/workbench_gateway/security.py:106-114 | exactly the idle entries are dropped, at most once an interval |
| RateLimiter.RateLimitMiddleware.Dispatch | platform/gateway/src/workbench_gateway/security.py:127-140 | a request in place: reap, prune, decide, record; a zero limit admits and changes nothing |
| RateLimiter.RequestRefines | platform/gateway/src/workbench_gateway/security.py:127-140 | a request is decided as the unbounded history decides it and keeps the refinement |
| RateLimiter.LimiterMatchesHistory | platform/gateway/src/workbench_gateway/security.py:94-140 | over every request sequence on a non-decreasing clock: admitted iff fewer than `limit` admissions of the client are at most 60 s old, with or without reaping |
| RateLimiter.AtMostLimitPerWindow | platform/gateway/src/workbench_gateway/security.py:127-140 | over every request sequence on a non-decreasing clock, every closed 60 s interval holds at most `limit` admissions of a client by the limiter |
| JsonScanner.ExtractJsonObject | apps/computer_use_qa/src/workbench_app_cua/browse.py:225-254 | the nested loops compute the extraction and terminate |
| JsonScanner.ExtractsFirstCandidate | apps/computer_use_qa/src/workbench_app_cua/browse.py:225-254 | for every text and loader: the value of the first brace whose span closes and loads is returned iff it is an object; None iff there is no such brace or its value is no object |
| JsonScanner.FindEnd | apps/computer_use_qa/src/workbench_app_cua/browse.py:229-247 | the inner loop finds the index at which the depth returns to zero outside a string |
| JsonScanner.LiteralMoves | apps/computer_use_qa/src/workbench_app_cua/browse.py:234-242 | the scan passes over any string literal, with whatever braces, quotes and escapes in it, and is outside it behind its closing quote |
| JsonScanner.ValueMoves | apps/computer_use_qa/src/workbench_app_cua/browse.py:232-247 | scanning any printed value inside an object returns to the same depth, outside a string, without closing it |
| JsonScanner.ScannerStopsAtEnd | apps/computer_use_qa/src/workbench_app_cua/browse.py:228-247 | started at a printed object the scanner stops exactly at its last character |
| JsonScanner.ExtractReturnsPrinted | apps/computer_use_qa/src/workbench_app_cua/browse.py:225-254 | every prefix in which no candidate starts and every suffix around a printed object give the object back |
| JsonScanner.ExtractReturnsAfterPlainText | apps/computer_use_qa/src/workbench_app_cua/browse.py:225-254 | in particular every prefix without an opening brace |
| JsonScanner.SliceAgreesIff | platform/evals/src/workbench_evals/judge.py:30-37 | the find/rfind slice is the printed object iff the suffix has no closing brace |
| Chunking.SectionsPartition | platform/rag/src/workbench_rag/chunking.py:17-23 | the sections concatenate to the document, each after the first starts with a heading, and none has a heading elsewhere |
| Chunking.HeadingLevels | platform/rag/src/workbench_rag/chunking.py:14-19 | a line that starts with n marks and another character is a heading iff n is 1 to 6 and that is a space, and only at the start of a line |
| Chunking.BlankLinesSplit | platform/rag/src/workbench_rag/chunking.py:26-27 | joining the parts of a section gives it back, and no part holds a blank line |
| Chunking.ParagraphsOfSection | platform/rag/src/workbench_rag/chunking.py:26-27 | the section is its paragraphs in order with gaps of space around them, between two of them with a blank line; no paragraph is empty, has space at its ends or holds a blank line |
| Chunking.ParagraphsStripped | platform/rag/src/workbench_rag/chunking.py:26-27 | every paragraph is non-empty and has no space at either end |
| Chunking.StripAround | platform/rag/src/workbench_rag/chunking.py:50-60 | stripping a text leaves a stripped paragraph inside it whole |
| ChunkPacking.PackSection | platform/rag/src/workbench_rag/chunking.py:40-48 | the inner loop over one section's paragraphs computes the specified pieces |
| ChunkPacking.ChunkDocument | platform/rag/src/workbench_rag/chunking.py:30-60 | the chunks are the stripped pieces of all sections, numbered from 0 |
| ChunkPacking.PackedIsUnique | platform/rag/src/workbench_rag/chunking.py:40-46 | a greedy division of the paragraphs is the only one |
| ChunkPacking.PiecesFollowLayout | platform/rag/src/workbench_rag/chunking.py:38-48 | the pieces are those of the one layout that divides each section's own paragraphs into consecutive groups, each closed only where the next paragraph would not fit and opened with the overlap; none mixes sections |
| ChunkPacking.PieceText | platform/rag/src/workbench_rag/chunking.py:42-46 | a piece is its paragraphs joined by blank lines, behind the end of the piece before it, as much as the overlap says, and a blank line |
| ChunkPacking.ParagraphsKept | platform/rag/src/workbench_rag/chunking.py:26-60 | the document is the paragraphs of the chunks, chunk by chunk in order and each once, with nothing but space around them; and each stands whole in its own chunk's text |
| ChunkPacking.PiecesWithinLimitIff | platform/rag/src/workbench_rag/chunking.py:42-46 | every piece of every document has at most max(target + 2, overlap + longest paragraph + 4) characters, iff the overlap is not negative |
| Luhn.LuhnOk | apps/compliance_reviewer/src/workbench_app_compliance/policy.py:47-58 | the left-to-right loop computes the standard's right-to-left sum, for any table of digit characters; a digit that int refuses raises |
| Luhn.DigitsConcat | apps/compliance_reviewer/src/workbench_app_compliance/policy.py:48 | the digits are read character by character, in order |
| Luhn.DigitsOfOne | apps/compliance_reviewer/src/workbench_app_compliance/policy.py:48 | a digit character stands for its value, any other for nothing |
| Luhn.AnnexBSum | apps/compliance_reviewer/src/workbench_app_compliance/policy.py:51-57 | the sum is 0 for zeros, and each digit adds what Annex B counts for its place: itself, or the digit sum of its double at every second place from the check digit |
| Luhn.SingleErrorDetected | apps/compliance_reviewer/src/workbench_app_compliance/policy.py:47-58 | changing any one digit of an accepted number makes it rejected |
| Luhn.AdjacentSwapDetected | apps/compliance_reviewer/src/workbench_app_compliance/policy.py:47-58 | swapping two adjacent digits goes unnoticed iff they are equal, or 0 and 9 |
| Luhn.UniqueCheckDigit | apps/compliance_reviewer/src/workbench_app_compliance/policy.py:47-58 | each prefix of 12 to 15 digits has exactly one accepting check digit |

## Left out

Assumptions of the durable-run model:

- Store failures: the store is up, so the fail-open claim, the swallowed write errors and the fabricated record of `create_run` are not modelled.
- Clock: one shared clock; a store statement takes effect at the instant it stamps, so skew between hosts and the delay between reading the clock and the commit are not modelled.
- Run ids: a submit's new id is fresh; the chance of a collision of truncated uuids is not modelled.
- RunStore.Store.UpsertRun: one atomic step, as is `TouchRun`; the source reads the row and then writes the changed columns, so another write in between is not modelled for these two (the claim and the sweep are single statements there too).
- Job JSON: equal jobs have equal JSON and every encoded job parses again; anything else on a list is unparseable text.
- Concurrency limit: a worker may have any number of jobs in flight, which includes every setting of `max_inflight`.
- Crashes: a process or a single job task may crash alone, which includes a worker dying with all its tasks.
- The error text of a swept run does not name the TTL.
- `InProcessQueue`, `aclose`, and the tracing calls around a run: no durable state of their own.
- The other rows of `agent_runs` (workflow runs) and `list_runs`, `get_run` as an endpoint.

Other assumptions and weaker statements:

- Timestamps.FmtOrder: years 1000 to 9999, where the year has four digits; the database compares text by code point.
- Workflow.Drive: a branch function returns a known step name or None; a step function returns its updates or fails without changing the state dict in place; retry delays, latencies, `approval_prompt`, ids and log text are erased.
- Transcripts.Compact: the trigger is the least integer not below the float product it is compared with; the summary's marker line is part of the summariser's text; `cost_usd` and `add_cost` are not modelled.
- AgentLoop.RunAgent: the model and the summariser are functions of the transcript and the step, a tool of the call, the step and the call's place in it, so no two uses are tied to one answer; the system prompt built by `ContextEngine.build` and `render_system` does not depend on the transcript and is left out.
- Rendering.ToAnthropicMessages: the error for items of foreign types is not modelled, because a transcript has none.
- RateLimiter.RateLimitMiddleware.Dispatch: called for protected paths with the client's address; the path test and `X-Forwarded-For` are outside. The clock is an integer number of nanoseconds.
- RateLimiter.LimiterMatchesHistory: one fixed limit and a clock that does not go back.
- JsonScanner.ExtractReturnsPrinted: `json.loads` is an oracle of which only one thing is assumed, that it reads back what `json.dumps` wrote for this object. Number literals are any text without quotes and braces. Texts hold no lone surrogates, which Python strings may.
- JsonScanner.SliceAgreesIff: the verdict's score clamp and its field checks are not modelled.
- ChunkPacking.ChunkDocument: a chunk's id is the pair of its document's id and its ordinal; metadata is copied unchanged and left out.

Not modelled, since true but easy or resting on foreign code: HTTP routes and the other middleware, the UI,
configuration and deployment; provider clients, browser automation, search, embeddings and vector stores; `validate_sql`;
network and path guards; the prompt registry cache; the scenario runner, incident classifier, pricing and percentiles.
