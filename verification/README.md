# Managed execution, verified

A Dafny model of the durable managed-execution protocol in `src/tianshu/application/` and proofs about all of its
runs.  `dafny verify dfyconfig.toml` checks everything.

The state is one database record: edicts, Memorials, execution attempts, RunStates, decisions, side-effect intents,
outbox events, DAGs, scheduler jobs, fires and submissions (`Durable`).  Every service call is one unit of work: a
function from the database to a committed database or a raised fault, and beside it a method that performs the call
row by row on the shared connection and is proved equal to that function.  `Protocol` puts all of them, the fenced
and unfenced saves of runners, the projection of decisions and other writers of the same tables into one state
machine; `Invariant` says what every reachable database satisfies and what a step may do to a row; `Safety`,
`SuspensionRuns`, `ReviewRuns`, `DecisionRuns`, `TimerChain` and `SkipPolicy` are about whole runs, and `Witnesses`
holds runs that fail.  The event bus, outbox delivery and the supervision of local runs are models of their own.

The protocol's theorems are about the steps of `Protocol`.  Three writers outside it finish or reopen roots by
themselves and are not among those steps: the auditor, the approval manager's projection of a rejected or expired
plan review (`ApprovalProjection` says what it does to the invariant and how a pass repairs it), and a planner that
writes back a Memorial it read before an await.

How the pieces read:

- A raised fault leaves the old database, as a rolled-back transaction does.
- Beside each transaction stand lemmas that say exactly when it commits and all it writes, in terms of stored fields
  and not of the functions it is made of.
- Derived identities (managed roots, fires, events) are constructors applied to what the program hashes: hashes are
  injective and prefixes keep kinds apart.  Generated identities and clocks are parameters; a collision raises.
- A query without a total order, or with a limit, is answered by a parameter that satisfies the query (`IsScan`,
  `IsSuspendedScan`, `IsNewestRoot`), so results hold for every order the database may return.
- Methods that look up a live or a first attempt ask for the ledger's unique indexes (`OneLive`, `OneFirst`); both
  follow from the invariant (`InvOneLive`, `InvOneFirst`).
- A runner saves RunStates that name decisions of their own Memorial only, as every request of a decision does, and
  keeps or drops the resolved decision of the stored row: only the projection of decisions, the continuation service
  and the plan-review pass write a new one.
- Types of events that callers hand to managed ingress are never terminal ones.
- The next time of a cron expression is a function parameter; results that need it assume it strictly increases.

## What the code does not promise

Each of these was expected of the code and is false of it.  The first member named shows a run that fails, the
others give the exact condition.

- Replaying a managed start after its first attempt was suspended and resumed raises instead of returning the first
  identities, because the replay compares the attempt's due time with the root's creation time
  (`Witnesses.ResumeBreaksReplay`; `StartIsWriteOnce`).
- A plan-review pass fails attempts that are suspended on tool or outer-loop decisions, since its scan has no filter
  on the kind (`ReviewFailsOuterLoopSuspension`; `PassPartitions`).
- Dead-letter reconciliation stops converging while one backlogged root has a RunState that does not decode or names
  another edict (`DamagedRowBlocksReconciliation`; `ReconcileWorks`, `UnclosableRootBlocksEveryPass`).
- A finished root can have a RunState in planning: the planner and the tools save without looking at claim or root
  (`LatePlanUnderCancelledRoot`; `MatchesIffNotLate`).
- A recorded outbox consumer can be invoked again after a lease takeover (`TakeoverReinvokes`, `LateRecordReinvokes`;
  `ReinvokedIffRecordedBeside`, `ReinvocationIsTakeover`, `NoTakeoverNoReinvocation`).
- A stored projection outlives its task when the heartbeat task ended with an error or the runner raised: the exit
  block awaits both before its cleanup (`LostHeartbeatLeaks`; `LeaksIff`, `LeaksByHistory`).
- Under the skip policy a manual fire, a DAG retry or a start other than a follow-up can add a second active root
  (`ManualFireBreaksSkip`, `DagRetryBreaksSkip`, `StartBreaksSkip`; `ManualFireIgnoresPolicy`, `DagRetryIgnoresPolicy`,
  `StartIgnoresPolicy`, `OneActiveRoot`).
- A tool resume can leave the side-effect cursor at its intent and the proposal in place: once the approval manager
  has projected the same decision, the continuation service takes the RunState for resumed
  (`ProjectedResumeKeepsProposal`; `ToolResumePassesIntent`, `ToolResumeByHistory`).
- A decision can move a RunState twice: a rejected tool decision that is projected first sets the run going before its
  delivery fails it (`RejectionMovesTwice`; `DecisionMovesOnce`, `ActingMovesIff`).
- A root can stay finished without a terminal event: the approval manager, a writer outside the protocol's steps, fails
  a rejected review by itself, and a cancellation before the next pass revokes the attempt without announcing anything
  (`RejectedReviewEndsSilently`, `CancelInWindowIsSilent`; `PassAbsorbsEarlyFailure` when the pass comes first).

## Model

| member | source | states |
|---|---|---|
| `AttemptLedger.InvOneLive` | src/tianshu/storage/migrations.py:2872-2876 | The order of attempts kept by every step implies the unique index: a Memorial has at most one live attempt. |
| `AttemptLedger.Enqueue` | src/tianshu/storage/attempt_ledger.py:146-210 | `enqueue_initial` inserts the first attempt, returns an identical one, and refuses any other time, budget or identity. |
| `AttemptLedger.EnqueueAnswers` | src/tianshu/storage/attempt_ledger.py:146-210 | When `enqueue_initial` commits, both ways, and all it writes: number 1, token 0, the asked due time and budget, claimable; a stored first attempt answers only for its own identity, time and budget. |
| `AttemptLedger.FreshRootWorks` | src/tianshu/storage/attempt_ledger.py:146-210 | Under a new root the first attempt is inserted exactly when the budget is positive and the identity free. |
| `AttemptLedger.ClaimKeeps` | src/tianshu/storage/attempt_ledger.py:284-363 | A claim, won or not, keeps the invariant and only advances rows. |
| `AttemptLedger.ExpireKeeps` | src/tianshu/storage/attempt_ledger.py:365-407 | An expired claim becomes a dead letter or a failed attempt with a claimed successor, keeping the invariant. |
| `AttemptLedger.ClaimIssues` | src/tianshu/storage/attempt_ledger.py:284-407 | A won claim is current at once and holds a token newer than any of its root. |
| `AttemptLedger.ClaimWinsIff` | src/tianshu/storage/attempt_ledger.py:284-407 | A claim wins if and only if the root's live attempt is claimable and due, or its lease has run out with budget left and the new identity free. |
| `AttemptLedger.ClaimTakesDue` | src/tianshu/storage/attempt_ledger.py:333-356 | A due attempt is claimed with the next token and a lease of the asked length from now on; number, due time and budget are kept and nothing else changes. |
| `AttemptLedger.ClaimReplacesExpired` | src/tianshu/storage/attempt_ledger.py:365-407 | An expired claim with budget left is failed, and its successor, next in number and token, due now and with the same budget, is claimed at once; a taken identity raises. |
| `AttemptLedger.ClaimBuriesExpired` | src/tianshu/storage/attempt_ledger.py:377-399 | An expired claim without budget becomes a dead letter and nobody wins. |
| `AttemptLedger.ClaimFindsNothing` | src/tianshu/storage/attempt_ledger.py:300-335 | In every other case nobody wins and nothing changes: back-off, running leases and suspensions are respected. |
| `AttemptLedger.CurrentExcludesClaims` | src/tianshu/storage/attempt_ledger.py:284-363 | While an authority is current, no claim of its root wins and none changes anything. |
| `AttemptLedger.HeartbeatKeeps` | src/tianshu/storage/attempt_ledger.py:409-465 | A heartbeat extends only the current lease and keeps the invariant. |
| `AttemptLedger.SuspendConserves` | src/tianshu/storage/attempt_ledger.py:467-541 | A suspension of the current attempt keeps the invariant and every row's history. |
| `AttemptLedger.HeartbeatExtends` | src/tianshu/storage/attempt_ledger.py:409-465 | A heartbeat in time keeps the authority current for one more lease and touches only its attempt. |
| `AttemptLedger.HeartbeatRenews` | src/tianshu/storage/attempt_ledger.py:409-465 | A heartbeat is accepted exactly from owner and token of a running lease; the lease then starts now with its old length, and nothing else changes. |
| `AttemptLedger.SuspendMeans` | src/tianshu/storage/attempt_ledger.py:467-541 | Exactly the current authority can suspend: its attempt is then suspended without a lease, token, number and due time kept, nothing else changes, and it is current no more. |
| `AttemptLedger.RetryKeeps` | src/tianshu/storage/attempt_ledger.py:104-137 | A failed attempt and the successor that inherits its token keep the invariant. |
| `RunStateRepository.SwapKeeps` | src/tianshu/storage/run_state_repo.py:264-383 | A compare-and-swap, or the recovery of a foreign edict, keeps the invariant and moves the row forward. |
| `FencedCompletion.CompleteRun` | src/tianshu/application/fenced_run_completion.py:58-185 | The completion, row by row, is the transaction `Complete`: all of it or nothing. |
| `FencedCompletion.CompleteKeeps` | src/tianshu/application/fenced_run_completion.py:58-185 | A completion keeps the invariant: root, RunState, event and attempt end together. |
| `FencedCompletion.CompleteCommits` | src/tianshu/application/fenced_run_completion.py:68-182 | A completion commits if and only if its status is that of its disposition, its authority is current and names its root, and the RunState is closable. |
| `FencedCompletion.CloseRunStateWorks` | src/tianshu/application/fenced_run_completion.py:448-477 | Closing succeeds exactly for an absent or decodable RunState of the root's edict, and ends in the terminal phase with nothing pending. |
| `FencedCompletion.CancelRun` | src/tianshu/application/fenced_run_completion.py:187-268 | The cancellation, row by row, is the transaction `CancelRoot`. |
| `FencedCompletion.CancelRootKeeps` | src/tianshu/application/fenced_run_completion.py:187-268 | A cancellation keeps the invariant. |
| `FencedCompletion.CancelTerminalIsNoChange` | src/tianshu/application/fenced_run_completion.py:212-268 | Cancelling a finished root changes nothing: it has no attempt to revoke. |
| `FencedCompletion.CancelRootCommits` | src/tianshu/application/fenced_run_completion.py:187-268 | Cancelling an active root commits if and only if its RunState is closable, and leaves no live attempt. |
| `FencedCompletion.CancelRootRevokes` | src/tianshu/application/fenced_run_completion.py:212-268 | All a cancellation writes: the cancelled root with its output kept, every claimable, claimed or suspended attempt of it failed without its lease, the failed RunState and one event. |
| `FencedCompletion.CancelOthers` | src/tianshu/application/fenced_run_completion.py:195-268 | Of a finished root only stray attempts are revoked, with the answer False; what is no root is refused. |
| `FencedCompletion.RetryRun` | src/tianshu/application/fenced_run_completion.py:270-361 | The retry, row by row, is the transaction `RetryOrDeadLetter`. |
| `FencedCompletion.RetryOrDeadLetterKeeps` | src/tianshu/application/fenced_run_completion.py:270-361 | A retry inserts the next attempt or finishes the root, keeping the invariant. |
| `FencedCompletion.CompleteProjects` | src/tianshu/application/fenced_run_completion.py:90-182 | All a committed completion writes: the root completed or failed with its new or old output, the attempt succeeded or failed as the run did and without its lease, the RunState in the matching phase with nothing pending, and one event. |
| `FencedCompletion.CompleteRetires` | src/tianshu/application/fenced_run_completion.py:174-182 | A completion leaves its root without a live attempt. |
| `FencedCompletion.RetryCommits` | src/tianshu/application/fenced_run_completion.py:270-359 | A retry commits if and only if its time is not past, its authority is current and its own, and the budget lasts or the RunState is closable. |
| `FencedCompletion.RetryEnqueuesNext` | src/tianshu/application/fenced_run_completion.py:300-312 | All a retry within the budget writes: the attempt failed without its lease, and the next one with the next number, the same token and budget, due at the asked time. |
| `FencedCompletion.RetryBeyondBudgetFails` | src/tianshu/application/fenced_run_completion.py:312-359 | All a retry beyond the budget writes: a dead letter, the failed root with its output kept, its ended RunState and one event. |
| `FencedCompletion.DeadLetterRetires` | src/tianshu/application/fenced_run_completion.py:312-359 | Beyond the budget no attempt of the root is live. |
| `RunExecution.CompleteAttempt` | src/tianshu/application/run_execution.py:159-211 | The completer takes the projection for terminal results only and performs the transaction `Route`. |
| `RunExecution.RouteIsFenced` | src/tianshu/application/run_execution.py:159-211 | Whatever its outcome, a finished attempt changes the database only under a current authority. |
| `RunExecution.RouteKeeps` | src/tianshu/application/run_execution.py:159-211 | Every route keeps the invariant. |
| `RunExecution.SuspensionReportedTwice` | src/tianshu/application/run_execution.py:164-180 | A suspension reported twice under one claim is one suspension. |
| `RunExecution.SuccessCompletesRoot` | src/tianshu/application/run_execution.py:183-211 | A success completes its root if and only if there is a projection, the authority is current and its own, and the RunState is closable. |
| `RunExecution.ResultFinishesRoot` | src/tianshu/application/run_execution.py:183-211 | A last result finishes its root if and only if it is delivered, with the projected output if there is one; a failure needs no projection; otherwise the root is as it was. |
| `RunExecution.SuspensionAnswer` | src/tianshu/application/run_execution.py:164-180 | A suspension is answered True exactly for a current authority or one whose own claim is suspended already. |
| `RunExecution.RetryAnswer` | src/tianshu/application/run_execution.py:181-182 | A retry is routed with its own time, at which the next attempt is due. |
| `RunExecution.Projections.Take` | src/tianshu/application/run_execution.py:136-140 | A taken projection is gone. |
| `DeadLetterReconciliation.ReconcileDeadLetteredRoots` | src/tianshu/application/fenced_run_completion.py:363-446 | The loop over the scanned rows with its counter is the fold `Reconcile`, or nothing if a row raises. |
| `DeadLetterReconciliation.ReconcileKeeps` | src/tianshu/application/fenced_run_completion.py:363-446 | A pass keeps the invariant. |
| `DeadLetterReconciliation.OneDeadLetterPerRoot` | src/tianshu/application/fenced_run_completion.py:378-392 | An active root has at most one dead letter. |
| `DeadLetterReconciliation.ReconcileWorks` | src/tianshu/application/fenced_run_completion.py:394-446 | A pass commits if and only if every scanned root has a closable RunState; it fails exactly those roots, ends exactly their RunStates, and returns their number. |
| `DeadLetterReconciliation.PassShrinksBacklog` | src/tianshu/application/fenced_run_completion.py:363-446 | A pass removes exactly the roots it failed from the backlog, as many as it returns; it returns 0 only on an empty backlog. |
| `DeadLetterReconciliation.PassesConverge` | src/tianshu/application/fenced_run_completion.py:363-446 | For every positive limit, counts sum to the roots failed, and as many passes as there were roots leave none. |
| `DeadLetterReconciliation.UnclosableRootBlocksEveryPass` | src/tianshu/application/fenced_run_completion.py:420-426 | Convergence fails otherwise: with a covering limit one unclosable RunState makes every pass raise. |
| `ContinuationRecovery.HandleDecisionResolved` | src/tianshu/application/continuation_recovery.py:35-138 | The handler, row by row, is the transaction `Handle`, with its answer. |
| `ContinuationRecovery.HandleKeeps` | src/tianshu/application/continuation_recovery.py:35-138 | A delivery keeps the invariant. |
| `ContinuationRecovery.CancelKeeps` | src/tianshu/application/continuation_recovery.py:228-314 | The cancelling branch keeps the invariant. |
| `ContinuationRecovery.ResumeKeeps` | src/tianshu/application/continuation_recovery.py:105-138 | The resuming branch keeps the invariant. |
| `ContinuationRecovery.ActAnswers` | src/tianshu/application/continuation_recovery.py:93-138 | A delivery that acts answers its decision; it cancels the decision's root or leaves every root as it was. |
| `ContinuationRecovery.ResumeProjects` | src/tianshu/application/continuation_recovery.py:105-135 | A resume leaves the RunState executing with the decision resolved, and a suspended attempt claimable from now. |
| `ContinuationRecovery.ToolResumePassesIntent` | src/tianshu/application/continuation_recovery.py:168-226 | After a delivery that resumes a tool decision the side-effect cursor is past the intent if and only if the RunState still waited or was past it before, and the proposal is cleared if and only if it still waited or there was none; a waiting RunState is resumed only with its intent bound, one already moved on is left as it is, intent or not. |
| `ContinuationRecovery.RedeliveryIsNoChange` | src/tianshu/application/continuation_recovery.py:60-76 | After a delivery that acted, whatever happens to the rows, the same event returns False and changes nothing. |
| `ContinuationRecovery.HandleAnswers` | src/tianshu/application/continuation_recovery.py:35-195 | Which deliveries are ignored, which act and which raise, both ways, by what is stored: the decision's kind and status, the event's fields, root, answers, RunState, live attempt and intent. |
| `ContinuationRecovery.CancelsIffAbortedOrRejected` | src/tianshu/application/continuation_recovery.py:154-159 | A delivery that acts ends the root, with no live attempt and the cancel event, if and only if an outer-loop decision was aborted or a tool decision rejected; for every other answer the root stays active with the resume event. |
| `ContinuationRecovery.DeliveryResumes` | src/tianshu/application/continuation_recovery.py:105-138 | All a resuming delivery writes: the RunState executing, past a tool decision's intent by exactly one, the suspended attempt claimable from now on without a lease, and the resume event. |
| `ContinuationRecovery.DeliveryCancels` | src/tianshu/application/continuation_recovery.py:228-314 | All a cancelling delivery writes: the cancelled root, its live attempt failed without its lease, the failed RunState with the decision resolved, and the cancel event. |
| `PlanReview.ReconcileOnce` | src/tianshu/application/plan_review_lifecycle.py:30-155 | The loop over suspended rows with its counter is the fold `Review`, or nothing if a row raises. |
| `PlanReview.VerdictMeans` | src/tianshu/application/plan_review_lifecycle.py:157-224 | Both ways, by what is stored: a row stays exactly when its RunState waits for a pending review of its root, edict and hashed plan, resumes exactly on an approval, is rejected exactly on another end of the review, and is invalid otherwise. |
| `PlanReview.ReviewRowWorks` | src/tianshu/application/plan_review_lifecycle.py:44-154 | One row raises only if its failure event is stored already; otherwise attempt, root, RunState and event are what its verdict makes of them. |
| `PlanReview.ReadmitKeeps` | src/tianshu/application/plan_review_lifecycle.py:226-244 | Resuming an approved attempt keeps the invariant. |
| `PlanReview.TerminalizeKeeps` | src/tianshu/application/plan_review_lifecycle.py:246-340 | Failing an attempt with its root keeps the invariant. |
| `PlanReview.ReviewWorks` | src/tianshu/application/plan_review_lifecycle.py:30-155 | A pass commits if and only if its failure events are new and distinct; it decides every row by its own verdict, touches nothing else and returns how many left suspension. |
| `PlanReview.ReviewKeeps` | src/tianshu/application/plan_review_lifecycle.py:30-155 | A pass keeps the invariant. |
| `PlanReview.PassPartitions` | src/tianshu/application/plan_review_lifecycle.py:45-154 | A committed pass splits the scan, attempt, root and RunState: validly pending rows are untouched; approved ones are due at the later of now and the decision with the RunState in planning, plan and cursor kept; all others fail with root and RunState, announced under the decision or what is blamed. |
| `PlanReview.SecondPassIsIdle` | src/tianshu/application/plan_review_lifecycle.py:30-155 | After a pass that saw every suspended attempt, a second one without new decisions returns 0 and changes nothing. |
| `PlanReview.OtherSuspensionsFail` | src/tianshu/application/plan_review_lifecycle.py:35-44 | The scan has no filter on kind: attempts suspended on tool or outer-loop decisions are failed with their root. |
| `ReviewRuns.PassNeverRaises` | src/tianshu/application/plan_review_lifecycle.py:30-155 | In every state of every run a pass commits, whatever it scans: RunStates name decisions of their own Memorial only. |
| `ReviewRuns.FailuresDiffer` | src/tianshu/application/plan_review_lifecycle.py:323-328 | Two failing rows never write one event identity: they would be two live attempts of one root. |
| `ReviewRuns.RunOwned` | src/tianshu/storage/migrations.py:2442-2461 | In every state a RunState names decisions of its own Memorial, and so does every plan failure event. |
| `ApprovalProjection.FailedWithoutEvent` | src/tianshu/executor/approvals.py:600-604 | The approval manager's own write of a rejected review leaves a finished root with a live attempt and no terminal event: outside the invariant. |
| `ApprovalProjection.PassAbsorbsEarlyFailure` | src/tianshu/executor/approvals.py:328-331 | The next pass over that row commits exactly when it would have without the write, and leaves the same rows. |
| `ApprovalProjection.CancelInWindowIsSilent` | src/tianshu/executor/approvals.py:600-604 | A cancellation before that pass revokes the attempt, returns False and leaves the root finished with no terminal event. |
| `SuspensionRace.ReviewFirst` | src/tianshu/application/plan_review_lifecycle.py:94-154 | A pass that ends a suspension leaves the root's RunState in a phase no resolved tool or outer-loop decision can move. |
| `SuspensionRace.ContinuationFirst` | src/tianshu/application/continuation_recovery.py:93-138 | A delivery that acts leaves its root without a suspended attempt. |
| `SuspensionRace.KindsAreApart` | src/tianshu/application/continuation_recovery.py:140-152 | A plan-review decision is never acted on by the continuation service. |
| `SuspensionRuns.ReviewedRootIgnoresDeliveries` | src/tianshu/application/continuation_recovery.py:60-92 | Over any run, after a pass has ended a suspension every delivery for that root changes nothing and never returns True, until the runner writes its RunState again. |
| `SuspensionRuns.ContinuedRootEscapesReview` | src/tianshu/application/plan_review_lifecycle.py:35-44 | Over any run, after a delivery has acted no pass scans an attempt of that root, until one is suspended again. |
| `SuspensionRuns.StaysClosed` | src/tianshu/application/continuation_recovery.py:161-184 | No step but the runner's own write opens a RunState. |
| `SuspensionRuns.SuspensionEndsOnce` | src/tianshu/application/plan_review_lifecycle.py:226-289 | A suspension is ended by at most one step of a run, whichever service takes it. |
| `SuspensionRuns.EarlyRowMatches` | src/tianshu/application/fenced_run_completion.py:448-477 | A RunState stored before its root is finished matches the root for ever: terminal phase, nothing pending, unless it no longer decodes. |
| `SuspensionRuns.LateRowMismatches` | src/tianshu/planner/planner.py:98-154 | A RunState created under a finished root does not match it. |
| `SuspensionRuns.MatchesIffNotLate` | src/tianshu/planner/planner.py:98-181 | After the step that finishes a root its RunState matches throughout if and only if a row was there at that step or none was written since. |
| `RunStateWriters.SaveKeeps` | src/tianshu/executor/side_effects.py:243-291 | A save under a current authority keeps the invariant. |
| `RunStateWriters.DraftKeeps` | src/tianshu/planner/planner.py:98-181 | A save that checks neither claim nor root keeps the invariant, and never moves a row that matches a finished root. |
| `RunStateWriters.ProjectDecisionKeeps` | src/tianshu/governance/decision_service.py:371-437 | The projection of a decision keeps the invariant, wherever its root has got to. |
| `RunStateWriters.SaveAnswers` | src/tianshu/storage/run_state_repo.py:264-318 | A fenced save commits if and only if its authority is current and the state fits its Memorial and carries the stored version, edict and no older time, or is a first version; it is stored with the next version. |
| `RunStateWriters.DraftAnswers` | src/tianshu/planner/planner.py:98-181 | An unfenced save commits if and only if the state fits and is a first version in planning, executing or waiting, supersedes one at a planning boundary, or waits right after a resolved decision. |
| `RunStateWriters.ProjectionAnswers` | src/tianshu/governance/decision_service.py:371-437 | The projection commits if and only if the decision has ended and the RunState waits for it or was moved on by it; all it writes is the phase the decision leads to, the resolved decision, version and time. |
| `RunStateWriters.ProjectDecisionTwice` | src/tianshu/governance/decision_service.py:400-406 | Projecting a decision again changes nothing. |
| `DecisionRuns.TakenUpBy` | src/tianshu/application/continuation_recovery.py:196-221 | In every step, a RunState takes up the resolution of a tool or outer-loop decision only by its projection or by a delivery, and that delivery answers the decision. |
| `DecisionRuns.StaysUnwaited` | src/tianshu/executor/side_effects.py:276-294 | Only a write of the runner makes a RunState wait for a decision. |
| `DecisionRuns.DecisionMovesOnce` | src/tianshu/governance/decision_service.py:393-437 | Over every run, projections and deliveries of one decision together move a RunState once until the runner waits for it again; twice only when a cancelling decision was projected first and then delivered. |
| `DecisionRuns.ActingMovesIff` | src/tianshu/application/continuation_recovery.py:93-105 | A delivery that acts moves the RunState if and only if it cancels or the RunState still waited. |
| `DecisionRuns.FoundProjectedIff` | src/tianshu/application/continuation_recovery.py:169-178 | Over every run, a delivery that acts finds the RunState moved on if and only if the decision was projected before and the runner has not waited for it again. |
| `DecisionRuns.ToolResumeByHistory` | src/tianshu/application/continuation_recovery.py:186-226 | Over every run, a tool resume leaves the cursor past its intent if and only if it was past it before or the decision had not been projected already; the same of the cleared proposal; without a projection the intent is bound. |
| `DagReset.ComputeReset` | src/tianshu/application/managed_run_ingress.py:358-388 | The fixpoint loop terminates and computes `ResetSet`. |
| `DagReset.ResetSetIsLeast` | src/tianshu/application/managed_run_ingress.py:375-387 | That is the least set with the targets that is closed under failed or cancelled nodes depending on a member. |
| `DagReset.ResetIffPath` | src/tianshu/application/managed_run_ingress.py:375-387 | A node is reset if and only if a dependency path of failed or cancelled nodes leads from it to a target. |
| `DagReset.ResetIgnoresOrder` | src/tianshu/application/managed_run_ingress.py:358-364 | The result depends on the set of rows, not on their order. |
| `DagReset.OthersAreNotReset` | src/tianshu/application/managed_run_ingress.py:379-382 | An untargeted node in any other status is not reset. |
| `DagRetry.RetryDagRun` | src/tianshu/application/managed_run_ingress.py:276-468 | The retry, row by row with its loop, is the transaction `RetryDag`. |
| `DagRetry.RetryDagKeeps` | src/tianshu/application/managed_run_ingress.py:276-468 | A DAG retry keeps the invariant. |
| `DagRetry.ClaimResets` | src/tianshu/application/managed_run_ingress.py:366-388 | The first retry under a key resets exactly the nodes with a path of failed or cancelled nodes to one the caller names, or else to a failed one; their rows are pending, all others as they were. |
| `DagRetry.RetryCommitsIff` | src/tianshu/application/managed_run_ingress.py:334-420 | The first retry under a key commits if and only if DAG and root ended badly, there are known nodes to start from, none to be reset has two rows, and budget and identities allow it. |
| `DagRetry.RetryWrites` | src/tianshu/application/managed_run_ingress.py:401-470 | All it writes: a root of the next generation under the old one, its first attempt due now, the event with the reset nodes, and the DAG pending under the new root. |
| `DagRetry.RetryReplays` | src/tianshu/application/managed_run_ingress.py:301-333 | A retry whose root is there commits if and only if attempt and event are those of this very command, and returns the stored reset nodes without change. |
| `DagRetry.RetryIsWriteOnce` | src/tianshu/application/managed_run_ingress.py:301-333 | After a claim the key is bound for good: the same command returns the first reset set, another one is refused, neither changes anything. |
| `DagRetry.OneClaimPerGeneration` | src/tianshu/application/managed_run_ingress.py:419-429 | Two retry roots of one generation of a DAG have the same key. |
| `DagRetry.SecondKeyLoses` | src/tianshu/application/managed_run_ingress.py:334-356 | Another key is refused while the winner's root is active. |
| `ManagedIngress.StartRun` | src/tianshu/application/managed_run_ingress.py:77-214 | The start, row by row, is the transaction `Start`. |
| `ManagedIngress.StartKeeps` | src/tianshu/application/managed_run_ingress.py:77-214 | A start keeps the invariant. |
| `ManagedIngress.StartIsWriteOnce` | src/tianshu/application/managed_run_ingress.py:172-203 | After a start its key is bound for good; a replay commits, with the first identities and no change, if and only if the command is the same, the retry limit unchanged and attempt 1 still due when the root was created. |
| `ManagedIngress.StartCommitsIff` | src/tianshu/application/managed_run_ingress.py:105-176 | The first start under a key commits if and only if the edict is there with a budget, the identities are free, and a follow-up finds every root of its edict finished. |
| `ManagedIngress.StartWrites` | src/tianshu/application/managed_run_ingress.py:117-203 | All it writes: a submitted root with the command's instruction under the named parent, or the newest root for a follow-up that names none, its first attempt due now, and the command's event. |
| `ManagedIngress.StartReplays` | src/tianshu/application/managed_run_ingress.py:172-203 | A start whose root is there commits if and only if root, event and first attempt are those of this very command, and changes nothing. |
| `ManagedIngress.AdoptRoot` | src/tianshu/application/managed_run_ingress.py:479-550 | The adoption of a stored root is the transaction `AdoptExisting`. |
| `ManagedIngress.AdoptExistingKeeps` | src/tianshu/application/managed_run_ingress.py:479-550 | An adoption keeps the invariant. |
| `ManagedIngress.AdoptionIsIdempotent` | src/tianshu/application/managed_run_ingress.py:511-538 | Adopting a root with a first attempt returns it without change, if and only if the root is active and the retry limit unchanged. |
| `ManagedIngress.AdoptionEnqueues` | src/tianshu/application/managed_run_ingress.py:490-540 | Adopting a root without an attempt commits if and only if the root is active and budget and identity allow it, and inserts exactly the first attempt at the asked time. |
| `ManagedIngress.AdoptLegacyEvent` | src/tianshu/application/managed_run_ingress.py:216-274 | The adoption of a legacy event is the transaction `AdoptLegacy`. |
| `ManagedIngress.AdoptLegacyKeeps` | src/tianshu/application/managed_run_ingress.py:216-274 | A legacy adoption keeps the invariant. |
| `ManagedIngress.LegacyAdoptsOnce` | src/tianshu/application/managed_run_ingress.py:240-265 | Of all legacy events of a root only the first adopted one is ever accepted again, without change. |
| `ManagedIngress.LegacyEnqueues` | src/tianshu/application/managed_run_ingress.py:205-265 | A legacy event of a root without an attempt is adopted if and only if root and edict allow it and a finished plan is bound to a review the RunState holds; the attempt is due when the event happened. |
| `ManagedIngress.LegacyReplays` | src/tianshu/application/managed_run_ingress.py:240-265 | Once there is a first attempt only its own event is accepted, with its time and the edict's budget, without change. |
| `EdictSubmission.SubmitEdict` | src/tianshu/application/edicts.py:94-164 | The submission, row by row, is the transaction `SubmitOnce`. |
| `EdictSubmission.SubmitKeeps` | src/tianshu/application/edicts.py:94-164 | A submission keeps the invariant. |
| `EdictSubmission.SubmitIsWriteOnce` | src/tianshu/application/edicts.py:105-209 | After a submission an equal request returns the first identities and a different one is refused, neither changing anything. |
| `EdictSubmission.SubmitWrites` | src/tianshu/application/edicts.py:94-164 | The first submission under a key commits if and only if its identities are free; all it writes are the edict, a submitted root with its goal, their event and the identities under the key. |
| `EdictSubmission.SubmitReplays` | src/tianshu/application/edicts.py:105-209 | A taken key answers exactly an equal request whose edict, root and event are there and name each other, without change. |
| `ScheduledRuns.PrepareFire` | src/tianshu/application/scheduled_runs.py:72-273 | The preparation, row by row, is the transaction `Prepare`. |
| `ScheduledRuns.PrepareKeeps` | src/tianshu/application/scheduled_runs.py:72-273 | A timer fire keeps the invariant. |
| `ScheduledRuns.FireExactlyOnce` | src/tianshu/application/scheduled_runs.py:121-157 | After a recorded fire, preparing it again changes nothing and succeeds, with the first answer, if and only if job timing, schedule, retry limit and initial Memorial are unchanged and no other next time is asked for. |
| `ScheduledRuns.FireCommitsIff` | src/tianshu/application/scheduled_runs.py:90-232 | A fresh fire commits if and only if the job is active with its cursor at that time, job and edict agree on a timing with a time after it, an offered Memorial is the untouched one of the job's submission before its first fire, and the fire is skipped or its root can be had. |
| `ScheduledRuns.FireIsFiled` | src/tianshu/application/scheduled_runs.py:191-255 | A recorded fire is skipped if and only if the timing is cron or interval, the policy is skip and an unfinished root of the edict other than the offered one exists; its row, envelope, answer and moved cursor say so, and a one-shot job is completed. |
| `ScheduledRuns.FireStarts` | src/tianshu/application/scheduled_runs.py:211-232 | A skipped fire starts nothing; any other has exactly one root, the offered one or a new submitted one with the edict's goal, with a first attempt due at the fire's time. |
| `ScheduledRuns.PrepareManualFire` | src/tianshu/application/scheduled_runs.py:275-437 | The run-now preparation, row by row, is the transaction `PrepareManual`. |
| `ScheduledRuns.PrepareManualKeeps` | src/tianshu/application/scheduled_runs.py:275-437 | A manual fire keeps the invariant. |
| `ScheduledRuns.ManualExactlyOnce` | src/tianshu/application/scheduled_runs.py:330-382 | Under one key a manual fire happens once; later calls change nothing and return the first call's time, if and only if job and edict are serviceable and the retry limit unchanged. |
| `ScheduledRuns.ManualCommitsIff` | src/tianshu/application/scheduled_runs.py:300-404 | The first manual fire under a key commits if and only if the job is active or paused, its edict open with a budget and the identities free. |
| `ScheduledRuns.ManualWrites` | src/tianshu/application/scheduled_runs.py:383-434 | All it writes: a submitted root with the edict's goal, its first attempt due at the given time, and a row with that time; the cursor stays. |
| `TimerChain.FireExtends` | src/tianshu/application/scheduled_runs.py:159-258 | A recorded fire stands at the cursor and makes the chain of times one longer. |
| `TimerChain.ManualFiresLeaveTimers` | src/tianshu/application/scheduled_runs.py:383-437 | Manual fires move no cursor and add no timer fire. |
| `TimerChain.ChainOverRuns` | src/tianshu/application/scheduled_runs.py:238-258 | Over any run without edits of the job, its timer fires are exactly the first n times of its clock and its cursor the next. |
| `TimerChain.IntervalIter` | src/tianshu/application/scheduled_runs.py:455-462 | The n-th time of an interval clock is the start plus n intervals. |
| `TimerChain.IterIncreases` | src/tianshu/application/scheduled_runs.py:463-480 | The times of a clock strictly increase, so no time is fired twice. |
| `TimerChain.IntervalCursor` | src/tianshu/application/scheduled_runs.py:439-463 | At any point of any such run an interval job's cursor is the start plus its recorded timer fires times the interval. |
| `SkipPolicy.FireKeepsOne` | src/tianshu/application/scheduled_runs.py:191-221 | A timer fire under the skip policy keeps at most one active root of the edict, the excluded initial Memorial included. |
| `SkipPolicy.StartKeepsOne` | src/tianshu/application/managed_run_ingress.py:117-130 | A follow-up keeps at most one active root of its edict. |
| `SkipPolicy.OneActiveRoot` | src/tianshu/application/scheduled_runs.py:681-696 | Over every run with follow-ups, skip-policy timer fires and any other steps, but no manual fire, DAG retry or other start of the edict, it never has two active roots. |
| `SkipPolicy.ManualFireIgnoresPolicy` | src/tianshu/application/scheduled_runs.py:383-404 | A manual fire leaves at most one active root if and only if there was none. |
| `SkipPolicy.DagRetryIgnoresPolicy` | src/tianshu/application/managed_run_ingress.py:276-420 | The first retry of a DAG under a key leaves at most one active root of its edict if and only if there was none. |
| `SkipPolicy.StartIgnoresPolicy` | src/tianshu/application/managed_run_ingress.py:117-176 | The first start under a key leaves at most one active root of its edict if and only if there was none, which only a follow-up asks for. |
| `Protocol.ServiceKeeps` | src/tianshu/application/fenced_run_completion.py:58-446 | Every service step but a suspension keeps the invariant, advances every row, moves no RunState backwards, opens or creates none, and suspends nothing. |
| `Protocol.ServiceConserves` | src/tianshu/storage/attempt_ledger.py:467-541 | Every service step, suspensions included, keeps the invariant, row histories and RunState order. |
| `Protocol.StepKeeps` | src/tianshu/application/managed_run_ingress.py:77-550 | Every modelled step, fenced and unfenced saves, decision projections and foreign writers included, keeps the invariant and advances every row. |
| `Protocol.RunInv` | src/tianshu/application/plan_review_lifecycle.py:30-340 | The invariant holds in every state of every run. |
| `Protocol.RunAdvances` | src/tianshu/application/continuation_recovery.py:35-314 | Along every run rows only advance: finished roots and attempts are frozen, versions and tokens never fall, events, fires and submissions stay. |
| `Protocol.OthersKeepTimers` | src/tianshu/application/scheduled_runs.py:238-258 | No step but the scheduler's own and foreign writers touches jobs and fires. |
| `Safety.OneLiveAttempt` | src/tianshu/storage/migrations.py:2872-2876 | In every state of every run a root has at most one live attempt, and only an active root has one. |
| `Safety.TerminalIsAbsorbing` | src/tianshu/application/fenced_run_completion.py:90-124 | A finished root keeps its row for the rest of the run. |
| `Safety.TerminalMeansOneEvent` | src/tianshu/application/fenced_run_completion.py:144-172 | In every state a root is finished if and only if the outbox holds a terminal event for it, which is the only one and names its status. |
| `Safety.AnnouncedByTheStepThatFinishes` | src/tianshu/application/plan_review_lifecycle.py:312-340 | The terminal event of a root is written by the step that finishes it and by no other. |
| `Safety.FinishedOnce` | src/tianshu/application/fenced_run_completion.py:222-268 | Over a whole run a root is finished by at most one step. |
| `Safety.HeldIsUnique` | src/tianshu/storage/attempt_ledger.py:241-282 | At most one authority per root is held at any time. |
| `Safety.LostForever` | src/tianshu/storage/attempt_ledger.py:241-282 | An authority once held and lost is never held again. |
| `Safety.TokensIncrease` | src/tianshu/storage/attempt_ledger.py:284-407 | A later holder of the same root has a larger token. |
| `Safety.FencedStepNeedsHeld` | src/tianshu/application/fenced_run_completion.py:71-81 | A heartbeat, save, suspension, completion or retry changes something only for the authority that holds its attempt. |
| `Safety.StaleAuthorityChangesNothing` | src/tianshu/application/run_dispatcher.py:219-308 | Whatever lease expiry and re-claims do in between, every fenced step of a lost authority leaves the whole database unchanged. |
| `Safety.OneProjection` | src/tianshu/application/fenced_run_completion.py:58-185 | At most one completion is ever projected onto a root. |
| `Safety.RedeliveriesAreIdle` | src/tianshu/application/continuation_recovery.py:60-76 | Over a whole run every delivery after the one that acted returns False and changes nothing. |
| `Safety.OneAnswerPerDecision` | src/tianshu/application/continuation_recovery.py:69-76 | At most one of the resume and cancel events of a decision ever exists. |
| `Safety.ServicesAdvanceStates` | src/tianshu/application/fenced_run_completion.py:448-477 | No service step loses a RunState or lowers its version, time or side-effect cursor. |
| `Safety.StatesAreBound` | src/tianshu/storage/run_state_repo.py:92-103 | In every state a decodable RunState holds a pending decision exactly in the waiting phase. |
| `Safety.OneRetryPerGeneration` | src/tianshu/application/managed_run_ingress.py:419-429 | Over a whole run one generation of a DAG is claimed at most once. |
| `Safety.FinishedRootIgnoresDecisions` | src/tianshu/application/continuation_recovery.py:66-68 | Once any step has finished a root, no later delivery of its decisions changes anything. |
| `Safety.FireOncePerRun` | src/tianshu/application/scheduled_runs.py:121-157 | Over a whole run one job and time is prepared once; every other call changes nothing. |
| `Safety.ManualOncePerRun` | src/tianshu/application/scheduled_runs.py:330-382 | Over a whole run one job and key is fired by hand once; every other call changes nothing. |
| `Safety.SubmitOncePerRun` | src/tianshu/application/edicts.py:105-119 | Over a whole run a submission key is filed once; every other call changes nothing. |
| `Safety.StartOncePerRun` | src/tianshu/application/managed_run_ingress.py:113-203 | Over a whole run a start key creates one root; every later start under it changes nothing. |
| `Safety.RetryOncePerRun` | src/tianshu/application/managed_run_ingress.py:301-333 | Over a whole run a retry key claims once; every later retry under it changes nothing. |
| `StableOrder.SortIsStable` | src/tianshu/bus/event_bus.py:185-192 | The modelled sort is sorted and keeps the entries of each priority in order. |
| `StableOrder.SortedIsUnique` | src/tianshu/bus/event_bus.py:185-192 | Any list with both properties is that one list, so every stable sort gives it. |
| `StableOrder.SortParts` | src/tianshu/bus/event_bus.py:139-140 | Sorting parts first and the whole after is one sort of the whole. |
| `StableOrder.SortWithout` | src/tianshu/bus/event_bus.py:142-145 | Removing a handler from the sorted list is sorting what is left. |
| `StableOrder.WithoutParts` | src/tianshu/bus/event_bus.py:142-145 | Removal is taken list by list, and of one entry exactly that of the handler. |
| `EventBus.Bus.On` | src/tianshu/bus/event_bus.py:123-140 | A registration is refused exactly when a live one that is read together with it has its name, and otherwise appended to the live ones; order and uniqueness are kept. |
| `EventBus.Bus.Off` | src/tianshu/bus/event_bus.py:142-145 | Unregistering removes exactly the handler's entries and keeps order and uniqueness. |
| `EventBus.Bus.OnLocal` | src/tianshu/bus/event_bus.py:147-157 | A local registration is appended to the live local ones, order kept. |
| `EventBus.Bus.OffLocal` | src/tianshu/bus/event_bus.py:159-164 | A local handler's entries are removed, order kept. |
| `EventBus.Bus.EntriesAreOneSort` | src/tianshu/bus/event_bus.py:185-192 | The consumers of an event are one stable sort of the live registrations, wildcard then exact. |
| `EventBus.Bus.EntriesAreApart` | src/tianshu/bus/event_bus.py:170-183 | No consumer name occurs twice among them. |
| `EventBus.Bus.BestEffortIsOneSort` | src/tianshu/bus/event_bus.py:194-200 | With local subscribers it is one stable sort of wildcard, exact and local registrations. |
| `EventBus.Bus.Dispatch` | src/tianshu/bus/event_bus.py:66-95 | A dispatch reports the unskipped consumers in that order, each once, with its outcome. |
| `EventBus.ReportIsComplete` | src/tianshu/bus/event_bus.py:74-95 | A consumer is reported if and only if it is registered and not skipped. |
| `EventBus.ReportNames` | src/tianshu/bus/event_bus.py:74-95 | Every reported result is of a registered, unskipped consumer and has the outcome of its handler. |
| `OutboxDelivery.DispatchRecord` | src/tianshu/application/outbox.py:371-427 | One delivery records every success, then publishes the row if nothing failed and else marks it failed. |
| `OutboxDelivery.RecordResults` | src/tianshu/application/outbox.py:402-411 | The loop records exactly the successes and finds whether any consumer failed. |
| `OutboxDelivery.DispatchedMeansConsumed` | src/tianshu/application/outbox.py:400-427 | After a dispatch without failures every registered consumer is recorded, skipped ones included. |
| `OutboxDelivery.Repository.RecordConsumption` | src/tianshu/storage/outbox_repo.py:329-350 | A consumption is inserted once and otherwise ignored. |
| `OutboxDelivery.BackoffGrows` | src/tianshu/application/outbox.py:452-457 | The wait lies between base and cap and never shrinks with the attempt count. |
| `OutboxDelivery.BackoffDoubles` | src/tianshu/application/outbox.py:452-457 | The wait starts at the base, doubles with every further attempt up to the cap, and stands still from the thirty-first on. |
| `OutboxDelivery.StepKeeps` | src/tianshu/storage/outbox_repo.py:154-350 | Every step of every dispatcher keeps the delivery invariant, and recorded consumptions stay. |
| `OutboxDelivery.PublishedMeansConsumed` | src/tianshu/application/outbox.py:400-427 | In every run, with failures, interruptions and takeovers, a published event was consumed by every consumer registered when that dispatch began. |
| `OutboxDelivery.ReinvokedIffRecordedBeside` | src/tianshu/application/outbox.py:400-411 | An invocation hits a recorded consumer if and only if another delivery recorded it while this one was at work. |
| `OutboxDelivery.ReinvocationIsTakeover` | src/tianshu/storage/outbox_repo.py:172-225 | A recorded consumer is invoked again only after a takeover: the recorder holds another claim of the event, and the older of the two claims was found expired by a later claim. |
| `OutboxDelivery.NoTakeoverNoReinvocation` | src/tianshu/storage/outbox_repo.py:178-186 | If no claim of the event takes a row whose lease ran out, no recorded consumer is ever invoked again. |
| `OutboxDelivery.RunLeases` | src/tianshu/application/outbox.py:294-303 | Every claim is dispatched once, and its row stays its own until it is done or taken over. |
| `OutboxDelivery.TakeoverReinvokes` | src/tianshu/storage/outbox_repo.py:172-225 | For every event and consumer there is a run with an expired lease in which a recorded consumer is invoked again. |
| `OutboxDelivery.LateRecordReinvokes` | src/tianshu/application/outbox.py:402-411 | Nor need a claim fall into the delivery's own time: a delivery taken over earlier can record late. |
| `OutboxDelivery.BusConsumers` | src/tianshu/bus/event_bus.py:185-192 | What a valid bus dispatches for a type can begin a delivery: distinct names, exactly those of the live registrations. |
| `OutboxDelivery.RowsOnlyAdvance` | src/tianshu/storage/outbox_repo.py:154-327 | Published and dead-lettered rows stay as they are and versions never fall. |
| `OutboxDelivery.RecordedMeansSucceeded` | src/tianshu/application/outbox.py:402-411 | In every run a consumer is recorded only after an invocation of it for that event succeeded. |
| `OutboxDelivery.ClaimTakes` | src/tianshu/storage/outbox_repo.py:172-225 | A row can be claimed exactly when it waits and is due or its lease has run out; it is leased with one more attempt and the next version, as the record says. |
| `OutboxDelivery.MarkDecides` | src/tianshu/storage/outbox_repo.py:230-292 | A finished delivery publishes its own row if every invocation succeeded; otherwise the row waits until the given time, or is a dead letter if its attempts are spent. |
| `OutboxDelivery.RejectDecides` | src/tianshu/storage/outbox_repo.py:262-327 | A rejected record fails likewise; a poisoned one is a dead letter at once. |
| `OutboxDelivery.StaleMarkChangesNoRow` | src/tianshu/storage/outbox_repo.py:230-292 | A delivery whose row has moved on marks nothing. |
| `RunSupervision.StepKeeps` | src/tianshu/application/run_dispatcher.py:149-337 | Every step between two awaits, of dispatch, supervised coroutine, runner, heartbeat, callback or reaping, keeps the supervision invariant. |
| `RunSupervision.MapsInStep` | src/tianshu/application/run_dispatcher.py:171-188 | Over every interleaving the two task maps are in bijection, hold every unfinished task, and the idle flag is set exactly when both are empty. |
| `RunSupervision.InStepIsBijection` | src/tianshu/application/run_dispatcher.py:135-136 | Maps in step hold the same tasks, one per attempt and one per Memorial. |
| `RunSupervision.ProjectionsBelongToUncleaned` | src/tianshu/application/run_execution.py:129-143 | In every state a stored projection belongs to a task that has not run its exit cleanup. |
| `RunSupervision.LeaksIff` | src/tianshu/application/run_dispatcher.py:272-284 | An ended task leaves a projection behind if and only if it still holds one; it can only if its heartbeat ended by itself or its runner raised, and exactly those tasks, and tasks that never ran, miss the cleanup. |
| `RunSupervision.LeaksByHistory` | src/tianshu/application/run_dispatcher.py:231-284 | Exactly in terms of the run: some step stored a projection after which the completer was never asked, and the heartbeat ended by itself or the runner raised. |
| `RunSupervision.UncompletedLeaks` | src/tianshu/application/run_dispatcher.py:242-249 | After a lost heartbeat, or an error that is no lookup error, whatever was stored is left behind. |
| `RunSupervision.OrderlyTasksLeaveNothing` | src/tianshu/application/run_dispatcher.py:272-284 | A task whose heartbeat was still beating and whose runner did not raise leaves nothing. |
| `RunSupervision.LostHeartbeatLeaks` | src/tianshu/application/run_dispatcher.py:275-284 | For every claim there is a run that ends idle with the projection of an ended task still stored. |
| `RunSupervision.OwedIsCompleted` | src/tianshu/application/run_dispatcher.py:225-271 | Over every run, a result returned under a beating heart is completed with its own disposition before the task ends, and an unavailable runtime or a lookup error as a failure. |
| `RunSupervision.CompletedWasOwed` | src/tianshu/application/run_dispatcher.py:225-271 | And nothing else is completed. |
| `RunDispatcher.Dispatcher.Dispatch` | src/tianshu/application/run_dispatcher.py:149-188 | A dispatch is the step of the machine, and wins exactly when not stopping, no task of the Memorial is kept and the claim succeeds. |
| `RunDispatcher.Dispatcher.Observe` | src/tianshu/application/run_dispatcher.py:310-323 | The callback is the step of the machine: it forgets exactly its own task. |
| `RunDispatcher.ReapTasks` | src/tianshu/application/run_dispatcher.py:325-335 | The loop removes exactly the ended tasks from both maps. |
| `RunDispatcher.Dispatcher.Reap` | src/tianshu/application/run_dispatcher.py:325-337 | Reaping is the step of the machine, idle flag included. |
| `RunDispatcher.Dispatcher.RequestStop` | src/tianshu/application/run_dispatcher.py:194-197 | After a stop request no dispatch wins, and maps and flag are in step. |
| `Witnesses.ResumeBreaksReplay` | src/tianshu/application/managed_run_ingress.py:178-203 | A run claims, suspends and resumes a managed root; replaying the command that started it then raises at any time, though root and event are unchanged. |
| `Witnesses.ReviewFailsOuterLoopSuspension` | src/tianshu/application/plan_review_lifecycle.py:35-44 | A run suspends an attempt on an unanswered outer-loop decision; the next pass commits and fails it with its root. |
| `Witnesses.DamagedRowBlocksReconciliation` | src/tianshu/application/fenced_run_completion.py:420-426 | A run leaves a dead letter under a root whose RunState does not decode; the pass over it raises at any time. |
| `Witnesses.LatePlanUnderCancelledRoot` | src/tianshu/planner/planner.py:582-590 | A run cancels a claimed root before its planner stores the plan; the cancelled root then has a RunState in planning. |
| `Witnesses.ManualFireBreaksSkip` | src/tianshu/application/scheduled_runs.py:383-404 | A run submits an interval edict under the skip policy and fires it by hand: two active roots. |
| `Witnesses.StartBreaksSkip` | src/tianshu/application/managed_run_ingress.py:117-176 | A run submits such an edict and starts it once more by another event than a follow-up: two active roots. |
| `Witnesses.DagRetryBreaksSkip` | src/tianshu/application/managed_run_ingress.py:276-420 | A run retries a DAG of a cancelled root while another root of the edict is active: two active roots. |
| `Witnesses.ProjectedResumeKeepsProposal` | src/tianshu/application/continuation_recovery.py:194-195 | A run approves a tool decision and projects it before its delivery; the delivery acts at any time, and cursor and proposal stay as they were. |
| `Witnesses.RejectionMovesTwice` | src/tianshu/governance/decision_service.py:439-442 | A run rejects a tool decision and projects it before its delivery: the projection sets the RunState executing, the delivery fails it. |
| `Witnesses.RejectedReviewEndsSilently` | src/tianshu/executor/approvals.py:600-603 | A run rejects a plan review; after the approval manager's write a cancellation leaves a finished root with nothing live and no terminal event. |

## Left out

- Safety.TerminalIsAbsorbing: is about the steps of `Protocol`; the auditor's reopening of a completed root and a planner's write-back of a stale Memorial are not part of this model.
- Safety.TerminalMeansOneEvent: is about the steps of `Protocol`; the approval manager fails a rejected or expired plan review without an event before the pass that announces it.
- Safety.AnnouncedByTheStepThatFinishes: the same; a rejected review is then finished by that write and announced by a later pass.
- Safety.OneLiveAttempt: the same; between that write and the pass a finished root has a suspended attempt.
- Protocol.StepKeeps: foreign writers finish, reopen and create no root.
- PlanReview.ReviewRowWorks: speaks of attempts of roots; an attempt of a Memorial that is no root raises in the model, and the ledger never holds one.
- DeadLetterReconciliation.ReconcileWorks: a stored failure that is no valid JSON would raise too; failures are not modelled.
- TimerChain.ChainOverRuns: excludes operator edits of the job, its cursor or its edict's timing, and the coalescing of missed fires, which move the cursor by other means.
- OutboxDelivery.DispatchRecord: takes consumer outcomes as a function and is one uninterrupted delivery; interleaving, interruption and takeover are in the state machine beside it.
- OutboxDelivery.MarkDecides: the time of the next round is a parameter; its distance from now is `Backoff`.
- RunSupervision.StepKeeps: the supervised coroutine is modelled on values, one step between two awaits, not as an object; a heartbeat that was asked to stop ends cancelled.
- RunDispatcher.Dispatcher.RequestStop: covers `stop` up to its first await; shutdown timeouts are not modelled.
- SQL text, JSON encoding, schema decoding, secret and plan-lineage checks of stored RunStates, redacted failures and blank-text validation.
- The outer-loop cleanup that follows a terminal projection, challenger assignment, correlation ids and other columns no modelled check reads.
- Runtime and acceptance overrides of a start: they are part of the command's payload text.
- The business stages of a run (planning, execution): their result is an outcome and a projection.
- The outbox and reconciler life cycles, polling loops and start-up barriers; malformed rows appear as a rejection step.
- Emission without reports (`emit`, `fire`) beyond its order.
- Auditor, consultation, model clients, cost, telemetry, evolution, gateway, web and query services.
