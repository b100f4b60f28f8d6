# Automated affiliate posting: a verified model

A Dafny 4.11 model of the parts of the posting automation where a mistake would send a
message twice, call an uncertain outcome safe, or plan a slot that may not be used.
`dafny verify dfyconfig.toml` checks all of it.

**The send protocol.** `DispatchStore` holds the stored records of one confirmed send
(outbox, run, dispatch, job queue) and the atomic repository operations on them.
`DispatchProtocol` is the state machine of publishers, senders and finalizers: each label is
one atomic read or write of one process, a crash, a provider report, an expiry, a manual
recovery or investigation mark, or a lost job. `ProtocolSafety` and `SafetyTheorems` prove
what holds in every state of every run, `ClaimLaws` that every call rests on a claim whose
routing held, `RecoveryLimits` what a manual recovery costs, `PublisherConvergence` exactly
when racing publishers agree, `PublicationLaws` what a published outbox means,
`DeliveryReports` what the provider's reports add up to, and `FinalizationLaws` how a run is
settled. `DispatchPrograms` is the publisher and the sender written step by step, for every
answer they get and with arbitrary activity of others between any two steps, each proved to
be a process of that machine.

**Recovery.** `ExecutionRecovery` decides what became of an execution whose owner is gone,
`RecoveryCoordinator` is one recovery pass with its report and its fences, and
`RecoveryTruth` ties recovery decisions to the calls the send protocol really made.

**The tick.** `AutomationTick`, over the answers in `TickAnswers`, follows the reservation,
every prepared claim and the handoff through one tick, with every answer of a collaborator
arbitrary and possibly an error. `InventorySupervisor` keeps the stock of prepared messages
the tick takes from, and `RunFinalizer` is what follows the finalization of a run.

**The planner.** `LocalClock`, `SchedulePolicy`, `SlotSearch`, `SlotPlanner`, `DayPlan`,
`PlanLaws` and `QuotaLaws`: windows, local-day bounds, the first allowed instant, grid
searches, the round robin over targets and the laws of every plan. Instants are integer
milliseconds; a timezone is a function that is constant within each minute.

**Smaller cores.** `CopyAttempts`, `CopyOutcomes` and `CopyGeneration` (one paid call for one
input), `OfferDecimal`, `CopyAssembler`, `CopyCleaning`, `PromotionRanking`,
`PromotionMining` and `CopyPolicy`. `Wrappers`, `Arithmetic` and `Sorting` are shared
helpers.

Processes of the protocol are modelled with what the repositories do
(`apps/api/src/prisma-repositories.ts`), so a claim, a publication, a submission or a
finalization is one compare-and-set. Answers of the network, the queue, the database and the
clock are parameters or arbitrary values.

## What the proofs found

- *At most one send* needs the manual recovery left unused, or used in time. `markFailed` compares
  nothing and a sender that stalls after its claim keeps it. For every state in which an operator
  may put the dispatch back to pending, `RecoveryLimits` says exactly what can follow: a second
  call, if and only if one was made before or a sender was about to make one; a false safe failure,
  if and only if a call that may have sent something was made or a sender still held its claim; a
  run stored as sent without a confirmed dispatch, if and only if a sender still held its claim.
- *Racing publishers converge* exactly when no publisher reads an outbox that is still pending
  while its run or dispatch has already moved (`PublisherConvergence.GivesUpExactlyWhenUnclean`,
  `PublisherConvergence.EarlyClaimMakesAmbiguous`).
- *A tick that attempted a confirmation ends blocked* exactly if an error answered after it, by
  the confirmation or on recording the execution, carries the renewal-conflict code, which the
  tick looks at before the handoff (`AutomationTick.Tick.ExecuteTick`). No path is known on which
  it does: the program raises that code only before a commit
  (`apps/api/src/commercial-automation-orchestrator.ts:898`, `:954`, `:1402`), so this is a
  condition on its collaborators and not a fault.
- *A published outbox has its own job in the queue* in every run in which the queue loses none,
  however enqueues and reads fail; a job lost before the mark leaves one without
  (`PublicationLaws.PublishedHasItsJob`, `PublicationLaws.LostJobIsStillPublished`).
- *The recovery pass recovers no send by itself.* Of a send it would deem safe only one confirmed
  without an identifier, which no run leads to; its branches for confirmed and failed dispatches
  (`apps/api/src/commercial-recovery-coordinator.ts:216-238`) are never taken on stored records
  (`ExecutionRecovery.SafeExactlyWhen`, `RecoveryTruth.NoSendIsDeemedSafe`).
- *Group quotas* hold when no two plannable targets share a group, as the unique fingerprint of a
  campaign provides (`packages/database/prisma/schema.prisma:216`), or when their quotas fit in the
  limit. The planner itself counts each target's own: two targets of one group with one message
  left are given two (`QuotaLaws.SharedGroupIsExceeded`, `QuotaLaws.GroupFitsExactlyWhen`).
- *The search cap never decides* as long as the span searched is shorter than 2880 minutes,
  which every local day shorter than 48 hours guarantees (`PlanLaws.PlanIsComplete`).
- *The next allowed instant* is the first allowed one exactly when the configured quotas are
  valid (`SchedulePolicy.EvaluateAutomationReadiness`).
- *An assembled copy is safe* exactly when cleaning its body made no URL, and *decodes* exactly
  when the headline is not empty, nothing holds a forbidden control character and the link has a
  lower-case scheme and no space (`CopyAssembler.ComposedIsSafe`, `CopyAssembler.ComposedReadsBack`).
- *The inventory report* is the number of rows the store answered, less those that could not be
  counted again, which are reported as failures. It is the number of messages newly stored if no
  row was asked for a candidate the route already knew. Preparation can answer such a candidate in
  place of the one offered; then nothing is stored and one message is reported
  (`InventorySupervisor.NewExactlyWhenUnknown`, `InventorySupervisor.KnownCandidateIsReportedAgain`).
- `README.md:542-544` says that a persisted success moves a dispatch to `SENT`; the code moves it
  to `SUBMITTED` and only a provider report confirms it. The model follows the code.

## Model

| member | source | states |
|---|---|---|
| `SafetyTheorems.AtMostOneCallPerAttempt` | apps/api/src/sender-service.ts:326-430 | Over every run of publishers, senders, finalizers, provider reports, crashes and one possible manual recovery: the provider is called at most once per counted attempt, attempts are at most one, or two after the recovery. |
| `SafetyTheorems.SafeFailureIsSafe` | apps/api/src/sender-service.ts:432-470 | A first attempt stored as failed before the request made no call that may have sent something, and no sender is left that could make one. |
| `SafetyTheorems.ConfirmedWasAccepted` | apps/api/src/prisma-repositories.ts:11577-11758 | A confirmed dispatch carries the identifier of a call the provider accepted. |
| `SafetyTheorems.UncertainStaysUncertain` | apps/api/src/sender-service.ts:432-488 | Unless a manual recovery was granted while a sender held its claim or after a call that may have sent something, such a call leaves the dispatch processing, submitted or beyond, or failed by the provider itself: never pending, never safely failed. |
| `RecoveryLimits.FalseFailureExactlyWhen` | apps/api/src/prisma-whatsapp-dispatch-manual-recovery-repository.ts:817-915 | The condition is exact: from any reachable state an operator may rearm, a continuation records a safe failure over a call that may have sent something if and only if such a call was made before or a sender still held its claim. |
| `SafetyTheorems.RunStatusIsTrue` | apps/api/src/prisma-repositories.ts:4851-4983 | A run stored as failed with nothing to investigate has a failed dispatch; unless a manual recovery was granted while a sender held its claim, a run stored as sent has a confirmed one. |
| `RecoveryLimits.LostConfirmationExactlyWhen` | apps/api/src/prisma-whatsapp-dispatch-manual-recovery-repository.ts:817-915 | The condition is exact: after a recovery a run can be stored as sent without a confirmed dispatch if and only if a sender still held its claim. |
| `SafetyTheorems.AmbiguousForGood` | apps/api/src/prisma-repositories.ts:5451-5489 | An ambiguous outbox keeps its record to the end of every run. |
| `SafetyTheorems.RecoveryCanSendTwice` | apps/api/src/prisma-whatsapp-dispatch-manual-recovery-repository.ts:817-915 | The bound of two is reached: a stalled first sender and the recovered one are both accepted (concrete run). |
| `RecoveryLimits.SecondCallExactlyWhen` | apps/api/src/prisma-whatsapp-dispatch-manual-recovery-repository.ts:817-915 | From any reachable state an operator may rearm, a second call can follow if and only if one was made before or some sender was still about to make one. |
| `SafetyTheorems.RunsKeepInvariants` | apps/api/src/sender-service.ts:102-488 | Every reachable state keeps the ticket, outcome and run invariants. |
| `ProtocolSafety.StepKeepsTickets` | apps/api/src/prisma-repositories.ts:11493-11575 | Each claim issues one ticket, each call uses up its own, no ticket is held twice. |
| `ProtocolSafety.StepKeepsOutcomes` | apps/api/src/sender-service.ts:326-488 | Every step keeps what the stored dispatch says about the calls made. |
| `ProtocolSafety.NothingGoesBack` | apps/api/src/prisma-repositories.ts:11493-11800 | Only an operator returns a dispatch to pending; failed stays failed; unless a recovery was granted while a sender held its claim the status otherwise only advances and confirmed stays confirmed. |
| `ProtocolSafety.StepKeepsRunTrue` | apps/api/src/prisma-repositories.ts:4851-4983 | The two-step finalizer never decides against the dispatch, whatever happens between its read and its write. |
| `ClaimLaws.ClaimedExactlyWhen` | apps/api/src/prisma-repositories.ts:11504-11575 | A claim is issued if and only if the dispatch is pending and, for a group, its instance is the expected one and still assigned; a pending one whose routing fails is failed, any other left alone. |
| `ClaimLaws.EveryCallWasClaimed` | apps/api/src/sender-service.ts:326-430 | Over every run each call was made under a claim of its own ticket, granted while the dispatch was pending and its routing held. |
| `ClaimLaws.SenderStepsInOrder` | apps/api/src/sender-service.ts:102-430 | A sender reads once, claims only after it found the dispatch pending, and calls, aborts or is refused only with a claim. |
| `ClaimLaws.SubmittedExactlyWhen` | apps/api/src/prisma-repositories.ts:11577-11605 | An identifier is recorded if and only if the dispatch is still processing and carries none. |
| `ClaimLaws.RearmedExactlyWhen` | apps/api/src/prisma-whatsapp-dispatch-manual-recovery-repository.ts:145-290 | An operator puts back exactly an unconfirmed first attempt whose run was given up as ambiguous after publication, once. |
| `DeliveryReports.ReportsAccumulate` | apps/api/src/prisma-repositories.ts:11607-11758 | What any sequence of provider reports makes of a submitted dispatch: failed if the first is a failure, otherwise as far as the furthest report and sent at the first. |
| `DeliveryReports.OrderDoesNotMatter` | apps/api/src/prisma-repositories.ts:11607-11758 | Two sequences with the same first report and the same reports leave the same record. |
| `DeliveryReports.OthersAreNotReported` | apps/api/src/prisma-repositories.ts:11607-11800 | Reports of other identifiers, or of a dispatch not with the provider, change nothing; the end of the waiting time only makes a submitted dispatch ambiguous. |
| `FinalizationLaws.FinalizerSettles` | apps/api/src/prisma-repositories.ts:4851-4983 | A finalizer nobody disturbs settles the run: sent if and only if the dispatch is confirmed or the run was sent; else failed if and only if the dispatch or the run had failed for certain; else given up. |
| `FinalizationLaws.RunsAreShaped` | apps/api/src/prisma-repositories.ts:4851-4983 | Over every run the stored run is under way, sent, failed for certain or given up, and not under way once its outbox is ambiguous. |
| `FinalizationLaws.EveryRunCanBeSettled` | apps/api/src/prisma-repositories.ts:4851-4983 | In every reachable state a finalizer settles the run, as sent if the dispatch is confirmed. |
| `FinalizationLaws.WrittenExactlyWhen` | apps/api/src/prisma-repositories.ts:4880-4983 | When each decision of a finalizer goes through, by what the run is settled as. |
| `FinalizationLaws.SettlementOnlyImproves` | apps/api/src/prisma-repositories.ts:4851-5489 | Only a failing publisher or an investigation mark settles a run worse than it was. |
| `FinalizationLaws.RefusedFinalizerReadsAgain` | apps/api/src/prisma-repositories.ts:4851-4983 | A finalizer whose write did not go through reads once more, and only once. |
| `PublisherConvergence.PublishersConverge` | apps/api/src/commercial-dispatch-outbox-publisher.ts:104-223 | While the queue works and no publisher reads an outbox already being sent but not published, all finished publishers return the one published record, exactly the one matching job is queued and nothing is ambiguous. |
| `PublisherConvergence.OrderlyRunsAreSmooth` | apps/api/src/commercial-dispatch-outbox-publisher.ts:104-223 | That condition holds of every run in which claims and finalizer writes wait for publication. |
| `PublisherConvergence.GivesUpExactlyWhenUnclean` | apps/api/src/commercial-dispatch-outbox-publisher.ts:83-165 | The condition is exact: a publisher gives up after its reads if and only if its first read found the outbox pending and the run or dispatch already moved. |
| `PublisherConvergence.EarlyClaimMakesAmbiguous` | apps/api/src/commercial-dispatch-outbox-publisher.ts:146-151 | Concrete run: a claim between enqueue and publication makes a second publisher mark the outbox ambiguous although the queue never failed. |
| `PublisherConvergence.PublishersKeepConverging` | apps/api/src/commercial-dispatch-outbox-publisher.ts:83-223 | One publisher step keeps what all publishers rely on. |
| `PublicationLaws.PublishedHasItsJob` | apps/api/src/commercial-dispatch-outbox-publisher.ts:104-223 | Over every run in which the queue loses no job, whatever enqueues fail and reads find nothing: an outbox is published, marked or returned as published only with its own job in the queue. |
| `PublicationLaws.LostJobIsStillPublished` | apps/api/src/commercial-dispatch-outbox-publisher.ts:179-196 | The condition is needed: a job lost between enqueue and mark leaves a published outbox without one (concrete run). |
| `PublicationLaws.GoesOnExactlyWhen` | apps/api/src/commercial-dispatch-outbox-publisher.ts:83-165 | A publisher goes on to publish if and only if it found outbox, run and dispatch untouched, field by field, and the queue readable with no job or its own. |
| `PublicationLaws.NobodyPublishesAfterACall` | apps/api/src/commercial-dispatch-outbox-publisher.ts:83-165 | In every run nobody starts to publish once the provider was called. |
| `PublicationLaws.EnqueuedExactlyWhen` | apps/api/src/commercial-dispatch-outbox-publisher.ts:153-162 | What an enqueue adds under each failure, and when the publisher goes on to mark. |
| `PublicationLaws.AfterFailedEnqueue` | apps/api/src/commercial-dispatch-outbox-publisher.ts:160-178 | After a failed enqueue the publisher goes on to mark if and only if its own job can be read back, and fails as uncertain if and only if none can. |
| `PublicationLaws.MarkedExactlyWhen` | apps/api/src/prisma-repositories.ts:5397-5449 | Publication is recorded if and only if the outbox is pending and its own run has no other job; a published one is returned as it is. |
| `PublicationLaws.RecheckBelievesExactly` | apps/api/src/commercial-dispatch-outbox-publisher.ts:196-223 | After a refused mark the current record is returned if and only if it is published under the same run, dispatch and job. |
| `PublicationLaws.FailingGivesUp` | apps/api/src/prisma-repositories.ts:5451-5489 | A publisher that fails makes the outbox ambiguous with its code and gives up the run for investigation. |
| `DispatchPrograms.Publish` | apps/api/src/commercial-dispatch-outbox-publisher.ts:83-223 | The publisher as written, with anything happening between its reads and writes, is a publisher process of the machine and returns its outcome. |
| `DispatchPrograms.PublishWithJob` | apps/api/src/commercial-dispatch-outbox-publisher.ts:104-170 | Same, from the job read on: every branch ends as the decision table says. |
| `DispatchPrograms.EnqueueJob` | apps/api/src/commercial-dispatch-outbox-publisher.ts:153-178 | After a failed enqueue only a matching job read back counts as queued. |
| `DispatchPrograms.RecordPublication` | apps/api/src/commercial-dispatch-outbox-publisher.ts:179-223 | A lost publication race returns the published record only if run and job agree. |
| `DispatchPrograms.SendDispatch` | apps/api/src/sender-service.ts:102-488 | The sender as written, for every answer it gets and anything happening meanwhile, calls the provider at most once; only if the message was prepared, every check passed and, for a group, its own instance is still assigned; and gives each result only for its own reason. |
| `DispatchPrograms.ClaimAndSend` | apps/api/src/sender-service.ts:326-365 | Already claimed if and only if the dispatch was no longer pending, mismatched if and only if its routing failed. |
| `DispatchPrograms.CheckBeforeCall` | apps/api/src/sender-service.ts:366-410 | The call may be made if and only if the instance, its activity and the fence all passed; otherwise what is stored and reported follows the check that failed. |
| `DispatchPrograms.SendClaimed` | apps/api/src/sender-service.ts:366-488 | From the claim on: the call is made if and only if every check passed, and refusals, aborts and failures are reported by what was answered. |
| `DispatchPrograms.PersistSubmission` | apps/api/src/sender-service.ts:413-431 | Submitted is reported only if the stored dispatch carries the accepted identifier. |
| `DispatchPrograms.PersistSafeFailure` | apps/api/src/sender-service.ts:432-476 | Blocked before the request is reported only if the dispatch was stored as safely failed. |
| `ExecutionRecovery.SafeRecoveryAgrees` | apps/api/src/commercial-recovery-coordinator.ts:166-238 | What the coordinator deems safe is released, stopped by an identity mismatch, or decided queued (only if recorded sent) or failed (only if the dispatch failed): never ambiguous. |
| `ExecutionRecovery.SafeExactlyWhen` | apps/api/src/commercial-recovery-coordinator.ts:166-238 | What the coordinator deems safe, field by field: nothing recorded, a dry run without a trace, or a confirmed send stored without identifier and instant. |
| `ExecutionRecovery.CertainExactlyWhen` | apps/api/src/commercial-recovery-coordinator.ts:166-188 | Exactly which fields must be quiet for an execution to show nothing external, and when it is left to its outbox. |
| `ExecutionRecovery.DecidedExactlyWhen` | apps/api/src/commercial-automation-execution-recovery-service.ts:231-299 | Exactly when a send is decided queued, failed or abandoned, or left to its outbox, by the fields of its records and the job found. |
| `ExecutionRecovery.ValidatedOnlyIfIdentified` | apps/api/src/commercial-automation-execution-recovery-service.ts:301-380 | A send is validated only if its records name no instance, or name one and the queue agrees; with a job only if that is its own and the instance active. |
| `ExecutionRecovery.AgreedExactlyWhen` | apps/api/src/commercial-instance-stickiness.ts:70-147 | The sticky check agrees on a name if and only if run, dispatch, outbox, job and assignment name it. |
| `ExecutionRecovery.StaleExactlyWhen` | apps/api/src/commercial-automation-execution-domain.ts:12-21 | An execution is left alone exactly while an owner holds a lease that has not run out; stale stays stale. |
| `ExecutionRecovery.AbandonedExactlyWhenNothingHappened` | apps/api/src/commercial-automation-execution-recovery-service.ts:122-246 | An execution is abandoned as safe if and only if no run was recorded and nothing external reached, or its run is a dry run without a trace of a send. |
| `RecoveryTruth.DecisionsAreTrue` | apps/api/src/commercial-automation-execution-recovery-service.ts:231-299 | In every state the send protocol reaches, unless a manual recovery was granted while a sender held its claim or after a call that may have sent something, queued means confirmed, or published, never called and found with its job; failed means nothing sent or failed by the provider. |
| `RecoveryTruth.PersistedSafeFailureSentNothing` | apps/api/src/commercial-automation-execution-recovery-service.ts:32-68 | A persisted safe failure shown by a reachable state sent nothing and nobody still can. |
| `RecoveryTruth.PublishesOnlyTheUnsent` | apps/api/src/commercial-recovery-coordinator.ts:642-764 | In every reachable state an outbox the pass may publish was never called for, and nobody holds a claim. |
| `RecoveryTruth.ReplaysOnlyTheSent` | apps/api/src/commercial-recovery-coordinator.ts:290-304 | A send whose finalizer the pass replays was accepted, and finalizing records it as sent. |
| `RecoveryTruth.RemovesOnlyTheUnsent` | apps/api/src/commercial-recovery-coordinator.ts:545-640 | A job the pass removes belongs to a send that started nothing and cannot any more. |
| `RecoveryTruth.NoSendIsDeemedSafe` | apps/api/src/commercial-recovery-coordinator.ts:190-238 | In no reachable state does the pass deem an execution with a dispatch safe to recover. |
| `RecoveryCoordinator.Coordinator.RunOnce` | apps/api/src/commercial-recovery-coordinator.ts:365-465 | Every outbox and every execution stale when looked at is scanned; scanned plus accepted ambiguities equals the five categories; every outside act is within its fence, spelled out in the fields read; nothing is published while paused; no dispatch is finalized twice. |
| `RecoveryCoordinator.Coordinator.RecoverStaleExecution` | apps/api/src/commercial-recovery-coordinator.ts:467-523 | A stale execution is recovered if and only if it was read and is safe, field by field, and is reported as the recovery answered; every other category, case by case. |
| `RecoveryCoordinator.Coordinator.ReconcileOutbox` | apps/api/src/commercial-recovery-coordinator.ts:420-455 | The categories an outbox can end in, case by case. |
| `RecoveryCoordinator.Coordinator.RecoverPendingOutbox` | apps/api/src/commercial-recovery-coordinator.ts:642-710 | Publishes if and only if outbox, run, dispatch and linked execution are untouched, field by field, the automation runs, and the queue shows no job or its own. |
| `RecoveryCoordinator.Coordinator.HasSafeExternalStage` | apps/api/src/commercial-recovery-coordinator.ts:712-764 | True if and only if no execution is linked, or the one linked was read and shows the same records untouched and nothing external. |
| `RecoveryCoordinator.Coordinator.InspectOutbox` | apps/api/src/commercial-recovery-coordinator.ts:390-465 | An accepted ambiguity is left alone, an unreadable decision left to a human; neither is acted on. |
| `RecoveryCoordinator.Coordinator.RemoveSafeJob` | apps/api/src/commercial-recovery-coordinator.ts:584-627 | A job is removed if and only if it was read, is the outbox's own, is in a state that allows it and removal is available; the category follows what was answered. |
| `RecoveryCoordinator.Coordinator.ReconcileSafePreExternalFailure` | apps/api/src/commercial-recovery-coordinator.ts:525-640 | The job of a failure before the request is looked at if and only if the execution shows the same failure, as read or after recording it. |
| `RecoveryCoordinator.Coordinator.PublishPending` | apps/api/src/commercial-recovery-coordinator.ts:690-708 | Recovered if and only if publishing answered published; created and reused jobs are counted as answered. |
| `RecoveryCoordinator.CategoriesAreCounted` | apps/api/src/commercial-recovery-coordinator.ts:840-844 | Each category adds one to its own counter, an accepted ambiguity to two, and only an ambiguity left to a human to those preserved. |
| `RecoveryCoordinator.Coordinator.ReplayFinalizer` | apps/api/src/commercial-recovery-coordinator.ts:807-838 | A dispatch is finalized if and only if it was not in this pass, and counted as recovered if and only if that went through. |
| `RecoveryCoordinator.Coordinator.ClassifyPublishedOutbox` | apps/api/src/commercial-recovery-coordinator.ts:766-805 | A published outbox needs no action if and only if the queue shows its own job. |
| `RecoveryCoordinator.ReadAllPages` | apps/api/src/commercial-recovery-coordinator.ts:140-164 | Reading page by page returns the whole list for every page size. |
| `RecoveryCoordinator.PendingChecksAgree` | apps/api/src/commercial-recovery-coordinator.ts:240-264 | The coordinator's pending checks hold if and only if the publisher's identity, run and dispatch checks do and the evidence was read. |
| `RecoveryCoordinator.ChecksExactlyWhen` | apps/api/src/commercial-recovery-coordinator.ts:240-345 | The pass's five questions about a publication (untouched, only to be finalized, sent history, failed before the request, uncertain) in the fields they read. |
| `RecoveryCoordinator.CheckedOutboxIsPublishable` | apps/api/src/commercial-dispatch-outbox-publisher.ts:104-165 | On records that passed, a publisher goes on to enqueue or mark, or fails only on a job that does not match. |
| `AutomationTick.Tick.ExecuteTick` | apps/api/src/commercial-automation-orchestrator.ts:308-1500 | The reservation is released at most once and never after confirmation was attempted; every claim meets exactly one fate unless ownership was lost; nothing is confirmed or handed off unless every gate before it was asked and passed: opening, slot, target, reservation, readiness, lease, candidate and renewal, or the policy of the claim; a refused gate ends blocked or failed; an attempted confirmation ends blocked if and only if an error answered after it carried the renewal-conflict code, else queued, ambiguous, or failed when that is certain. |
| `AutomationTick.Tick.Attempt` | apps/api/src/commercial-automation-orchestrator.ts:470-1430 | The part under the error handler: it finishes queued after a confirmation and blocked or previewed otherwise, and the one error after an attempted confirmation is the one answered by the confirmation or the store. |
| `AutomationTick.Tick.Finish` | apps/api/src/commercial-automation-orchestrator.ts:424-447 | Ending the tick leaves no claim without a fate: released if the store says so, else left. |
| `AutomationTick.Tick.ReleaseReservationBeforeConfirmation` | apps/api/src/commercial-automation-orchestrator.ts:396-423 | Releases at most once and never late. |
| `AutomationTick.Tick.ConfirmPreparedClaims` | apps/api/src/commercial-automation-orchestrator.ts:1258-1388 | Hands off until published, or stops blocked with every claim settled. |
| `AutomationTick.Tick.ConfirmPrepared` | apps/api/src/commercial-automation-orchestrator.ts:1299-1366 | The claim is handed off, rejected and still held, or left as unknown, exactly as the confirmation answered. |
| `AutomationTick.Tick.HandOff` | apps/api/src/commercial-automation-orchestrator.ts:1262-1366 | A claim is offered to the confirmation if and only if its policy held and the confirmation can take it; otherwise it is rejected for that reason. |
| `AutomationTick.Tick.HandOffOnce` | apps/api/src/commercial-automation-orchestrator.ts:1258-1388 | Published, stopped or replaced, exactly by policy, confirmation, settlement and replacement. |
| `AutomationTick.Tick.TakeReplacement` | apps/api/src/commercial-automation-orchestrator.ts:1201-1257 | Another claim is taken if and only if fewer than four policies moved and the store gave one. |
| `AutomationTick.Tick.TryTarget` | apps/api/src/commercial-automation-orchestrator.ts:691-788 | A target is chosen if and only if it may be sent to, a candidate is stored or found again, and its campaign was reserved; a preview only asks the first. |
| `AutomationTick.Tick.SelectLocally` | apps/api/src/commercial-automation-orchestrator.ts:755-788 | The first target chosen is taken, and the targets before it that had no candidate wait for their offers. |
| `AutomationTick.Tick.SelectReserved` | apps/api/src/commercial-automation-orchestrator.ts:630-862 | Goes on only with an open slot and a matching constraint, and stops only if every target is passed over, at once or after its offers. |
| `AutomationTick.Tick.SelectPrepared` | apps/api/src/commercial-automation-orchestrator.ts:540-625 | A prepared message is claimed only for a due slot and the first target that may be sent to. |
| `AutomationTick.Tick.PrepareOrReplace` | apps/api/src/commercial-automation-orchestrator.ts:985-1110 | The selected candidate, or a replacement found in what is stored or in a page of offers; none only if all are used up. |
| `AutomationTick.Tick.ReleaseClaim` | apps/api/src/commercial-automation-orchestrator.ts:424-447 | The claim still held is released if and only if the store says so, and left otherwise. |
| `AutomationTick.Tick.HandleError` | apps/api/src/commercial-automation-orchestrator.ts:1426-1500 | Lost ownership is passed on untouched; a renewal conflict is recorded blocked; anything else by what may have been confirmed. |
| `AutomationTick.Tick.FinalizePreparedPrecommit` | apps/api/src/commercial-automation-orchestrator.ts:1161-1257 | A rejected claim is settled before another is taken, and another is taken only if its policy moved. |
| `AutomationTick.Tick.SettleRejectedClaim` | apps/api/src/commercial-automation-orchestrator.ts:1161-1200 | Release or invalidation, or unknown when the store did not confirm it. |
| `AutomationTick.Tick.StatusOfError` | apps/api/src/commercial-automation-orchestrator.ts:1440-1477 | Blocked for a claim left unsettled, ambiguous for a possible commit or an unresolved confirmation, failed otherwise. |
| `AutomationTick.Tick.SyncTarget` | apps/api/src/commercial-automation-orchestrator.ts:789-850 | Pages are read while each leads on, at most three; the target is reserved if and only if the last page found a candidate and its campaign could be. |
| `AutomationTick.Tick.FulfilBySync` | apps/api/src/commercial-automation-orchestrator.ts:1003-1095 | Continues from the pages already used, never beyond three; each page before the last brought nothing; stops empty only when none is left. |
| `AutomationTick.Tick.ConfirmReserved` | apps/api/src/commercial-automation-orchestrator.ts:1388-1423 | The run is confirmed if and only if the candidate was revalidated and the reservation renewed. |
| `DayPlan.PlanCommercialTargetSlots` | apps/api/src/commercial-automation-scheduler-planner.ts:291-472 | The plan is the outcome of a greedy, turn-taking round robin over the plannable targets; the final slice drops nothing; it fails only if some window never opens. |
| `PlanLaws.PlanIsSound` | apps/api/src/commercial-automation-scheduler-planner.ts:291-472 | Every slot, in the fields of the input: a grid point of an active target with room, in the hours of schedule and target, not before now, last send plus interval or eligibility, not after day or horizon, for the listed instance whose turn it is and that may send, with its key, campaign, group and delay. |
| `PlanLaws.InputIsTakenAsSaid` | apps/api/src/commercial-automation-scheduler-planner.ts:291-372 | Plannable, hours, interval and bounds as the planner computes them are what the fields of the input say. |
| `PlanLaws.QuotasAreTakenAsSaid` | apps/api/src/commercial-automation-scheduler-planner.ts:310-345 | n more messages fit in the computed quotas if and only if sent plus n stays within each limit. |
| `PlanLaws.GridStartsAtFirstOpening` | apps/api/src/commercial-automation-scheduler-planner.ts:137-211 | The grid starts at the first minute of the day in the hours of both, or with the day. |
| `PlanLaws.PlanIsSorted` | apps/api/src/commercial-automation-scheduler-planner.ts:434-443 | Slots come in the order of their instants, ties in the order of their targets. |
| `PlanLaws.PlanKeepsIntervals` | apps/api/src/commercial-automation-scheduler-planner.ts:372-432 | Two slots of one target differ by a positive multiple of its interval: cadence or minimum, whichever is more. |
| `PlanLaws.PlanIsSpread` | apps/api/src/commercial-automation-scheduler-planner.ts:378-432 | With a stagger any two slots are at least that far apart. |
| `QuotaLaws.PlanFitsQuotas` | apps/api/src/commercial-automation-scheduler-planner.ts:306-340 | With what was sent today, a target whose key no other plannable target has stays within its own limit, the group limit and the limit of a plan. |
| `QuotaLaws.PlanFitsGlobalLimit` | apps/api/src/commercial-automation-scheduler-planner.ts:310-313 | With what was sent today a plan stays within the global daily limit, if it plans anything. |
| `QuotaLaws.PlanFitsGroup` | apps/api/src/commercial-automation-scheduler-planner.ts:306-340 | The slots of a group fit what is left of its daily limit when no two plannable targets share it, or when their quotas fit in all. |
| `QuotaLaws.GroupFitsExactlyWhen` | apps/api/src/commercial-automation-scheduler-planner.ts:306-340 | The condition is exact: a plan that fills every quota keeps the group limit if and only if the quotas of its targets fit in it. |
| `QuotaLaws.SharedGroupIsExceeded` | apps/api/src/commercial-automation-scheduler-planner.ts:330-340 | Two plannable targets of one group with one message left: every plan gives the group two. |
| `PlanLaws.PlanIsComplete` | apps/api/src/commercial-automation-scheduler-planner.ts:378-432 | Short of the global limit, every target is full, or no point in hours and in time is left after its last slot and the stagger. |
| `PlanLaws.UnstaggeredPlanTakesFirstSlots` | apps/api/src/commercial-automation-scheduler-planner.ts:378-432 | Without a stagger a target is given every point of its grid that may be posted at, from its base to its last, as many as its quota or as there are. |
| `PlanLaws.ConsideredIsPlanned` | apps/api/src/commercial-automation-scheduler-planner.ts:416-470 | Each of them whose instance may send is a slot of the plan. |
| `PlanLaws.PlacementsAreEarliest` | apps/api/src/commercial-automation-scheduler-planner.ts:383-432 | Each slot considered is the first usable point its target had, given the slots before it and the stagger. |
| `PlanLaws.TargetsTakeTurns` | apps/api/src/commercial-automation-scheduler-planner.ts:380-432 | A target with quota left is at most one slot behind any other, and not behind a later one. |
| `PlanLaws.SameInstantSameJob` | apps/api/src/commercial-automation-scheduler-planner.ts:120-235 | Two plans of one local day that place a target at the same instant choose the same instance and job. |
| `PlanLaws.ReplanKeepsFirstSlot` | apps/api/src/commercial-automation-scheduler-planner.ts:350-472 | Without a stagger and with global quota to spare, planning again up to a target's first slot yields that slot, with the same instance and job, if the instance may send. |
| `SlotPlanner.RoundRobin` | apps/api/src/commercial-automation-scheduler-planner.ts:378-432 | Terminates with every placement the first usable point at its turn, and everything established about the variables. |
| `SlotPlanner.Pass` | apps/api/src/commercial-automation-scheduler-planner.ts:380-432 | One pass keeps the books, in turn order, and lowers the quotas left if it places anything. |
| `SlotPlanner.ConsiderTarget` | apps/api/src/commercial-automation-scheduler-planner.ts:383-432 | One turn places the target at its next grid slot or closes it. |
| `SlotPlanner.PlaceKeepsConsistent` | apps/api/src/commercial-automation-scheduler-planner.ts:402-432 | A placement keeps quotas, bases, cursor, spread, emitted and refused slots consistent. |
| `SlotSearch.NextGridSlotExact` | apps/api/src/commercial-automation-scheduler-planner.ts:237-289 | The least usable grid point at or after the candidate, and nothing only if there is none, while the span is shorter than the attempt cap in minutes. |
| `SlotSearch.FindNextGridSlot` | apps/api/src/commercial-automation-scheduler-planner.ts:237-289 | The bounded loop returns that point. |
| `SlotSearch.NextValidSlotExact` | apps/api/src/commercial-automation-scheduler-planner.ts:137-191 | The least minute at or after the candidate inside both windows, with the same exactness; it fails only if a window stays closed for 72 hours. |
| `SlotSearch.FindNextValidSlot` | apps/api/src/commercial-automation-scheduler-planner.ts:137-191 | The jumping loop returns that minute. |
| `SlotSearch.IndicesInvertPoint` | apps/api/src/commercial-automation-scheduler-planner.ts:213-235 | Rotation index and grid index both invert the grid. |
| `DayPlan.BuildStates` | apps/api/src/commercial-automation-scheduler-planner.ts:314-370 | The states are those of the plannable targets in order, the others are reported skipped. |
| `SchedulePolicy.EvaluateAutomationReadiness` | apps/api/src/commercial-automation-policy-service.ts:434-726 | In the fields of the input: allowed if and only if nothing needs more than time and it is time; a next instant if and only if only time is needed; with limits that can be met and unchanged history it is the first instant at which it is time. |
| `SchedulePolicy.NextAllowedAt` | apps/api/src/commercial-automation-policy-service.ts:694-726 | The least instant from now inside the window, after the daily reset if limited, and after the interval. |
| `SchedulePolicy.BuildStatus` | apps/api/src/commercial-automation-policy-service.ts:605-765 | Every reason that applies is reported, in order, and no other. |
| `SchedulePolicy.ReasonsMeanWhatTheySay` | apps/api/src/commercial-automation-policy-service.ts:605-692 | Each of the twelve reasons applies if and only if the fields it names say so. |
| `SchedulePolicy.AllowedExactlyWhen` | apps/api/src/commercial-automation-policy-service.ts:605-692 | No reason applies if and only if nothing needs more than time and it is time, in fields. |
| `SchedulePolicy.RemainingIsWhatLimitsAllow` | apps/api/src/commercial-automation-policy-service.ts:727-765 | What is reported as left is exactly how many more messages the limits allow. |
| `SchedulePolicy.AllowedWhenWaitsAreMet` | apps/api/src/commercial-automation-policy-service.ts:642-726 | Under a soft block an instant is allowed if and only if it meets the waits and the quotas are valid. |
| `LocalClock.NextOpeningExact` | apps/api/src/commercial-automation-policy-service.ts:321-338 | The first instant, to the millisecond, inside the window. |
| `LocalClock.OpenHours` | apps/api/src/commercial-automation-policy-service.ts:306-319 | Inside a window: from start up to end; over midnight all but from end up to start; all day if equal. |
| `LocalClock.NextWindowOpeningAtOrAfter` | apps/api/src/commercial-automation-policy-service.ts:321-338 | The minute loop returns it, or fails after 72 hours. |
| `LocalClock.GetLocalDayRange` | apps/api/src/commercial-automation-policy-service.ts:340-368 | Exactly the first instant of the local day and the first after it, for any contiguous day. |
| `LocalClock.FindBoundary` | apps/api/src/commercial-automation-policy-service.ts:347-363 | Stepping and bisecting terminates at that boundary. |
| `CopyAttempts.OneCallPerFingerprint` | apps/api/src/commercial-promotion-copy-generation-service.ts:877-1071 | Over any interleaving of generations and crashes the provider is called at most once per fingerprint, only by the claim winner. |
| `CopyAttempts.EndedForGood` | apps/api/src/prisma-repositories.ts:4510-4700 | An attempt that ended is never reopened or changed. |
| `CopyAttempts.FailedSnapshotIsNeverPaidAgain` | apps/api/src/prisma-repositories.ts:3964-4025 | Once an attempt at a snapshot failed or became ambiguous, that snapshot is never paid for again, under any fingerprint. |
| `CopyAttempts.NoCallAfterFailure` | apps/api/src/commercial-promotion-copy-generation-service.ts:1003-1025 | A call needs the one running attempt of its snapshot. |
| `CopyAttempts.StepKeepsInv` | apps/api/src/commercial-promotion-copy-generation-service.ts:643-1071 | Every step keeps winners, calls and attempts consistent. |
| `CopyOutcomes.FailedCallIsRecorded` | apps/api/src/commercial-promotion-copy-generation-service.ts:1025-1150 | A failed call is recorded ambiguous if and only if the provider may have produced something unseen, else failed, with the code of its kind. |
| `CopyOutcomes.FallbackIsRecorded` | apps/api/src/commercial-promotion-copy-generation-service.ts:760-875 | A deterministic copy ends the attempt as succeeded exactly if it could be stored, the context holds and no other copy is stored. |
| `CopyOutcomes.ProducedCopyIsRecorded` | apps/api/src/commercial-promotion-copy-generation-service.ts:1152-1200 | What storing the produced copy records: succeeded, failed for a changed context or another copy, or nothing if rolled back. |
| `CopyOutcomes.UnprovedCopyIsAmbiguous` | apps/api/src/commercial-promotion-copy-generation-service.ts:1200-1220 | When reading back proves nothing, an attempt still running ends ambiguous and an ended one is left. |
| `CopyOutcomes.ClaimWonExactlyWhen` | apps/api/src/prisma-repositories.ts:3964-4025 | Who tries to claim, and that the claim is won if and only if the context holds, the snapshot has no attempt that runs or failed, and the fingerprint has none. |
| `CopyGeneration.Generate` | apps/api/src/commercial-promotion-copy-generation-service.ts:877-1200 | One call of generate pays at most once, not at all without the claim, and returns a new copy only once it is recorded. |
| `CopyGeneration.FallBack` | apps/api/src/commercial-promotion-copy-generation-service.ts:760-875 | The deterministic copy is returned only once recorded, and pays nothing. |
| `CopyGeneration.Persist` | apps/api/src/commercial-promotion-copy-generation-service.ts:1152-1220 | After an error only what can be read back is believed. |
| `InventorySupervisor.Supervisor.Run` | apps/api/src/commercial-inventory-supervisor.ts:404-611 | One heartbeat: at most 6 pages, 16 preparations and 32 instances; reported messages plus those not counted again are the rows the store answered; if none was asked for a known candidate they were all newly stored, each once; within its budgets it processes exactly the instances that had too few. |
| `InventorySupervisor.NewExactlyWhenUnknown` | apps/api/src/prisma-repositories.ts:7360-7400 | Whatever the store holds for an instance among the known candidates, it answers no row that was there before if and only if the candidate prepared is not known. |
| `InventorySupervisor.KnownCandidateIsReportedAgain` | apps/api/src/commercial-inventory-supervisor.ts:208-256 | A known candidate prepared in place of the one offered: nothing is stored and one message is reported. |
| `InventorySupervisor.Supervisor.PrepareAvailable` | apps/api/src/commercial-inventory-supervisor.ts:181-270 | At most eight preparations in one fill, stopping before only if there is enough, the budget is used up, or it ran dry. |
| `InventorySupervisor.Supervisor.PrepareUnknown` | apps/api/src/commercial-inventory-supervisor.ts:194-264 | Each try had room left and excluded the candidates of all tries before it. |
| `InventorySupervisor.RowAnsweredExactlyWhen` | apps/api/src/prisma-repositories.ts:7226-7464 | A row is new exactly if there was none, existing exactly if it was there for this instance; otherwise nothing changes. |
| `InventorySupervisor.Supervisor.Refill` | apps/api/src/commercial-inventory-supervisor.ts:508-590 | An instance is filled twice if and only if the first fill left it short while candidates were short; at most sixteen preparations. |
| `InventorySupervisor.Supervisor.AskForRow` | apps/api/src/commercial-inventory-supervisor.ts:221-264 | A row answered is reported whether it is new or not; one that could not be counted again becomes a failure. |
| `InventorySupervisor.Supervisor.Discover` | apps/api/src/commercial-inventory-supervisor.ts:307-402 | Pages are read while each leads on: at most three, as set, and as the heartbeat has left; none if the position is taken. |
| `RunFinalizer.Finalizer.Finalize` | apps/api/src/commercial-pipeline-run-finalizer.ts:10-172 | For every answer, what is done to candidate and campaign is exactly what the answers call for. |
| `RunFinalizer.ReleasedExactlyWhenEveryLinkAgrees` | apps/api/src/commercial-pipeline-run-finalizer.ts:66-145 | The reservation is released if and only if the run was sent, its execution names the run and owns the reservation, and mark and reset both answered the copy's candidate and campaign; and then it is the owner's own. |
| `RunFinalizer.ActsFitTheOutcome` | apps/api/src/commercial-pipeline-run-finalizer.ts:36-150 | A candidate is blocked exactly after a failure, marked only after a send, neither after an uncertain outcome; resets and releases are the owner's or of a run without execution. |
| `RunFinalizer.Finalizer.FinalizeOwned` | apps/api/src/commercial-pipeline-run-finalizer.ts:66-145 | The same, for a run with an execution: each act only if the answer before it agreed. |
| `OfferDecimal.SameFormExactlyWhenSameValue` | apps/api/src/commercial-offer-snapshot.ts:18-31 | Two accepted strings have one canonical form if and only if they denote one number. |
| `OfferDecimal.CanonicalizeIsIdempotent` | apps/api/src/commercial-offer-snapshot.ts:18-31 | Canonicalising is idempotent and preserves the value. |
| `OfferDecimal.IntegersAreUnique` | apps/api/src/commercial-offer-snapshot.ts:27-27 | Digits without leading zeros are determined by their value. |
| `OfferDecimal.FractionsAreUnique` | apps/api/src/commercial-offer-snapshot.ts:28-28 | Digits without trailing zeros are determined by theirs. |
| `CopyAssembler.RoundTrip` | apps/api/src/commercial-promotion-copy-assembler.ts:273-343 | A clean body and headline assembled with a lower-case http link are safe and decode to themselves. |
| `CopyAssembler.ComposedReadsBack` | apps/api/src/commercial-promotion-copy-assembler.ts:171-198 | An assembled copy decodes if and only if headline, cleaned body and link are readable, to that headline and the trimmed body. |
| `CopyAssembler.ComposedIsSafe` | apps/api/src/commercial-promotion-copy-assembler.ts:236-271 | An assembled copy is accepted if and only if cleaning its body made no URL. |
| `CopyCleaning.CleaningCanMakeUrl` | apps/api/src/commercial-promotion-copy-assembler.ts:104-113 | A body whose cleaning joins a domain is assembled and not safe (concrete input). |
| `CopyAssembler.BlockIsFound` | apps/api/src/commercial-promotion-copy-assembler.ts:153-195 | The trusted block is found exactly where it was added, whatever the body holds. |
| `CopyAssembler.FooterReadsBack` | apps/api/src/commercial-promotion-copy-assembler.ts:148-210 | The invite footer is recognised and printable. |
| `PromotionMining.Evaluate` | apps/api/src/commercial-promotion-mining-service.ts:258-595 | At most 2000 products; every promotion match counted once as recently sent, dedupe-active, protected or ranked; what exceeds the queue capacity is not selected. |
| `PromotionMining.EvaluateCatalog` | apps/api/src/commercial-promotion-mining-service.ts:336-490 | Evaluates the whole catalogue, or stops at the limit and says so; fails only on two products with one identity. |
| `PromotionMining.EveryMatchIsPlacedOnce` | apps/api/src/commercial-promotion-mining-service.ts:492-538 | The four placements partition the matches. |
| `PromotionMining.PlaceMatches` | apps/api/src/commercial-promotion-mining-service.ts:492-538 | The loop counts each placement. |
| `PromotionRanking.CompareIsLexicographic` | apps/api/src/commercial-promotion-ranking.ts:20-44 | The comparator is a lexicographic order of signal, drop, score, rates, sales and id. |
| `PromotionRanking.RankIsSorted` | apps/api/src/commercial-promotion-ranking.ts:7-46 | The ranking is sorted and its capacity prefix comes before everything left out. |
| `PromotionRanking.RankIgnoresInputOrder` | apps/api/src/commercial-promotion-ranking.ts:7-46 | With distinct products the ranking does not depend on the input order. |
| `PromotionRanking.OrderIsTotal` | apps/api/src/commercial-promotion-ranking.ts:20-44 | The comparator is total and transitive. |
| `CopyPolicy.SelectMatches` | apps/api/src/commercial-ai-copy-policy.ts:133-157 | The selected matches are disjoint and ordered, and every match is selected or overlaps one that precedes it. |
| `CopyPolicy.RemoveDanglingConnectors` | apps/api/src/commercial-ai-copy-policy.ts:215-249 | Terminates with no dangling connector, keeps earlier removals and removes nothing but connectors. |
| `CopyPolicy.FindDangling` | apps/api/src/commercial-ai-copy-policy.ts:220-247 | The last dangling connector, or proof that there is none. |

## Left out

- HTTP routing, request parsing, command lines, dashboards, listing and status services: plumbing.
- Prisma, BullMQ, Redis, the OpenAI client and the Evolution provider are not part of this model beyond the atomic operations described above; a call may fail before or after taking effect.
- The candidate flow (target order, preflight, preparation): its answers are arbitrary in the tick and in the supervisor.
- Prepared messages in the supervisor: during a heartbeat others may take rows away, and nobody else adds any.
- The rows of reservations and candidates: the tick and the finalizer keep track of what they ask for and are answered, not of what the store then holds.
- The confirmation transaction that creates outbox, run and dispatch: it is the initial state of the protocol; the prepared handoff appears by its outcomes in the tick.
- Heartbeat timers: a checkpoint is a call that may report lost ownership.
- SHA-256 and the separator-joined target key: keys are records, so two different targets never share one.
- Real timezone data, number formats, the URL parser and the Unicode patterns of the cleaner: functions about which only their output shape is assumed.
- Lone surrogates: strings are code points, with lengths counted in UTF-16 units.
- Number canonicalisation (`toPrecision`), `log10` and floating-point scores: scores and rates are exact numbers.
- Lexical analysis of the copy policy (phrase matching, tokens, cleanup): matches and tokens are given; a sanitised name may still contain a prohibited phrase, so that is not claimed.
- Candidate rows in copy generation: blocking a candidate after a failure does not change attempts and is not modelled.
- The report counters of signals and rejection codes other than those counted in `PromotionMining.Report`.
- Empty strings where the program treats them as missing (job ids, instance names): identifiers are taken to be non-empty.
- DispatchPrograms.SendDispatch: building the message and the relation, policy and routing checks before the claim are one arbitrary refusal.
