/** The stored records behind one confirmed send, and the atomic operations on them
    (apps/api/src/prisma-repositories.ts). */
module DispatchStore {
  import opened Wrappers

  datatype OutboxStatus = OutboxPending | OutboxPublished | OutboxAmbiguous

  datatype Outbox = Outbox(
    id: string,
    commercialRunId: string,
    dispatchId: string,
    jobId: string,
    instanceName: Option<string>,
    status: OutboxStatus,
    failureCode: Option<string>,
    publishedAt: Option<int>)

  datatype RunStatus = RunStarted | RunCompleted | RunFailed

  datatype FinalStatus = FinalPending | FinalSent | FinalFailed | FinalAmbiguous

  datatype PipelineRun = PipelineRun(
    id: string,
    confirmed: bool,
    instanceName: Option<string>,
    dispatchId: Option<string>,
    jobId: Option<string>,
    status: RunStatus,
    finalStatus: FinalStatus,
    investigationRequired: bool,
    failureCode: Option<string>)

  datatype DispatchStatus =
    | Pending | Processing | Submitted | Sent | Delivered | Read | Failed | Ambiguous

  datatype Dispatch = Dispatch(
    id: string,
    instanceName: Option<string>,
    status: DispatchStatus,
    attemptCount: nat,
    externalMessageId: Option<string>,
    sentAt: Option<int>,
    errorMessage: Option<ErrorMessage>)

  datatype ErrorMessage =
    | SafePreExternalFailure
    | InstanceMismatch
    | InstanceInactive
    | FailedBeforeServerAck
    | ConfirmationExpired

  datatype Job = Job(id: string, dispatchId: string, instanceName: Option<string>)

  /** One outbox with its run and dispatch, the job queue by job id, and whether the one
      manual recovery of the dispatch has been used. */
  datatype Store = Store(
    outbox: Outbox,
    run: PipelineRun,
    dispatch: Dispatch,
    queue: map<string, Job>,
    rearmed: bool)

  /** What the publisher reads in one query. */
  datatype Context = Context(outbox: Outbox, run: PipelineRun, dispatch: Dispatch)

  predicate IsConfirmed(status: DispatchStatus) {
    status.Sent? || status.Delivered? || status.Read?
  }

  function FindPublicationContext(s: Store): Context {
    Context(s.outbox, s.run, s.dispatch)
  }

  function GetJob(s: Store, jobId: string): Option<Job> {
    if jobId in s.queue then Some(s.queue[jobId]) else None
  }

  /** Adding a job under an id that is taken changes nothing. */
  function Enqueue(s: Store, job: Job): Store {
    if job.id in s.queue then s else s.(queue := s.queue[job.id := job])
  }

  predicate RunAcceptsJob(s: Store) {
    && s.run.id == s.outbox.commercialRunId
    && s.run.confirmed
    && s.run.dispatchId == Some(s.outbox.dispatchId)
    && (s.run.jobId.None? || s.run.jobId == Some(s.outbox.jobId))
  }

  /** Publishes a pending outbox and gives its job id to the run, both or neither. */
  function MarkPublished(s: Store, at: int): (r: (Store, Option<Outbox>)) {
    match s.outbox.status
    case OutboxAmbiguous => (s, None)
    case OutboxPublished => (s, Some(s.outbox))
    case OutboxPending =>
      if !RunAcceptsJob(s) then (s, None)
      else
        var published := s.outbox.(status := OutboxPublished, failureCode := None, publishedAt := Some(at));
        (s.(outbox := published, run := s.run.(jobId := Some(s.outbox.jobId))), Some(published))
  }

  function MarkOutboxAmbiguous(s: Store, failureCode: string): Store {
    if s.outbox.status.OutboxAmbiguous? then s
    else s.(outbox := s.outbox.(status := OutboxAmbiguous, failureCode := Some(failureCode)),
            run := s.run.(status := RunFailed, finalStatus := FinalAmbiguous, investigationRequired := true,
                          failureCode := Some(failureCode)))
  }

  datatype ClaimKind = Claimed | NotPending | StickyInstanceMismatch

  /** The destination of a dispatch, as far as the claim looks at it. */
  datatype Routing = Routing(isGroup: bool, expectedInstance: string, assignedInstances: set<string>)

  /** Only a pending dispatch is acquired; a group's instance must be the expected one
      and still be assigned. */
  function ClaimPendingForSending(s: Store, routing: Routing): (r: (Store, ClaimKind)) {
    var d := s.dispatch;
    if !d.status.Pending? then (s, NotPending)
    else if routing.isGroup
            && (d.instanceName != Some(routing.expectedInstance)
                || routing.expectedInstance !in routing.assignedInstances) then
      (s.(dispatch := d.(status := Failed, errorMessage := Some(InstanceMismatch))), StickyInstanceMismatch)
    else
      (s.(dispatch := d.(status := Processing, attemptCount := d.attemptCount + 1, errorMessage := None)), Claimed)
  }

  function MarkSubmitted(s: Store, externalMessageId: string): (r: (Store, bool)) {
    var d := s.dispatch;
    if d.status.Processing? && d.externalMessageId.None?
    then (s.(dispatch := d.(status := Submitted, externalMessageId := Some(externalMessageId), errorMessage := None)), true)
    else (s, false)
  }

  /** Unconditional: the only write to a dispatch that compares nothing. */
  function MarkFailed(s: Store, message: ErrorMessage): Store {
    s.(dispatch := s.dispatch.(status := Failed, errorMessage := Some(message)))
  }

  datatype DeliveryEvent = ServerAck | DeliveryAck | ReadReceipt | DeliveryError

  /** A provider event moves a submitted dispatch forward, or fails one that the server
      never acknowledged. */
  function ApplyDeliveryEvent(s: Store, externalMessageId: string, event: DeliveryEvent, at: int): Store {
    var d := s.dispatch;
    if d.externalMessageId != Some(externalMessageId) then s
    else
      var sentAt := if d.sentAt.None? then Some(at) else d.sentAt;
      match event
      case ServerAck =>
        if d.status.Submitted? then s.(dispatch := d.(status := Sent, sentAt := sentAt, errorMessage := None)) else s
      case DeliveryAck =>
        if d.status.Submitted? || d.status.Sent?
        then s.(dispatch := d.(status := Delivered, sentAt := sentAt, errorMessage := None)) else s
      case ReadReceipt =>
        if d.status.Submitted? || d.status.Sent? || d.status.Delivered?
        then s.(dispatch := d.(status := Read, sentAt := sentAt, errorMessage := None)) else s
      case DeliveryError =>
        if d.status.Submitted? && d.sentAt.None?
        then s.(dispatch := d.(status := Failed, errorMessage := Some(FailedBeforeServerAck))) else s
  }

  function ExpireConfirmation(s: Store): Store {
    if s.dispatch.status.Submitted?
    then s.(dispatch := s.dispatch.(status := Ambiguous, errorMessage := Some(ConfirmationExpired)))
    else s
  }

  // ---------------------------------------------------------------------------
  // Finalising the run
  // ---------------------------------------------------------------------------

  datatype FinalizationKind = KindSent | KindFailed | KindAmbiguous

  function ResolveFinalizationKind(run: PipelineRun, dispatch: Dispatch): FinalizationKind {
    if run.finalStatus.FinalSent? || IsConfirmed(dispatch.status) then KindSent
    else if (run.finalStatus.FinalFailed? && !run.investigationRequired) || dispatch.status.Failed? then KindFailed
    else KindAmbiguous
  }

  predicate IsFinalizationPersisted(run: PipelineRun, kind: FinalizationKind) {
    match kind
    case KindSent => run.status.RunCompleted? && run.finalStatus.FinalSent? && !run.investigationRequired
    case KindFailed => run.status.RunFailed? && run.finalStatus.FinalFailed? && !run.investigationRequired
    case KindAmbiguous => run.status.RunFailed? && run.finalStatus.FinalAmbiguous? && run.investigationRequired
  }

  predicate FinalizationApplies(run: PipelineRun, kind: FinalizationKind) {
    && run.confirmed
    && match kind
       case KindSent => true
       case KindFailed =>
         || run.status.RunStarted?
         || (run.status.RunFailed? && run.investigationRequired
             && (run.finalStatus.FinalAmbiguous? || run.finalStatus.FinalFailed?))
       case KindAmbiguous => run.status.RunStarted?
  }

  const DISPATCH_FAILED: string := "COMMERCIAL_DISPATCH_FAILED"

  /** The compare-and-set half of finalising, after the kind was decided by a read. */
  function WriteFinalization(s: Store, kind: FinalizationKind): (r: (Store, bool)) {
    if !FinalizationApplies(s.run, kind) then (s, false)
    else
      var run :=
        match kind
        case KindSent => s.run.(status := RunCompleted, finalStatus := FinalSent,
                                investigationRequired := false, failureCode := None)
        case KindFailed => s.run.(status := RunFailed, finalStatus := FinalFailed,
                                  investigationRequired := false, failureCode := Some(DISPATCH_FAILED))
        case KindAmbiguous => s.run.(status := RunFailed, finalStatus := FinalAmbiguous,
                                     investigationRequired := true, failureCode := Some(DISPATCH_FAILED));
      (s.(run := run), true)
  }

  // ---------------------------------------------------------------------------
  // Manual recovery
  // ---------------------------------------------------------------------------

  /** When an operator may put an unconfirmed first attempt back to pending, once
      (apps/api/src/prisma-whatsapp-dispatch-manual-recovery-repository.ts:145-290). */
  predicate MayRearm(s: Store) {
    && !s.rearmed
    && s.dispatch.status.Processing? && s.dispatch.attemptCount == 1
    && s.dispatch.externalMessageId.None? && s.dispatch.sentAt.None?
    && s.run.confirmed && s.run.status.RunFailed? && s.run.finalStatus.FinalAmbiguous?
    && s.run.investigationRequired
    && s.outbox.status.OutboxPublished? && s.run.jobId == Some(s.outbox.jobId)
  }

  function Rearm(s: Store): Store {
    if MayRearm(s) then s.(dispatch := s.dispatch.(status := Pending), rearmed := true) else s
  }
}
