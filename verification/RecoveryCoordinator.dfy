/** One recovery pass over stale executions and outboxes
    (apps/api/src/commercial-recovery-coordinator.ts).

    Every answer of a repository, the queue or a called service is arbitrary, and may be an
    error. The pass records what it did to the outside. */
module RecoveryCoordinator {
  import opened Wrappers
  import opened DispatchStore
  import opened ExecutionRecovery
  import DispatchProtocol

  datatype Report = Report(
    scanned: nat,
    safeDbRecovered: nat,
    safeQueueRecovered: nat,
    noAction: nat,
    historicalIgnored: nat,
    humanRequired: nat,
    jobsReused: nat,
    jobsCreated: nat,
    reservationsReleased: nat,
    finalizersReplayed: nat,
    ambiguitiesPreserved: nat)

  const EMPTY_REPORT: Report := Report(0, 0, 0, 0, 0, 0, 0, 0, 0, 0, 0)

  // ---------------------------------------------------------------------------
  // Reading pages
  // ---------------------------------------------------------------------------

  type PageSize = n: int | 0 < n witness 1

  /** The page a repository returns of a list: pages are numbered from one. */
  function PageOf<T>(list: seq<T>, page: int, limit: PageSize): seq<T>
    requires 1 <= page
  {
    var from := (page - 1) * limit;
    if from >= |list| then [] else list[from..Min(from + limit, |list|)]
  }

  lemma PagesAdjoin(page: int, limit: PageSize)
    ensures page * limit == (page - 1) * limit + limit
  {
  }

  /** Reading page after page gives the whole list, whatever the page size. */
  method ReadAllPages<T>(list: seq<T>, pageSize: PageSize) returns (items: seq<T>)
    ensures items == list
  {
    items := [];
    var page := 1;
    while true
      invariant 1 <= page
      invariant |items| == (page - 1) * pageSize <= |list| && items == list[..|items|]
      decreases |list| - |items|
    {
      var result := PageOf(list, page, pageSize);
      items := items + result;
      PagesAdjoin(page, pageSize);
      if |result| == 0 || |items| >= |list| || |result| < pageSize {
        return;
      }
      page := page + 1;
    }
  }

  // ---------------------------------------------------------------------------
  // What the pass knows about an outbox
  // ---------------------------------------------------------------------------

  datatype PublicationContext = PublicationContext(
    outbox: Outbox,
    run: PipelineRun,
    executionId: Evidence<string>,
    dispatch: SeenDispatch)

  predicate LifecycleIdentitiesAreConsistent(c: PublicationContext) {
    && c.run.id == c.outbox.commercialRunId
    && c.run.confirmed
    && c.run.dispatchId == Some(c.dispatch.id)
    && c.outbox.dispatchId == c.dispatch.id
    && c.run.instanceName == c.outbox.instanceName
    && c.dispatch.instanceName == c.outbox.instanceName
  }

  predicate PendingContextIsSafe(c: PublicationContext) {
    && c.run.status.RunStarted?
    && c.run.finalStatus.FinalPending?
    && !c.run.investigationRequired
    && c.dispatch.status.Pending?
    && c.dispatch.attemptCount == 0
    && IsNull(c.dispatch.externalMessageId)
    && IsNull(c.dispatch.sentAt)
    && (c.run.jobId.None? || c.run.jobId == Some(c.outbox.jobId))
  }

  /** Confirmed, with a message identifier that is not blank and an instant. */
  predicate HasValidSentEvidence(c: PublicationContext) {
    && IsConfirmed(c.dispatch.status)
    && c.dispatch.externalMessageId.Known? && c.dispatch.externalMessageId.value.Some?
    && !IsBlank(c.dispatch.externalMessageId.value.value)
    && c.dispatch.sentAt.Known? && c.dispatch.sentAt.value.Some?
  }

  predicate IsBlank(s: string) {
    forall k | 0 <= k < |s| :: s[k] in {' ', '\t', '\n', '\r'}
  }

  predicate IsTerminalSentHistory(c: PublicationContext) {
    && LifecycleIdentitiesAreConsistent(c)
    && c.outbox.status.OutboxPublished?
    && c.run.status.RunCompleted? && c.run.finalStatus.FinalSent? && !c.run.investigationRequired
    && c.run.jobId == Some(c.outbox.jobId)
    && HasValidSentEvidence(c)
  }

  predicate IsSafePostSendFinalization(c: PublicationContext) {
    && LifecycleIdentitiesAreConsistent(c)
    && c.outbox.status.OutboxPublished?
    && c.run.status.RunStarted? && c.run.finalStatus.FinalPending? && !c.run.investigationRequired
    && c.dispatch.attemptCount == 1
    && c.run.jobId == Some(c.outbox.jobId)
    && HasValidSentEvidence(c)
  }

  predicate ShowsSafePreExternalFailure(c: PublicationContext) {
    && LifecycleIdentitiesAreConsistent(c)
    && c.outbox.status.OutboxPublished?
    && c.executionId.Known? && c.executionId.value.Some?
    && c.dispatch.errorMessage == Some(SafePreExternalFailure)
    && ((c.run.status.RunStarted? && c.run.finalStatus.FinalPending?)
        || (c.run.status.RunFailed? && c.run.finalStatus.FinalFailed?))
    && !c.run.investigationRequired
    && c.run.jobId == Some(c.outbox.jobId)
    && c.dispatch.status.Failed?
    && c.dispatch.attemptCount == 1
    && IsNull(c.dispatch.externalMessageId) && IsNull(c.dispatch.sentAt)
  }

  predicate HasPublicationUncertainty(c: PublicationContext) {
    || c.run.investigationRequired
    || c.run.finalStatus.FinalAmbiguous?
    || c.outbox.status.OutboxAmbiguous?
    || c.dispatch.status.Processing?
    || !IsNull(c.dispatch.externalMessageId)
    || !IsNull(c.dispatch.sentAt)
  }

  /** The publisher's view of the same records. */
  function AsPublisherSees(c: PublicationContext): Context {
    Context(c.outbox, c.run,
            Dispatch(c.dispatch.id, c.dispatch.instanceName, c.dispatch.status, c.dispatch.attemptCount,
                     if c.dispatch.externalMessageId.Known? then c.dispatch.externalMessageId.value else None,
                     if c.dispatch.sentAt.Known? then c.dispatch.sentAt.value else None,
                     c.dispatch.errorMessage))
  }

  /** The pass and the publisher ask the same questions: what passes the one's pending
      checks passes all of the other's, and conversely when the evidence was read. */
  lemma PendingChecksAgree(c: PublicationContext)
    ensures LifecycleIdentitiesAreConsistent(c) <==> DispatchProtocol.IdentitiesAreConsistent(AsPublisherSees(c))
    ensures PendingContextIsSafe(c)
       <==> && c.dispatch.externalMessageId.Known? && c.dispatch.sentAt.Known?
            && DispatchProtocol.PendingRunIsSafe(AsPublisherSees(c))
            && DispatchProtocol.PendingDispatchIsSafe(AsPublisherSees(c))
  {
  }

  /** So on the records it was checked on, publication fails only if the job read does not match. */
  lemma CheckedOutboxIsPublishable(c: PublicationContext, job: Option<Job>)
    requires LifecycleIdentitiesAreConsistent(c) && PendingContextIsSafe(c) && c.outbox.status.OutboxPending?
    ensures var seen := AsPublisherSees(c);
      && DispatchProtocol.AfterContext(seen) == DispatchProtocol.ReadingJob(seen)
      && (DispatchProtocol.AfterJob(seen, job) ==
            if job.None? then DispatchProtocol.Enqueueing(seen)
            else if DispatchProtocol.JobMatchesOutbox(job.value, c.outbox) then DispatchProtocol.Marking(seen)
            else DispatchProtocol.Failing(DispatchProtocol.INCONSISTENT))
  {
  }

  // ---------------------------------------------------------------------------
  // The pass
  // ---------------------------------------------------------------------------

  datatype ManualDecision = NoDecision | ConfirmedNonDelivery | AmbiguityAccepted | InspectionFailed

  datatype JobState = Waiting | Delayed | Prioritized | WaitingChildren | Paused | JobFailed | Active | OtherState

  datatype QueuedJob = QueuedJob(job: Job, state: Option<JobState>)

  datatype Removal = Removed | WasAbsent | WasActive | UnsafeState | RemovalMismatch | RemovalFailed

  /** What the pass does to the outside. */
  datatype Act =
    | RecoversExecution(recovery: RecoveryContext)
    | Finalizes(publication: PublicationContext)
    | Publishes(publication: PublicationContext, linked: Option<RecoveryContext>, found: Option<Job>)
    | RemovesJob(publication: PublicationContext, recovery: RecoveryContext, queued: QueuedJob)

  predicate JobMatches(job: Job, outbox: Outbox) {
    job.id == outbox.jobId && job.dispatchId == outbox.dispatchId && job.instanceName == outbox.instanceName
  }

  predicate SameLifecycle(r: RecoveryContext, c: PublicationContext) {
    && r.run.Some?
    && r.run.value.id == c.run.id
    && r.run.value.dispatchId == Some(c.dispatch.id)
    && r.run.value.jobId == Some(c.outbox.jobId)
    && r.run.value.outbox.Some? && r.run.value.outbox.value.id == c.outbox.id
  }

  /** The linked execution shows nothing external either. */
  predicate ExternalStageIsSafe(r: RecoveryContext, c: PublicationContext) {
    && r.execution.commercialRunId == Some(c.run.id)
    && r.execution.externalStage.NotReached?
    && (r.execution.status.ExecutionQueued? || r.execution.status.ExecutionStarted?)
    && r.run.Some?
    && var run := r.run.value;
       && run.id == c.run.id && run.dispatchId == Some(c.dispatch.id) && run.confirmed
       && run.dispatch.Some? && run.dispatch.value.id == c.dispatch.id
       && run.dispatch.value.status.Pending? && run.dispatch.value.attemptCount == 0
       && IsNull(run.dispatch.value.externalMessageId) && IsNull(run.dispatch.value.sentAt)
       && run.outbox.Some? && run.outbox.value.id == c.outbox.id
       && run.outbox.value.status.OutboxPending? && run.outbox.value.jobId == c.outbox.jobId
       && (run.jobId.None? || run.jobId == Some(c.outbox.jobId))
  }

  // Its fences: what the records read show whenever the pass acts

  /** Nothing of the publication has begun. */
  ghost predicate IsUntouched(c: PublicationContext) {
    var o, r, d := c.outbox, c.run, c.dispatch;
    && o.status == OutboxPending
    && r.id == o.commercialRunId && r.dispatchId == Some(o.dispatchId) && o.dispatchId == d.id
    && r.instanceName == o.instanceName && d.instanceName == o.instanceName
    && r.confirmed && r.status == RunStarted && r.finalStatus == FinalPending && !r.investigationRequired
    && r.jobId in {None, Some(o.jobId)}
    && d.status == Pending && d.attemptCount == 0 && d.externalMessageId == Known(None) && d.sentAt == Known(None)
  }

  /** The execution behind it, if there is one, was read and shows the same records, still
      untouched, and nothing external. */
  ghost predicate IsLinkedUntouched(c: PublicationContext, linked: Option<RecoveryContext>) {
    && c.executionId.Known?
    && (c.executionId.value.Some? ==>
          && linked.Some?
          && var e, run := linked.value.execution, linked.value.run;
             && e.externalStage == NotReached && e.status in {ExecutionQueued, ExecutionStarted}
             && e.commercialRunId == Some(c.run.id)
             && run.Some? && run.value.id == c.run.id && run.value.confirmed
             && run.value.dispatchId == Some(c.dispatch.id) && run.value.jobId in {None, Some(c.outbox.jobId)}
             && run.value.dispatch.Some? && run.value.outbox.Some?
             && var d, o := run.value.dispatch.value, run.value.outbox.value;
                && d.id == c.dispatch.id && d.status == Pending && d.attemptCount == 0
                && d.externalMessageId == Known(None) && d.sentAt == Known(None)
                && o.id == c.outbox.id && o.jobId == c.outbox.jobId && o.status == OutboxPending)
  }

  /** The outbox's own job, in a state in which it may be removed. */
  ghost predicate IsRemovable(queued: QueuedJob, o: Outbox) {
    && IsOwnJob(queued.job, o)
    && queued.state in {Some(Waiting), Some(Delayed), Some(Prioritized), Some(WaitingChildren), Some(JobState.Paused),
                        Some(JobFailed)}
  }

  ghost predicate IsOwnJob(job: Job, o: Outbox) {
    job == Job(o.jobId, o.dispatchId, o.instanceName)
  }

  /** The provider confirmed the one attempt, and only finalizing is left. */
  ghost predicate OnlyFinalizingIsLeft(c: PublicationContext) {
    var o, r, d := c.outbox, c.run, c.dispatch;
    && o.status == OutboxPublished
    && r.id == o.commercialRunId && r.dispatchId == Some(o.dispatchId) && o.dispatchId == d.id
    && r.instanceName == o.instanceName && d.instanceName == o.instanceName
    && r.confirmed && r.status == RunStarted && r.finalStatus == FinalPending && !r.investigationRequired
    && r.jobId == Some(o.jobId)
    && d.status in {Sent, Delivered, Read} && d.attemptCount == 1
    && d.externalMessageId.Known? && d.externalMessageId.value.Some? && d.sentAt.Known? && d.sentAt.value.Some?
  }

  /** The one attempt failed before any request, and its execution is recorded so. */
  ghost predicate FailedBeforeRequest(c: PublicationContext, r: RecoveryContext) {
    && c.outbox.status == OutboxPublished && c.run.jobId == Some(c.outbox.jobId) && !c.run.investigationRequired
    && c.dispatch.status == Failed && c.dispatch.errorMessage == Some(SafePreExternalFailure)
    && c.dispatch.attemptCount == 1
    && c.dispatch.externalMessageId == Known(None) && c.dispatch.sentAt == Known(None)
    && r.execution.status == ExecutionFailed && r.execution.externalStage == NotReached
    && r.execution.failureCode == Some(SAFE_PRE_EXTERNAL_SEND_FAILURE)
    && r.execution.sends && r.execution.activeKey == None && r.execution.completedAt.Some?
    && r.execution.commercialRunId == Some(c.run.id)
    && r.run.Some? && r.run.value.id == c.run.id && r.run.value.dispatchId == Some(c.dispatch.id)
    && r.run.value.confirmed && r.run.value.status == RunFailed && r.run.value.finalStatus == Some(FinalFailed)
    && !r.run.value.investigationRequired && r.run.value.jobId == Some(c.outbox.jobId)
    && r.run.value.dispatch.Some? && r.run.value.outbox.Some?
    && var d, o := r.run.value.dispatch.value, r.run.value.outbox.value;
       && d.id == c.dispatch.id && d.status == Failed && d.attemptCount == 1
       && d.errorMessage == Some(SafePreExternalFailure)
       && d.externalMessageId == Known(None) && d.sentAt == Known(None)
       && o.id == c.outbox.id && o.status == OutboxPublished && o.jobId == c.outbox.jobId
       && o.commercialRunId == c.run.id && o.dispatchId == c.dispatch.id
  }

  /** The records of the publication belong together. */
  ghost predicate BelongTogether(c: PublicationContext) {
    && c.run.id == c.outbox.commercialRunId && c.run.confirmed
    && c.run.dispatchId == Some(c.outbox.dispatchId) && c.outbox.dispatchId == c.dispatch.id
    && c.run.instanceName == c.outbox.instanceName && c.dispatch.instanceName == c.outbox.instanceName
  }

  /** What the pass asks of a publication, in its fields: untouched; sent with evidence and
      settled, or only to be finalized; failed before the request; or uncertain. */
  lemma ChecksExactlyWhen(c: PublicationContext)
    ensures var o, r, d := c.outbox, c.run, c.dispatch;
      var evident := && d.status in {Sent, Delivered, Read}
                     && d.externalMessageId.Known? && d.externalMessageId.value.Some?
                     && (exists k :: 0 <= k < |d.externalMessageId.value.value|
                                     && d.externalMessageId.value.value[k] !in {' ', '\t', '\n', '\r'})
                     && d.sentAt.Known? && d.sentAt.value.Some?;
      && (o.status == OutboxPending ==>
            (LifecycleIdentitiesAreConsistent(c) && PendingContextIsSafe(c) <==> IsUntouched(c)))
      && (IsSafePostSendFinalization(c) <==> OnlyFinalizingIsLeft(c) && evident)
      && (IsTerminalSentHistory(c)
          <==> && BelongTogether(c) && evident && o.status == OutboxPublished && r.jobId == Some(o.jobId)
               && r.status == RunCompleted && r.finalStatus == FinalSent && !r.investigationRequired)
      && (ShowsSafePreExternalFailure(c)
          <==> && BelongTogether(c) && o.status == OutboxPublished && r.jobId == Some(o.jobId)
               && c.executionId.Known? && c.executionId.value.Some?
               && d.status == Failed && d.errorMessage == Some(SafePreExternalFailure) && d.attemptCount == 1
               && d.externalMessageId == Known(None) && d.sentAt == Known(None)
               && !r.investigationRequired
               && ((r.status == RunStarted && r.finalStatus == FinalPending)
                   || (r.status == RunFailed && r.finalStatus == FinalFailed)))
      && (!HasPublicationUncertainty(c)
          <==> && !r.investigationRequired && r.finalStatus != FinalAmbiguous && o.status != OutboxAmbiguous
               && d.status != Processing && d.externalMessageId == Known(None) && d.sentAt == Known(None))
  {
  }

  /** An act of the pass is within its fences. */
  ghost predicate IsFenced(act: Act, paused: bool) {
    match act
    case RecoversExecution(r) => HasSafeTrace(r)
    case Finalizes(c) => OnlyFinalizingIsLeft(c)
    case Publishes(c, linked, found) =>
      && !paused && IsUntouched(c) && IsLinkedUntouched(c, linked) && (found.Some? ==> IsOwnJob(found.value, c.outbox))
    case RemovesJob(c, r, queued) =>
      FailedBeforeRequest(c, r) && IsRemovable(queued, c.outbox)
  }

  ghost predicate AllFenced(acts: seq<Act>, paused: bool) {
    forall k | 0 <= k < |acts| :: IsFenced(acts[k], paused)
  }

  ghost predicate FinalizedOnce(acts: seq<Act>) {
    forall j, k | 0 <= j < k < |acts| && acts[j].Finalizes? && acts[k].Finalizes? ::
      acts[j].publication.dispatch.id != acts[k].publication.dispatch.id
  }

  // ---------------------------------------------------------------------------
  // Accounting
  // ---------------------------------------------------------------------------

  datatype Category = SafeDb | SafeQueue | NoAction | Ignored | AcceptedAmbiguity | Human(ambiguity: bool)

  function Tally(r: Report, c: Category): Report {
    match c
    case SafeDb => r.(safeDbRecovered := r.safeDbRecovered + 1)
    case SafeQueue => r.(safeQueueRecovered := r.safeQueueRecovered + 1)
    case NoAction => r.(noAction := r.noAction + 1)
    case Ignored => r.(historicalIgnored := r.historicalIgnored + 1)
    case AcceptedAmbiguity => r.(historicalIgnored := r.historicalIgnored + 1, noAction := r.noAction + 1)
    case Human(ambiguity) =>
      r.(humanRequired := r.humanRequired + 1,
         ambiguitiesPreserved := r.ambiguitiesPreserved + if ambiguity then 1 else 0)
  }

  /** Every category is counted once, in its own counter; an accepted ambiguity in two; and an
      ambiguity left to a human also as preserved. */
  lemma CategoriesAreCounted(r: Report, c: Category)
    ensures var r' := Tally(r, c);
      && r'.safeDbRecovered == r.safeDbRecovered + (if c == SafeDb then 1 else 0)
      && r'.safeQueueRecovered == r.safeQueueRecovered + (if c == SafeQueue then 1 else 0)
      && r'.noAction == r.noAction + (if c in {NoAction, AcceptedAmbiguity} then 1 else 0)
      && r'.historicalIgnored == r.historicalIgnored + (if c in {Ignored, AcceptedAmbiguity} then 1 else 0)
      && r'.humanRequired == r.humanRequired + (if c in {Human(true), Human(false)} then 1 else 0)
      && r'.ambiguitiesPreserved == r.ambiguitiesPreserved + (if c == Human(true) then 1 else 0)
      && r'.scanned == r.scanned && r'.jobsCreated == r.jobsCreated && r'.jobsReused == r.jobsReused
      && r'.finalizersReplayed == r.finalizersReplayed && r'.reservationsReleased == r.reservationsReleased
  {
  }

  /** Equal but for the counts of jobs and finalizers, each raised by at most one. */
  ghost predicate ExtendsTally(r: Report, r': Report) {
    && r' == r.(jobsCreated := r'.jobsCreated, jobsReused := r'.jobsReused, finalizersReplayed := r'.finalizersReplayed)
    && r.jobsCreated <= r'.jobsCreated <= r.jobsCreated + 1
    && r.jobsReused <= r'.jobsReused <= r.jobsReused + 1
    && r.finalizersReplayed <= r'.finalizersReplayed <= r.finalizersReplayed + 1
  }

  /** The categories a stale execution may end in, by what was read of it. */
  ghost predicate ExecutionVerdict(context: Option<RecoveryContext>, category: Category) {
    if context.None? then category == Human(false)
    else if HasExternalUncertainty(context.value) then category == Human(true)
    else if context.value.run.Some? && LeavesToOutbox(context.value.run.value) then category == NoAction
    else if !IsSafeExecutionRecovery(context.value) then category == Human(false)
    else category == SafeDb || category.Human?
  }

  /** The categories an outbox may end in, by what was read of it. */
  ghost predicate OutboxVerdict(context: Option<PublicationContext>, paused: bool, category: Category) {
    if context.None? then category == Human(false)
    else
      var c := context.value;
      if IsTerminalSentHistory(c) then category == Ignored
      else if IsSafePostSendFinalization(c) then category in {SafeDb, NoAction, Human(false)}
      else if ShowsSafePreExternalFailure(c) then category in {SafeQueue, NoAction, Human(false)}
      else if c.dispatch.attemptCount > 1 || IsConfirmed(c.dispatch.status) || HasPublicationUncertainty(c) then
        category == Human(true)
      else if c.outbox.status.OutboxPending? then
        if !IsUntouched(c) then category == Human(true)
        else (paused ==> category in {NoAction, Human(true)}) && (category in {SafeQueue, NoAction} || category.Human?)
      else category == NoAction || category.Human?
  }

  /** An answer of a collaborator, or an error. */
  datatype Answer<T> = Answered(value: T) | Threw

  /** About cleaning up after a failure before the request: the execution as first read, whether
      its failure could be recorded, the execution read again, the job, whether one is there,
      and how removing it went. */
  datatype CleanupAnswers = CleanupAnswers(
    first: Answer<Option<RecoveryContext>>,
    recorded: Answer<bool>,
    second: Answer<Option<RecoveryContext>>,
    job: Answer<Option<QueuedJob>>,
    present: Answer<bool>,
    removed: Removal)

  /** About publishing a pending outbox: the job as read, whether one is there, and what
      publishing it gave. */
  datatype PendingAnswers = PendingAnswers(
    read: Answer<Option<Job>>,
    present: Answer<bool>,
    published: Answer<OutboxStatus>,
    jobCreated: bool,
    jobReused: bool)

  /** Which optional collaborators are present. */
  datatype Wiring = Wiring(
    queue: bool,
    getJob: bool,
    removeSafe: bool,
    recoverExecution: bool,
    recoverSafeFailure: bool,
    publishOutbox: bool,
    finalizeAfterDispatch: bool,
    manualDecisions: bool)

  /** How many of the first `n` executions are stale when looked at. */
  function StaleAmong(executions: seq<Execution>, clock: nat -> int, n: nat): nat
    requires n <= |executions|
  {
    if n == 0 then 0
    else StaleAmong(executions, clock, n - 1) + if IsStale(executions[n - 1], clock(n - 1)) then 1 else 0
  }

  class Coordinator {
    const wiring: Wiring
    var report: Report
    var finalizedDispatches: set<string>
    ghost var acts: seq<Act>
    ghost var accepted: nat

    constructor (wiring: Wiring)
      ensures Settled(true) && Settled(false) && report == EMPTY_REPORT && acts == [] && accepted == 0
      ensures this.wiring == wiring
    {
      this.wiring := wiring;
      report, finalizedDispatches := EMPTY_REPORT, {};
      acts, accepted := [], 0;
    }

    /** `open` scanned items are not yet in a category. Every other is in exactly one,
        except that an accepted ambiguity is both ignored and without action. */
    ghost predicate Accounted(open: nat)
      reads this
    {
      && report.scanned + accepted
         == report.safeDbRecovered + report.safeQueueRecovered + report.noAction
            + report.historicalIgnored + report.humanRequired + open
      && report.ambiguitiesPreserved <= report.humanRequired
      && report.finalizersReplayed <= report.safeDbRecovered
      && report.jobsCreated <= report.safeQueueRecovered && report.jobsReused <= report.safeQueueRecovered
    }

    ghost predicate Fenced(paused: bool)
      reads this
    {
      && AllFenced(acts, paused) && FinalizedOnce(acts)
      && forall k | 0 <= k < |acts| && acts[k].Finalizes? :: acts[k].publication.dispatch.id in finalizedDispatches
    }

    ghost predicate Settled(paused: bool)
      reads this
    {
      Accounted(0) && Fenced(paused)
    }

    ghost predicate Open(paused: bool)
      reads this
    {
      Accounted(1) && Fenced(paused)
    }

    ghost method Record(act: Act, paused: bool)
      requires Open(paused) && IsFenced(act, paused) && !act.Finalizes?
      modifies this`acts
      ensures Open(paused) && acts == old(acts) + [act]
    {
      acts := acts + [act];
    }

    method Count(category: Category, ghost paused: bool)
      requires Open(paused) && !category.AcceptedAmbiguity?
      modifies this`report
      ensures Settled(paused) && report == Tally(old(report), category)
    {
      report := Tally(report, category);
    }

    /** A stale execution: recovered exactly if it was read and shows nothing external and no
        open send, and then reported as the recovery answered: recovered or already terminal,
        or to be investigated. */
    method RecoverStaleExecution(read: Option<RecoveryContext>, recovered: Answer<bool>, ghost paused: bool)
      returns (category: Category)
      requires Open(paused)
      modifies this`report, this`acts
      ensures Settled(paused) && report == Tally(old(report), category)
      ensures ExecutionVerdict(read, category)
      ensures if read.Some? && HasSafeTrace(read.value) && wiring.recoverExecution
              then && acts == old(acts) + [RecoversExecution(read.value)]
                   && category == (if recovered.Threw? then Human(false) else if recovered.value then SafeDb else Human(true))
              else acts == old(acts) && category in {NoAction, Human(true), Human(false)}
    {
      if read.None? {
        category := Human(false);
      } else if HasExternalUncertainty(read.value) {
        category := Human(true);
      } else if read.value.run.Some? && LeavesToOutbox(read.value.run.value) {
        category := NoAction;
      } else if !IsSafeExecutionRecovery(read.value) || !wiring.recoverExecution {
        category := Human(false);
      } else {
        Record(RecoversExecution(read.value), paused);
        category := if recovered.Threw? then Human(false) else if recovered.value then SafeDb else Human(true);
      }
      if read.Some? {
        SafeExactlyWhen(read.value);
      }
      Count(category, paused);
    }

    /** A persisted failure before any request: its job may be removed, once the execution
        shows the same failure. */
    method ReconcileSafePreExternalFailure(c: PublicationContext, a: CleanupAnswers, ghost paused: bool)
      returns (category: Category)
      requires Open(paused) && ShowsSafePreExternalFailure(c)
      modifies this`report, this`acts
      ensures Settled(paused) && report == Tally(old(report), category)
      ensures category in {SafeQueue, NoAction, Human(false)}
      ensures var found := PersistedSafeFailure(a);
              var looks := && wiring.queue && wiring.getJob
                           && found.Some? && IsPersistedSafePreExternalFailure(found.value) && SameLifecycle(found.value, c);
        if !looks then category == Human(false) && acts == old(acts) else RemovedAsAnswered(c, found.value, a, old(acts), category)
    {
      category := Human(false);
      if wiring.queue && wiring.getJob {
        var recovery := FindPersistedSafeFailure(a);
        if recovery.Some? && IsPersistedSafePreExternalFailure(recovery.value) && SameLifecycle(recovery.value, c) {
          category := RemoveSafeJob(c, recovery.value, a, paused);
        }
      }
      Count(category, paused);
    }

    /** The execution as read, if it shows the failure; otherwise as read again, if its failure
        could be recorded. */
    ghost function PersistedSafeFailure(a: CleanupAnswers): Option<RecoveryContext> {
      if a.first in {Threw, Answered(None)} then None
      else if IsPersistedSafePreExternalFailure(a.first.value.value) then a.first.value
      else if wiring.recoverSafeFailure && a.recorded == Answered(true) && a.second.Answered? then a.second.value
      else None
    }

    method FindPersistedSafeFailure(a: CleanupAnswers) returns (recovery: Option<RecoveryContext>)
      ensures recovery == PersistedSafeFailure(a)
    {
      if a.first.Threw? || a.first.value.None? {
        return None;
      }
      if IsPersistedSafePreExternalFailure(a.first.value.value) {
        return a.first.value;
      }
      if !wiring.recoverSafeFailure || a.recorded.Threw? || !a.recorded.value {
        return None;
      }
      return if a.second.Threw? then None else a.second.value;
    }

    /** The job is removed exactly if it was read, is the outbox's own and may be removed; the
        outbox is recovered exactly if that went through or it was gone; and nothing is to be
        done exactly if there is none. */
    ghost predicate RemovedAsAnswered(c: PublicationContext, recovery: RecoveryContext, a: CleanupAnswers,
                                      before: seq<Act>, category: Category)
      reads this`acts
    {
      var removes := && a.job.Answered? && a.job.value.Some? && IsRemovable(a.job.value.value, c.outbox)
                     && wiring.removeSafe;
      && acts == before + (if removes then [RemovesJob(c, recovery, a.job.value.value)] else [])
      && (category == SafeQueue <==> removes && (a.removed == Removed || a.removed == WasAbsent))
      && (category == NoAction <==> a.job == Answered(None) && a.present == Answered(false))
      && category in {SafeQueue, NoAction, Human(false)}
    }

    method RemoveSafeJob(c: PublicationContext, recovery: RecoveryContext, a: CleanupAnswers, ghost paused: bool)
      returns (category: Category)
      requires Open(paused) && ShowsSafePreExternalFailure(c)
      requires IsPersistedSafePreExternalFailure(recovery) && SameLifecycle(recovery, c)
      modifies this`acts
      ensures Open(paused) && RemovedAsAnswered(c, recovery, a, old(acts), category)
    {
      if a.job.Threw? {
        return Human(false);
      }
      if a.job.value.None? {
        return if a.present == Answered(false) then NoAction else Human(false);
      }
      var queued := a.job.value.value;
      if !JobMatches(queued.job, c.outbox) || queued.state.None? || queued.state.value.Active?
         || queued.state.value.OtherState? || !wiring.removeSafe {
        return Human(false);
      }
      Record(RemovesJob(c, recovery, queued), paused);
      return if a.removed.Removed? || a.removed.WasAbsent? then SafeQueue else Human(false);
    }

    /** Whether the execution linked to the outbox shows nothing external either: exactly if
        there is none, or it was read and shows the same records untouched. */
    method HasSafeExternalStage(c: PublicationContext, recovery: Answer<Option<RecoveryContext>>)
      returns (safe: bool, ghost linked: Option<RecoveryContext>)
      ensures linked == if c.executionId.Known? && c.executionId.value.Some? && recovery.Answered? then recovery.value else None
      ensures safe <==> IsLinkedUntouched(c, linked)
    {
      linked := None;
      if c.executionId.Unread? {
        return false, linked;
      }
      if c.executionId.value.None? {
        return true, linked;
      }
      if recovery.Threw? || recovery.value.None? {
        return false, linked;
      }
      linked := recovery.value;
      safe := ExternalStageIsSafe(recovery.value.value, c);
    }

    /** The job under the outbox's id, by what the queue answered; `None` if it could not be
        read, or if a job that is there was not. */
    method InspectJob(read: Answer<Option<Job>>, present: Answer<bool>) returns (job: Option<Option<Job>>)
      ensures job.Some? && job.value.Some? <==> wiring.getJob && read.Answered? && read.value.Some?
      ensures job == Some(None) <==> (wiring.getJob ==> read == Answered(None)) && present == Answered(false)
      ensures job.Some? && job.value.Some? ==> job.value == read.value
    {
      if wiring.getJob && read.Threw? {
        return None;
      }
      var found := if wiring.getJob then read.value else None;
      if found.None? && present != Answered(false) {
        return None;
      }
      return Some(found);
    }

    /** A pending outbox is published exactly if it and its execution are untouched, the
        automation runs, and the queue shows no job but its own. */
    method RecoverPendingOutbox(c: PublicationContext, a: PendingAnswers, paused: bool)
      returns (category: Category, ghost linked: Option<RecoveryContext>)
      requires Open(paused) && c.outbox.status.OutboxPending?
      modifies this`report, this`acts
      ensures Settled(paused) && ExtendsTally(Tally(old(report), category), report)
      ensures var mayPublish := IsUntouched(c) && IsLinkedUntouched(c, linked);
              var shown := if wiring.getJob then a.read else Answered(None);
              var ownOrNone := shown.Answered? && if shown.value.Some? then IsOwnJob(shown.value.value, c.outbox)
                                                  else a.present == Answered(false);
        && (!mayPublish ==> category == Human(true))
        && (mayPublish && (paused || !wiring.queue) ==> category == NoAction)
        && (if mayPublish && !paused && wiring.queue && wiring.publishOutbox && ownOrNone
            then && acts == old(acts) + [Publishes(c, linked, shown.value)]
                 && ReportedAsPublished(a, shown.value, old(report), category)
            else acts == old(acts) && category in {NoAction, Human(true), Human(false)})
    {
      linked := None;
      if !LifecycleIdentitiesAreConsistent(c) || !PendingContextIsSafe(c) {
        category := Human(true);
        Count(category, paused);
        return;
      }
      var safe;
      var recovery: Answer<Option<RecoveryContext>> := Arbitrary();
      safe, linked := HasSafeExternalStage(c, recovery);
      if !safe {
        category := Human(true);
      } else if paused || !wiring.queue {
        category := NoAction;
      } else if !wiring.publishOutbox {
        category := Human(false);
      } else {
        var job := InspectJob(a.read, a.present);
        if job.None? {
          category := Human(false);
        } else if job.value.Some? && !JobMatches(job.value.value, c.outbox) {
          category := Human(true);
        } else {
          category := PublishPending(c, linked, job.value, a, paused);
          return;
        }
      }
      Count(category, paused);
    }

    /** Recovered exactly if publishing it answered that it is published; its job counts as
        created or reused as was answered, or as reused if it was there before. */
    ghost predicate ReportedAsPublished(a: PendingAnswers, job: Option<Job>, before: Report, category: Category)
      reads this`report
    {
      var done := a.published == Answered(OutboxPublished);
      && category == (if done then SafeQueue else Human(true))
      && report == Tally(before, category).(
                     jobsCreated := before.jobsCreated + (if done && a.jobCreated then 1 else 0),
                     jobsReused := before.jobsReused + if done && (a.jobReused || (!a.jobCreated && job.Some?)) then 1 else 0)
    }

    method PublishPending(c: PublicationContext, ghost linked: Option<RecoveryContext>, job: Option<Job>, a: PendingAnswers,
                          ghost paused: bool)
      returns (category: Category)
      requires Open(paused) && IsFenced(Publishes(c, linked, job), paused)
      modifies this`report, this`acts
      ensures Settled(paused) && ExtendsTally(Tally(old(report), category), report)
      ensures acts == old(acts) + [Publishes(c, linked, job)]
      ensures ReportedAsPublished(a, job, old(report), category)
    {
      Record(Publishes(c, linked, job), paused);
      if a.published != Answered(OutboxPublished) {
        category := Human(true);
        Count(category, paused);
        return;
      }
      category := SafeQueue;
      Count(category, paused);
      if a.jobCreated {
        report := report.(jobsCreated := report.jobsCreated + 1);
      }
      if a.jobReused || (!a.jobCreated && job.Some?) {
        report := report.(jobsReused := report.jobsReused + 1);
      }
    }

    /** A published outbox needs no action exactly if the queue shows its own job. */
    method ClassifyPublishedOutbox(c: PublicationContext, read: Answer<Option<Job>>, present: Answer<bool>,
                                   ghost paused: bool)
      returns (category: Category)
      requires Open(paused)
      modifies this`report
      ensures Settled(paused) && report == Tally(old(report), category)
      ensures category == NoAction || category.Human?
      ensures category == NoAction
         <==> && wiring.queue && wiring.getJob && read.Answered? && read.value.Some?
              && IsOwnJob(read.value.value, c.outbox)
    {
      if !wiring.queue {
        category := Human(false);
      } else {
        var job := InspectJob(read, present);
        if job.None? || job.value.None? {
          category := Human(false);
        } else if !JobMatches(job.value.value, c.outbox) {
          category := Human(true);
        } else {
          category := NoAction;
        }
      }
      Count(category, paused);
    }

    /** The finalizer of a dispatch is replayed at most once in a pass, and exactly if it was
        not before and there is one; the outbox is recovered exactly if that went through. */
    method ReplayFinalizer(c: PublicationContext, finalized: bool, ghost paused: bool) returns (category: Category)
      requires Open(paused) && IsSafePostSendFinalization(c)
      modifies this
      ensures Settled(paused) && accepted == old(accepted)
      ensures finalizedDispatches == old(finalizedDispatches) + {c.dispatch.id}
      ensures var first := c.dispatch.id !in old(finalizedDispatches);
        && acts == old(acts) + (if first && wiring.finalizeAfterDispatch then [Finalizes(c)] else [])
        && category == (if !first then NoAction
                        else if wiring.finalizeAfterDispatch && finalized then SafeDb else Human(false))
        && report == Tally(old(report), category).(
                       finalizersReplayed := old(report).finalizersReplayed + if category == SafeDb then 1 else 0)
    {
      if c.dispatch.id in finalizedDispatches {
        category := NoAction;
        Count(category, paused);
        return;
      }
      finalizedDispatches := finalizedDispatches + {c.dispatch.id};
      if !wiring.finalizeAfterDispatch {
        category := Human(false);
        Count(category, paused);
        return;
      }
      acts := acts + [Finalizes(c)];
      assert IsFenced(Finalizes(c), paused);
      category := if finalized then SafeDb else Human(false);
      Count(category, paused);
      if finalized {
        report := report.(finalizersReplayed := report.finalizersReplayed + 1);
      }
    }

    /** One outbox that no manual decision closed. */
    method ReconcileOutbox(read: Option<PublicationContext>, paused: bool) returns (category: Category)
      requires Open(paused)
      modifies this
      ensures Settled(paused) && ExtendsTally(Tally(old(report), category), report)
      ensures accepted == old(accepted)
      ensures OutboxVerdict(read, paused, category)
    {
      if read.None? {
        category := Human(false);
        Count(category, paused);
        return;
      }
      var c := read.value;
      if IsTerminalSentHistory(c) {
        category := Ignored;
        Count(category, paused);
      } else if IsSafePostSendFinalization(c) {
        var finalized: bool := Arbitrary();
        category := ReplayFinalizer(c, finalized, paused);
      } else if ShowsSafePreExternalFailure(c) {
        var answers: CleanupAnswers := Arbitrary();
        category := ReconcileSafePreExternalFailure(c, answers, paused);
      } else if c.dispatch.attemptCount > 1 || IsConfirmed(c.dispatch.status) || HasPublicationUncertainty(c) {
        category := Human(true);
        Count(category, paused);
      } else if c.outbox.status.OutboxPending? {
        category := RecoverPending(c, paused);
      } else {
        category := ClassifyPublished(c, paused);
      }
    }

    method RecoverPending(c: PublicationContext, paused: bool) returns (category: Category)
      requires Open(paused) && c.outbox.status.OutboxPending?
      modifies this`report, this`acts
      ensures Settled(paused) && ExtendsTally(Tally(old(report), category), report)
      ensures if !IsUntouched(c) then category == Human(true) else category in {SafeQueue, NoAction} || category.Human?
      ensures paused ==> category in {NoAction, Human(true)} && acts == old(acts)
    {
      var answers: PendingAnswers := Arbitrary();
      ghost var linked;
      category, linked := RecoverPendingOutbox(c, answers, paused);
    }

    method ClassifyPublished(c: PublicationContext, ghost paused: bool) returns (category: Category)
      requires Open(paused)
      modifies this`report
      ensures Settled(paused) && report == Tally(old(report), category)
      ensures category == NoAction || category.Human?
    {
      var read: Answer<Option<Job>> := Arbitrary();
      var present: Answer<bool> := Arbitrary();
      category := ClassifyPublishedOutbox(c, read, present, paused);
    }

    /** One outbox of the pass. An accepted ambiguity is left alone for good, and one whose
        manual decision could not be read is left to a human. */
    method InspectOutbox(decision: ManualDecision, paused: bool)
      requires Open(paused)
      modifies this
      ensures Settled(paused) && report.scanned == old(report).scanned
      ensures wiring.manualDecisions && (decision.InspectionFailed? || decision.AmbiguityAccepted?) ==>
                && acts == old(acts) && finalizedDispatches == old(finalizedDispatches)
                && report == Tally(old(report), if decision.InspectionFailed? then Human(true) else AcceptedAmbiguity)
      ensures accepted == old(accepted) + if wiring.manualDecisions && decision.AmbiguityAccepted? then 1 else 0
    {
      if wiring.manualDecisions && decision.InspectionFailed? {
        Count(Human(true), paused);
      } else if wiring.manualDecisions && decision.AmbiguityAccepted? {
        report := Tally(report, AcceptedAmbiguity);
        accepted := accepted + 1;
      } else {
        var read: Option<PublicationContext> := Arbitrary();
        var category := ReconcileOutbox(read, paused);
      }
    }

    /** The whole pass: it scans every outbox and every execution that is stale when looked
        at, accounts for each, acts only within its fences, publishes nothing while paused
        and replays each finalizer at most once. `clock` is the instant each execution is
        looked at; a pause that is not known to be off counts as on. */
    method RunOnce(settingsPaused: Option<bool>, executions: seq<Execution>, clock: nat -> int, outboxes: seq<Outbox>,
                   pageSize: PageSize)
      requires report == EMPTY_REPORT && acts == [] && accepted == 0 && finalizedDispatches == {}
      modifies this
      ensures Settled(settingsPaused != Some(false))
      ensures report.scanned == StaleAmong(executions, clock, |executions|) + |outboxes|
      ensures settingsPaused != Some(false) ==> forall k | 0 <= k < |acts| :: !acts[k].Publishes?
    {
      var paused := settingsPaused != Some(false);
      var read := ReadAllPages(executions, pageSize);
      for k := 0 to |read|
        invariant Settled(paused) && report.scanned == StaleAmong(executions, clock, k)
      {
        if IsStale(read[k], clock(k)) {
          report := report.(scanned := report.scanned + 1);
          var context: Option<RecoveryContext> := Arbitrary();
          var recovered: Answer<bool> := Arbitrary();
          var category := RecoverStaleExecution(context, recovered, paused);
        }
      }
      var readOutboxes := ReadAllPages(outboxes, pageSize);
      for k := 0 to |readOutboxes|
        invariant Settled(paused) && report.scanned == StaleAmong(executions, clock, |executions|) + k
      {
        report := report.(scanned := report.scanned + 1);
        var decision: ManualDecision := Arbitrary();
        InspectOutbox(decision, paused);
      }
    }
  }
}
