/** Publishers, senders, finalizers and crashes acting on one dispatch, as a state machine
    (apps/api/src/commercial-dispatch-outbox-publisher.ts, apps/api/src/sender-service.ts).

    Each label is one atomic read or write of one process, or something the environment
    does. A process that crashes, or whose repository call fails, takes no further step. */
module DispatchProtocol {
  import opened Wrappers
  import opened DispatchStore

  // ---------------------------------------------------------------------------
  // The publisher's decisions
  // ---------------------------------------------------------------------------

  const INCONSISTENT: string := "COMMERCIAL_OUTBOX_INCONSISTENT"
  const UNCERTAIN: string := "COMMERCIAL_OUTBOX_PUBLICATION_UNCERTAIN"
  const UNSAFE: string := "COMMERCIAL_OUTBOX_DISPATCH_UNSAFE"

  predicate IdentitiesAreConsistent(c: Context) {
    && c.run.instanceName == c.outbox.instanceName
    && c.dispatch.instanceName == c.outbox.instanceName
    && c.run.id == c.outbox.commercialRunId
    && c.run.confirmed
    && c.run.dispatchId == Some(c.outbox.dispatchId)
    && c.dispatch.id == c.outbox.dispatchId
  }

  predicate PendingRunIsSafe(c: Context) {
    && c.run.status.RunStarted?
    && c.run.finalStatus.FinalPending?
    && !c.run.investigationRequired
    && (c.run.jobId.None? || c.run.jobId == Some(c.outbox.jobId))
  }

  predicate PendingDispatchIsSafe(c: Context) {
    && c.dispatch.status.Pending?
    && c.dispatch.attemptCount == 0
    && c.dispatch.externalMessageId.None?
    && c.dispatch.sentAt.None?
  }

  predicate JobMatchesOutbox(job: Job, outbox: Outbox) {
    job.id == outbox.jobId && job.dispatchId == outbox.dispatchId && job.instanceName == outbox.instanceName
  }

  function JobOf(outbox: Outbox): Job {
    Job(outbox.jobId, outbox.dispatchId, outbox.instanceName)
  }

  datatype Outcome =
    | Returned(outbox: Outbox)
    | ThrewAmbiguous
    | ThrewSentMetadataPending

  datatype PublisherStage =
    | ReadingJob(context: Context)
    | Enqueueing(context: Context)
    | RereadingJob(context: Context)
    | Marking(context: Context)
    | Rechecking(context: Context)
    | Failing(failureCode: string)
    | PublisherDone(outcome: Outcome)

  function AfterContext(c: Context): PublisherStage {
    if c.outbox.status.OutboxAmbiguous? then PublisherDone(ThrewAmbiguous)
    else if !IdentitiesAreConsistent(c) then
      if IsConfirmed(c.dispatch.status) then PublisherDone(ThrewSentMetadataPending) else Failing(INCONSISTENT)
    else ReadingJob(c)
  }

  function AfterJob(c: Context, job: Option<Job>): PublisherStage {
    if job.Some? && !JobMatchesOutbox(job.value, c.outbox) then
      if IsConfirmed(c.dispatch.status) then PublisherDone(ThrewSentMetadataPending) else Failing(INCONSISTENT)
    else if IsConfirmed(c.dispatch.status) then
      if c.outbox.status.OutboxPublished? && job.Some? && c.run.jobId == Some(c.outbox.jobId)
      then PublisherDone(Returned(c.outbox))
      else PublisherDone(ThrewSentMetadataPending)
    else if c.outbox.status.OutboxPublished? && (job.None? || c.run.jobId != Some(c.outbox.jobId)) then Failing(INCONSISTENT)
    else if c.outbox.status.OutboxPublished? then PublisherDone(Returned(c.outbox))
    else if !PendingRunIsSafe(c) then Failing(INCONSISTENT)
    else if !PendingDispatchIsSafe(c) then Failing(UNSAFE)
    else if job.None? then Enqueueing(c)
    else Marking(c)
  }

  /** After an enqueue that failed, perhaps having added the job. */
  function AfterReread(c: Context, job: Option<Job>): PublisherStage {
    if job.None? then Failing(UNCERTAIN)
    else if !JobMatchesOutbox(job.value, c.outbox) then Failing(INCONSISTENT)
    else Marking(c)
  }

  /** After a mark that found the outbox or the run changed. */
  function AfterRecheck(c: Context, current: Context): PublisherStage {
    if && current.outbox.status.OutboxPublished?
       && current.outbox.commercialRunId == c.outbox.commercialRunId
       && current.outbox.dispatchId == c.outbox.dispatchId
       && current.outbox.jobId == c.outbox.jobId
       && current.run.id == c.outbox.commercialRunId
       && current.run.jobId == Some(c.outbox.jobId)
       && current.dispatch.id == c.outbox.dispatchId
    then PublisherDone(Returned(current.outbox))
    else if IsConfirmed(current.dispatch.status) then PublisherDone(ThrewSentMetadataPending)
    else Failing(INCONSISTENT)
  }

  // ---------------------------------------------------------------------------
  // Processes
  // ---------------------------------------------------------------------------

  /** How a call to the provider ended. An uncertain call may have delivered the message. */
  datatype CallOutcome = Accepted(externalMessageId: string) | RejectedBeforeStart | Unknown(delivered: bool)

  /** `ticket` is the attempt count its claim produced. */
  datatype SenderStage =
    | Preparing
    | Armed(ticket: nat)
    | Submitting(ticket: nat, externalMessageId: string)
    | SafeFailing(ticket: nat)
    | SenderDone

  datatype FinalizerStage = Resolving(attempt: nat) | Writing(kind: FinalizationKind, attempt: nat) | FinalizerDone

  datatype Process =
    | Publisher(publisher: PublisherStage)
    | Sender(sender: SenderStage)
    | Finalizer(finalizer: FinalizerStage)

  datatype Call = Call(ticket: nat, outcome: CallOutcome)

  /** The stored records, every process ever started, and every call to the provider. */
  datatype State = State(store: Store, procs: map<nat, Process>, calls: seq<Call>)

  datatype Effect = Succeeds | FailsBefore | FailsAfter

  datatype Label =
    // a publisher
    | PublisherReads(pid: nat)
    | PublisherReadsJob(pid: nat, readable: bool)
    | PublisherEnqueues(pid: nat, effect: Effect)
    | PublisherRereadsJob(pid: nat, readable: bool)
    | PublisherMarks(pid: nat, at: int)
    | PublisherRechecks(pid: nat)
    | PublisherFails(pid: nat)
    // a sender
    | SenderReads(pid: nat)
    | SenderClaims(pid: nat, routing: Routing)
    | SenderAborts(pid: nat, reason: ErrorMessage)
    | SenderIsRefused(pid: nat)
    | SenderCalls(pid: nat, outcome: CallOutcome)
    | SenderSubmits(pid: nat)
    | SenderMarksSafeFailure(pid: nat)
    // a finalizer of the run
    | FinalizerReads(pid: nat)
    | FinalizerWrites(pid: nat)
    // the environment
    | Crashes(pid: nat)
    | ProviderReports(externalMessageId: string, event: DeliveryEvent, at: int)
    | ConfirmationExpires
    | OperatorRearms
    | OperatorMarksInvestigation
    | JobIsDropped(jobId: string)

  predicate IsNew(s: State, pid: nat) {
    pid !in s.procs
  }

  function PublisherAt(s: State, pid: nat): Option<PublisherStage> {
    if pid in s.procs && s.procs[pid].Publisher? then Some(s.procs[pid].publisher) else None
  }

  function SenderAt(s: State, pid: nat): Option<SenderStage> {
    if pid in s.procs && s.procs[pid].Sender? then Some(s.procs[pid].sender) else None
  }

  function FinalizerAt(s: State, pid: nat): Option<FinalizerStage> {
    if pid in s.procs && s.procs[pid].Finalizer? then Some(s.procs[pid].finalizer) else None
  }

  function Publishes(s: State, pid: nat, store: Store, stage: PublisherStage): State {
    s.(store := store, procs := s.procs[pid := Publisher(stage)])
  }

  function Sends(s: State, pid: nat, store: Store, stage: SenderStage): State {
    s.(store := store, procs := s.procs[pid := Sender(stage)])
  }

  function Finalizes(s: State, pid: nat, store: Store, stage: FinalizerStage): State {
    s.(store := store, procs := s.procs[pid := Finalizer(stage)])
  }

  function PublisherStep(s: State, l: Label): Option<State>
    requires l.PublisherReads? || l.PublisherReadsJob? || l.PublisherEnqueues? || l.PublisherRereadsJob?
          || l.PublisherMarks? || l.PublisherRechecks? || l.PublisherFails?
  {
    var store := s.store;
    var stage := PublisherAt(s, l.pid);
    if l.PublisherReads? then
      if IsNew(s, l.pid) then Some(Publishes(s, l.pid, store, AfterContext(FindPublicationContext(store)))) else None
    else if stage.None? then None
    else match l
      case PublisherReadsJob(pid, readable) =>
        if !stage.value.ReadingJob? then None
        else
          var c := stage.value.context;
          Some(Publishes(s, pid, store,
                         if readable then AfterJob(c, GetJob(store, c.outbox.jobId)) else Failing(UNCERTAIN)))
      case PublisherEnqueues(pid, effect) =>
        if !stage.value.Enqueueing? then None
        else
          var c := stage.value.context;
          Some(Publishes(s, pid,
                         if effect.FailsBefore? then store else Enqueue(store, JobOf(c.outbox)),
                         if effect.Succeeds? then Marking(c) else RereadingJob(c)))
      case PublisherRereadsJob(pid, readable) =>
        if !stage.value.RereadingJob? then None
        else
          var c := stage.value.context;
          Some(Publishes(s, pid, store,
                         AfterReread(c, if readable then GetJob(store, c.outbox.jobId) else None)))
      case PublisherMarks(pid, at) =>
        if !stage.value.Marking? then None
        else
          var (store', published) := MarkPublished(store, at);
          Some(Publishes(s, pid, store',
                         if published.Some? then PublisherDone(Returned(published.value))
                         else Rechecking(stage.value.context)))
      case PublisherRechecks(pid) =>
        if !stage.value.Rechecking? then None
        else Some(Publishes(s, pid, store, AfterRecheck(stage.value.context, FindPublicationContext(store))))
      case PublisherFails(pid) =>
        if !stage.value.Failing? then None
        else Some(Publishes(s, pid, MarkOutboxAmbiguous(store, stage.value.failureCode), PublisherDone(ThrewAmbiguous)))
  }

  function SenderStep(s: State, l: Label): Option<State>
    requires l.SenderReads? || l.SenderClaims? || l.SenderAborts? || l.SenderIsRefused? || l.SenderCalls?
          || l.SenderSubmits? || l.SenderMarksSafeFailure?
  {
    var store := s.store;
    var stage := SenderAt(s, l.pid);
    if l.SenderReads? then
      if IsNew(s, l.pid)
      then Some(Sends(s, l.pid, store, if store.dispatch.status.Pending? then Preparing else SenderDone))
      else None
    else if stage.None? then None
    else match l
      case SenderClaims(pid, routing) =>
        if !stage.value.Preparing? then None
        else
          var (store', kind) := ClaimPendingForSending(store, routing);
          Some(Sends(s, pid, store', if kind.Claimed? then Armed(store'.dispatch.attemptCount) else SenderDone))
      // after the claim the instance turns out unassigned or inactive
      case SenderAborts(pid, reason) =>
        if !stage.value.Armed? || !(reason.InstanceMismatch? || reason.InstanceInactive?) then None
        else Some(Sends(s, pid, MarkFailed(store, reason), SenderDone))
      // a check just before the call reports that nothing was started
      case SenderIsRefused(pid) =>
        if !stage.value.Armed? then None
        else Some(Sends(s, pid, store, SafeFailing(stage.value.ticket)))
      case SenderCalls(pid, outcome) =>
        if !stage.value.Armed? then None
        else
          var ticket := stage.value.ticket;
          var next :=
            match outcome
            case Accepted(externalMessageId) => Submitting(ticket, externalMessageId)
            case RejectedBeforeStart => SafeFailing(ticket)
            case Unknown(_) => SenderDone;
          Some(Sends(s, pid, store, next).(calls := s.calls + [Call(ticket, outcome)]))
      case SenderSubmits(pid) =>
        if !stage.value.Submitting? then None
        else Some(Sends(s, pid, MarkSubmitted(store, stage.value.externalMessageId).0, SenderDone))
      case SenderMarksSafeFailure(pid) =>
        if !stage.value.SafeFailing? then None
        else Some(Sends(s, pid, MarkFailed(store, SafePreExternalFailure), SenderDone))
  }

  /** A finalizer reads the run and its dispatch, decides, and writes only if the run has
      not moved; it tries twice. */
  function FinalizerStep(s: State, l: Label): Option<State>
    requires l.FinalizerReads? || l.FinalizerWrites?
  {
    var store := s.store;
    var stage := if IsNew(s, l.pid) then Some(Resolving(0)) else FinalizerAt(s, l.pid);
    if stage.None? then None
    else match l
      case FinalizerReads(pid) =>
        if !stage.value.Resolving? then None
        else
          var kind := ResolveFinalizationKind(store.run, store.dispatch);
          Some(Finalizes(s, pid, store,
                         if !store.run.confirmed || IsFinalizationPersisted(store.run, kind) then FinalizerDone
                         else Writing(kind, stage.value.attempt)))
      case FinalizerWrites(pid) =>
        if !stage.value.Writing? then None
        else
          var (store', written) := WriteFinalization(store, stage.value.kind);
          Some(Finalizes(s, pid, store',
                         if written || stage.value.attempt == 1 then FinalizerDone else Resolving(1)))
  }


  function Apply(s: State, l: Label): Option<State> {
    match l
    case Crashes(pid) =>
      if pid in s.procs then Some(s.(procs := s.procs - {pid})) else None
    case ProviderReports(externalMessageId, event, at) =>
      Some(s.(store := ApplyDeliveryEvent(s.store, externalMessageId, event, at)))
    case ConfirmationExpires =>
      Some(s.(store := ExpireConfirmation(s.store)))
    case OperatorRearms =>
      if MayRearm(s.store) then Some(s.(store := Rearm(s.store))) else None
    // the confirmation command gives up waiting
    case OperatorMarksInvestigation =>
      Some(s.(store := MarkOutboxAmbiguous(s.store, DISPATCH_FAILED)))
    case JobIsDropped(jobId) =>
      Some(s.(store := s.store.(queue := s.store.queue - {jobId})))
    case FinalizerReads(_) => FinalizerStep(s, l)
    case FinalizerWrites(_) => FinalizerStep(s, l)
    case SenderReads(_) => SenderStep(s, l)
    case SenderClaims(_, _) => SenderStep(s, l)
    case SenderAborts(_, _) => SenderStep(s, l)
    case SenderIsRefused(_) => SenderStep(s, l)
    case SenderCalls(_, _) => SenderStep(s, l)
    case SenderSubmits(_) => SenderStep(s, l)
    case SenderMarksSafeFailure(_) => SenderStep(s, l)
    case _ => PublisherStep(s, l)
  }

  /** A run of the machine: every label in turn, if all are enabled. */
  function Execute(s: State, labels: seq<Label>): Option<State> {
    if labels == [] then Some(s)
    else
      var before := Execute(s, labels[..|labels| - 1]);
      if before.None? then None else Apply(before.value, labels[|labels| - 1])
  }

  /** A run made one label longer. */
  lemma Extend(start: State, labels: seq<Label>, s: State, l: Label) returns (longer: seq<Label>, s': State)
    requires Execute(start, labels) == Some(s) && Apply(s, l).Some?
    ensures longer == labels + [l] && Some(s') == Apply(s, l) == Execute(start, longer)
  {
    longer, s' := labels + [l], Apply(s, l).value;
    assert longer[..|labels|] == labels;
  }

  /** What the confirmation transaction leaves behind: nothing sent, nothing published. */
  ghost predicate Initial(s: State) {
    && s.procs == map[] && s.calls == []
    && !s.store.rearmed
    && s.store.outbox.status.OutboxPending?
    && var c := FindPublicationContext(s.store);
       IdentitiesAreConsistent(c) && PendingRunIsSafe(c) && PendingDispatchIsSafe(c)
       && c.dispatch.errorMessage.None?
  }
}
