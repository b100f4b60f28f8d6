/** Deciding what became of an automation execution whose owner is gone
    (apps/api/src/commercial-automation-execution-recovery-service.ts,
     apps/api/src/commercial-recovery-coordinator.ts:166-238). */
module ExecutionRecovery {
  import opened Wrappers
  import opened DispatchStore

  // ---------------------------------------------------------------------------
  // The evidence read
  // ---------------------------------------------------------------------------

  /** A stored field as read: perhaps not selected at all, else null or a value. */
  datatype Evidence<T> = Unread | Known(value: Option<T>)

  predicate IsNull<T>(e: Evidence<T>) {
    e.Known? && e.value.None?
  }

  datatype ExecutionStatus = ExecutionStarted | ExecutionQueued | ExecutionFailed | ExecutionAmbiguous | ExecutionOther

  datatype ExternalStage = NotReached | ExternalMayHaveStarted

  datatype Execution = Execution(
    id: string,
    status: ExecutionStatus,
    sends: bool,
    externalStage: ExternalStage,
    commercialRunId: Option<string>,
    failureCode: Option<string>,
    activeKey: Option<string>,
    ownerId: Option<string>,
    heartbeatAt: Option<int>,
    leaseExpiresAt: Option<int>,
    completedAt: Option<int>)

  datatype SeenDispatch = SeenDispatch(
    id: string,
    status: DispatchStatus,
    attemptCount: nat,
    instanceName: Option<string>,
    errorMessage: Option<ErrorMessage>,
    externalMessageId: Evidence<string>,
    sentAt: Evidence<int>,
    assignedInstance: Option<string>,
    assignedInstances: Option<seq<string>>)

  datatype SeenRun = SeenRun(
    id: string,
    confirmed: bool,
    status: RunStatus,
    dispatchId: Option<string>,
    jobId: Option<string>,
    instanceName: Option<string>,
    finalStatus: Option<FinalStatus>,
    investigationRequired: bool,
    dispatch: Option<SeenDispatch>,
    outbox: Option<Outbox>)

  datatype RecoveryContext = RecoveryContext(execution: Execution, run: Option<SeenRun>)

  predicate IsStale(e: Execution, now: int) {
    && e.status.ExecutionStarted?
    && (e.activeKey.None? || e.ownerId.None? || e.heartbeatAt.None? || e.leaseExpiresAt.None?
        || e.leaseExpiresAt.value <= now)
  }

  // ---------------------------------------------------------------------------
  // The coordinator's view
  // ---------------------------------------------------------------------------

  predicate HasExternalUncertainty(c: RecoveryContext) {
    || c.execution.externalStage.ExternalMayHaveStarted?
    || (c.run.Some?
        && var run := c.run.value;
           || run.investigationRequired
           || run.finalStatus == Some(FinalAmbiguous)
           || (run.dispatch.Some?
               && var d := run.dispatch.value;
                  || !IsNull(d.externalMessageId) || !IsNull(d.sentAt)
                  || d.status.Processing? || d.status.Submitted? || d.status.Ambiguous?)
           || (run.outbox.Some? && run.outbox.value.status.OutboxAmbiguous?))
  }

  predicate HasNoSendEvidence(run: SeenRun) {
    run.dispatchId.None? && run.jobId.None? && run.dispatch.None? && run.outbox.None?
  }

  /** An outbox still to be handled, pending or published but not confirmed sent. */
  predicate LeavesToOutbox(run: SeenRun) {
    && run.outbox.Some?
    && (|| run.outbox.value.status.OutboxPending?
        || (run.outbox.value.status.OutboxPublished?
            && !(run.dispatch.Some? && IsConfirmed(run.dispatch.value.status))))
  }

  predicate IsSafeExecutionRecovery(c: RecoveryContext) {
    if HasExternalUncertainty(c) then false
    else if c.run.None? then c.execution.commercialRunId.None?
    else
      var run := c.run.value;
      if || run.dispatch.Some? != run.outbox.Some?
         || (run.dispatch.Some? && run.dispatchId != Some(run.dispatch.value.id))
         || (run.outbox.Some?
             && (|| run.id != run.outbox.value.commercialRunId
                 || run.dispatchId != Some(run.outbox.value.dispatchId)
                 || (run.jobId.Some? && run.jobId != Some(run.outbox.value.jobId))))
      then false
      else if run.confirmed && !c.execution.sends then false
      else if LeavesToOutbox(run) then false
      else if run.dispatch.Some? && run.dispatch.value.attemptCount > 0 then
        IsConfirmed(run.dispatch.value.status) || run.dispatch.value.status.Failed?
      else if !run.confirmed then
        c.execution.commercialRunId == Some(run.id) && HasNoSendEvidence(run)
      else
        run.dispatch.Some? && run.dispatch.value.status.Failed? && run.finalStatus == Some(FinalFailed)
  }

  /** Nothing external shows exactly if the execution did not reach it and its run is settled or
      under way with a dispatch that was read and carries no evidence. Such an execution is left
      to its outbox if that is pending, or published without a confirmed dispatch. */
  lemma CertainExactlyWhen(c: RecoveryContext)
    ensures !HasExternalUncertainty(c)
       <==> && c.execution.externalStage == NotReached
            && (c.run.Some? ==>
                  var run := c.run.value;
                  && !run.investigationRequired && run.finalStatus != Some(FinalAmbiguous)
                  && (run.outbox.Some? ==> run.outbox.value.status in {OutboxPending, OutboxPublished})
                  && (run.dispatch.Some? ==>
                        && run.dispatch.value.externalMessageId == Known(None) && run.dispatch.value.sentAt == Known(None)
                        && run.dispatch.value.status in {Pending, Sent, Delivered, Read, Failed}))
    ensures c.run.Some? ==>
              (LeavesToOutbox(c.run.value)
               <==> var run := c.run.value;
                    && run.outbox.Some? && run.outbox.value.status != OutboxAmbiguous
                    && (run.outbox.value.status == OutboxPublished && run.dispatch.Some? ==>
                          run.dispatch.value.status !in {Sent, Delivered, Read}))
  {
  }

  /** Nothing external shows, and either nothing was recorded, or a dry run without a trace of
      a send, or a send that is confirmed although no identifier and no instant were stored. */
  ghost predicate HasSafeTrace(c: RecoveryContext) {
    && c.execution.externalStage == NotReached
    && match c.run
       case None => c.execution.commercialRunId == None
       case Some(run) =>
         && !run.investigationRequired && run.finalStatus != Some(FinalAmbiguous)
         && (|| (&& !run.confirmed && c.execution.commercialRunId == Some(run.id)
                 && run.dispatchId == None && run.jobId == None && run.dispatch == None && run.outbox == None)
             || (&& run.dispatch.Some? && run.outbox.Some? && (run.confirmed ==> c.execution.sends)
                 && var d, o := run.dispatch.value, run.outbox.value;
                    && d.status in {Sent, Delivered, Read} && d.attemptCount > 0
                    && d.externalMessageId == Known(None) && d.sentAt == Known(None)
                    && o.status == OutboxPublished && o.commercialRunId == run.id
                    && run.dispatchId == Some(d.id) == Some(o.dispatchId) && run.jobId in {None, Some(o.jobId)}))
  }

  /** What the pass deems safe to recover is exactly that: of a send it can only be one that
      is confirmed without the evidence a confirmation comes with. */
  lemma SafeExactlyWhen(c: RecoveryContext)
    ensures IsSafeExecutionRecovery(c) <==> HasSafeTrace(c)
  {
  }

  // ---------------------------------------------------------------------------
  // Sticky identities (apps/api/src/commercial-instance-stickiness.ts:65-147)
  // ---------------------------------------------------------------------------

  /** `Mismatch` stands for the error raised. */
  datatype Identity = Agreed(name: Option<string>) | Mismatch

  predicate HasDuplicates(names: seq<string>) {
    exists j, k :: 0 <= j < k < |names| && names[j] == names[k]
  }

  /** The names of the records that count. */
  function Lifecycle(run: SeenRun, jobCounts: bool, job: Option<string>): (names: seq<Option<string>>)
    ensures |names| == if jobCounts then 4 else 3
  {
    [run.instanceName,
     if run.dispatch.Some? then run.dispatch.value.instanceName else None,
     if run.outbox.Some? then run.outbox.value.instanceName else None]
    + if jobCounts then [job] else []
  }

  /** The check over those names, and over all with the one assigned. */
  function AssertOneName(ordered: Option<seq<string>>, lifecycle: seq<Option<string>>, values: seq<Option<string>>): Identity
    requires values != []
  {
    if ordered.Some? && (ordered.value == [] || "" in ordered.value || HasDuplicates(ordered.value)) then Mismatch
    else if !(exists v :: v in lifecycle && v != None) then Agreed(None)
    else if exists v :: v in values && v != values[0] then Mismatch
    else if ordered.Some? && (values[0].None? || values[0].value !in ordered.value) then Mismatch
    else Agreed(values[0])
  }

  function AssertSticky(run: SeenRun, job: Evidence<string>, allowMissingJob: bool): Identity {
    var ordered := if run.dispatch.Some? then run.dispatch.value.assignedInstances else None;
    var jobCounts := !allowMissingJob && !(ordered.Some? && job.Unread?);
    var lifecycle := Lifecycle(run, jobCounts, if job.Known? then job.value else None);
    AssertOneName(ordered, lifecycle,
                  if run.dispatch.Some? && ordered.None? then lifecycle + [run.dispatch.value.assignedInstance] else lifecycle)
  }

  /** Every record of the send names the same instance, or none does; an instance named is
      the one assigned to the group, or among those assigned. */
  ghost predicate NameTheSame(run: SeenRun, jobCounts: bool, job: Option<string>, name: Option<string>)
    requires run.dispatch.Some? && run.outbox.Some?
  {
    var d := run.dispatch.value;
    && run.instanceName == name && d.instanceName == name && run.outbox.value.instanceName == name
    && (jobCounts ==> job == name)
    && match d.assignedInstances
       case None => name.Some? ==> d.assignedInstance == name
       case Some(names) =>
         && names != [] && "" !in names && (forall j, k | 0 <= j < k < |names| :: names[j] != names[k])
         && (name.Some? ==> name.value in names)
  }

  /** A list names one thing if it names it everywhere. */
  lemma OneValue(values: seq<Option<string>>, name: Option<string>)
    requires values != []
    ensures values[0] == name && !(exists v :: v in values && v != values[0])
       <==> forall k | 0 <= k < |values| :: values[k] == name
  {
    if values[0] == name && !(exists v :: v in values && v != values[0]) {
      forall k | 0 <= k < |values| ensures values[k] == name {
        assert values[k] in values;
      }
    }
  }

  lemma LifecycleNames(run: SeenRun, counts: bool, job: Option<string>, name: Option<string>)
    requires run.dispatch.Some? && run.outbox.Some?
    ensures (forall k | 0 <= k < |Lifecycle(run, counts, job)| :: Lifecycle(run, counts, job)[k] == name)
       <==> && run.instanceName == name && run.dispatch.value.instanceName == name
            && run.outbox.value.instanceName == name && (counts ==> job == name)
    ensures (exists v :: v in Lifecycle(run, counts, job) && v != None)
       <==> !(forall k | 0 <= k < |Lifecycle(run, counts, job)| :: Lifecycle(run, counts, job)[k] == None)
  {
    var names := Lifecycle(run, counts, job);
    assert names[0] == run.instanceName && names[1] == run.dispatch.value.instanceName;
    assert names[2] == run.outbox.value.instanceName && (counts ==> names[3] == job);
    forall k | 0 <= k < |names| ensures names[k] in names {
    }
  }

  /** The job's own name counts unless it may be missing, or was not looked at for a group
      with an ordered list. */
  lemma AgreedExactlyWhen(run: SeenRun, job: Evidence<string>, allowMissingJob: bool, name: Option<string>)
    requires run.dispatch.Some? && run.outbox.Some?
    ensures AssertSticky(run, job, allowMissingJob) == Agreed(name)
       <==> NameTheSame(run, !allowMissingJob && (job.Known? || run.dispatch.value.assignedInstances.None?),
                        if job.Known? then job.value else None, name)
  {
    var d, jobName := run.dispatch.value, if job.Known? then job.value else None;
    var lifecycle := Lifecycle(run, !allowMissingJob && (job.Known? || d.assignedInstances.None?), jobName);
    LifecycleNames(run, !allowMissingJob && (job.Known? || d.assignedInstances.None?), jobName, name);
    OneValue(lifecycle, name);
    if d.assignedInstances.None? {
      var values := lifecycle + [d.assignedInstance];
      OneValue(values, name);
      assert forall k | 0 <= k < |lifecycle| :: values[k] == lifecycle[k];
      assert values[|lifecycle|] == d.assignedInstance;
    }
  }

  // ---------------------------------------------------------------------------
  // The recovery service
  // ---------------------------------------------------------------------------

  datatype JobLookup = Unreadable | Absent | Present(job: Job)

  datatype Decision = Decision(status: ExecutionStatus, failureCode: Option<string>)

  const ABANDONED_SAFE: string := "COMMERCIAL_EXECUTION_ABANDONED_SAFE"
  const RECOVERY_AMBIGUOUS: string := "COMMERCIAL_EXECUTION_RECOVERY_AMBIGUOUS"
  const DISPATCH_FAILED: string := "COMMERCIAL_EXECUTION_DISPATCH_FAILED"

  const UNCERTAIN_OUTCOME: Decision := Decision(ExecutionAmbiguous, Some(RECOVERY_AMBIGUOUS))
  const ABANDONED: Decision := Decision(ExecutionFailed, Some(ABANDONED_SAFE))
  const QUEUED: Decision := Decision(ExecutionQueued, None)
  const SEND_FAILED: Decision := Decision(ExecutionFailed, Some(DISPATCH_FAILED))

  /** What `recover` does with an execution: one repository write, or an error. */
  datatype Action =
    | AlreadyTerminal
    | NotStale
    | RecoverPreMarkerReservation
    | RecoverPreConfirmationReservation
    | RecoverStale(decision: Decision)
    | ReconcileOutboxFirst
    | IdentityMismatch

  predicate BaseIdentitiesAreConsistent(c: RecoveryContext) {
    && c.run.Some?
    && var run := c.run.value;
       && run.dispatch.Some? && run.outbox.Some?
       && c.execution.commercialRunId == Some(run.id)
       && run.dispatchId == Some(run.dispatch.value.id)
       && run.dispatchId == Some(run.outbox.value.dispatchId)
       && run.id == run.outbox.value.commercialRunId
       && (run.jobId.None? || run.jobId == Some(run.outbox.value.jobId))
  }

  function ClassifyByJob(run: SeenRun, lookup: JobLookup): Action
    requires run.dispatch.Some? && run.outbox.Some?
  {
    var outbox := run.outbox.value;
    if lookup.Unreadable? then RecoverStale(UNCERTAIN_OUTCOME)
    else
      var idsMatch := lookup.Present? && lookup.job.id == outbox.jobId && lookup.job.dispatchId == outbox.dispatchId;
      var identity := if idsMatch then AssertSticky(run, Known(lookup.job.instanceName), true) else Agreed(None);
      if identity.Mismatch? then IdentityMismatch
      else
        var jobMatches := idsMatch && (identity.name.None? || lookup.job.instanceName == identity.name);
        if outbox.status.OutboxPending? then
          if lookup.Present? && !jobMatches then RecoverStale(UNCERTAIN_OUTCOME) else ReconcileOutboxFirst
        else RecoverStale(if jobMatches then QUEUED else UNCERTAIN_OUTCOME)
  }

  function Classify(c: RecoveryContext, lookup: JobLookup): Action {
    if c.execution.commercialRunId.None? then
      RecoverStale(if c.execution.externalStage.ExternalMayHaveStarted? then UNCERTAIN_OUTCOME else ABANDONED)
    else if c.run.None? then RecoverStale(UNCERTAIN_OUTCOME)
    else
      var run := c.run.value;
      if || run.finalStatus == Some(FinalAmbiguous)
         || run.investigationRequired
         || (run.outbox.Some? && run.outbox.value.status.OutboxAmbiguous?)
         || (run.dispatch.Some? && run.dispatch.value.status.Processing?)
      then RecoverStale(UNCERTAIN_OUTCOME)
      else if run.finalStatus == Some(FinalSent) || (run.dispatch.Some? && IsConfirmed(run.dispatch.value.status)) then
        RecoverStale(QUEUED)
      else if run.dispatch.Some? && run.dispatch.value.status.Failed? then RecoverStale(SEND_FAILED)
      else if !run.confirmed then
        RecoverStale(if HasNoSendEvidence(run) then ABANDONED else UNCERTAIN_OUTCOME)
      else if !BaseIdentitiesAreConsistent(c) then RecoverStale(UNCERTAIN_OUTCOME)
      else if run.dispatch.value.attemptCount > 0 then RecoverStale(UNCERTAIN_OUTCOME)
      else if run.outbox.value.status.OutboxPublished? && run.jobId != Some(run.outbox.value.jobId) then
        RecoverStale(UNCERTAIN_OUTCOME)
      else ClassifyByJob(run, lookup)
  }

  /** The job that validating the sticky identity found, if it looked. */
  datatype Validation = Validated(job: Option<Job>) | Rejected

  function ValidateStickyIdentity(c: RecoveryContext, lookup: JobLookup, instanceIsActive: bool): Validation {
    if c.run.None? || (!c.run.value.confirmed && HasNoSendEvidence(c.run.value)) then Validated(None)
    else
      var run := c.run.value;
      if run.outbox.Some? && run.outbox.value.status.OutboxPending? && run.jobId.None? then
        var identity := AssertSticky(run, Unread, true);
        if identity.Mismatch? then Rejected
        else if identity.name.None? then Validated(None)
        else if lookup.Unreadable? || (lookup.Present? && lookup.job.instanceName != identity.name) then Rejected
        else Validated(None)
      else
        var persisted := AssertSticky(run, Unread, false);
        if persisted.Mismatch? then Rejected
        else if persisted.name.None? then Validated(None)
        else if run.dispatch.None? || run.outbox.None? || run.jobId.None? || lookup.Unreadable? then Rejected
        else
          var identity := AssertSticky(run, if lookup.Present? then Known(lookup.job.instanceName) else Unread, false);
          if identity.Mismatch? then Rejected
          else if identity.name.None? then Validated(None)
          else if !instanceIsActive || !lookup.Present? || lookup.job.id != run.outbox.value.jobId
                  || lookup.job.dispatchId != run.outbox.value.dispatchId
                  || lookup.job.instanceName != identity.name
          then Rejected
          else Validated(Some(lookup.job))
  }

  /** The queue is asked once by each check that needs it, so it may answer differently. */
  function Recover(c: RecoveryContext, now: int, first: JobLookup, second: JobLookup, instanceIsActive: bool): Action {
    if !c.execution.status.ExecutionStarted? then AlreadyTerminal
    else if !IsStale(c.execution, now) then NotStale
    else if c.execution.externalStage.NotReached? && c.execution.commercialRunId.None? then RecoverPreMarkerReservation
    else if && c.run.Some? && !c.run.value.confirmed
            && c.execution.commercialRunId == Some(c.run.value.id) && HasNoSendEvidence(c.run.value) then
      RecoverPreConfirmationReservation
    else
      var validation := ValidateStickyIdentity(c, first, instanceIsActive);
      if validation.Rejected? then IdentityMismatch
      else Classify(c, if validation.job.Some? then Present(validation.job.value) else second)
  }

  // ---------------------------------------------------------------------------
  // The two views agree
  // ---------------------------------------------------------------------------

  /** Whatever the coordinator deems safe is decided queued or failed: classification
      never calls it ambiguous and never asks for the outbox first. */
  lemma SafeIsDecided(c: RecoveryContext, lookup: JobLookup)
    requires IsSafeExecutionRecovery(c)
    ensures Classify(c, lookup) in {RecoverStale(QUEUED), RecoverStale(SEND_FAILED), RecoverStale(ABANDONED)}
  {
  }

  /** In full: a safe stale execution is released, or decided, or stopped by an identity
      mismatch; and it is decided queued exactly when it was recorded as sent. */
  lemma SafeRecoveryAgrees(c: RecoveryContext, now: int, first: JobLookup, second: JobLookup, instanceIsActive: bool)
    requires IsSafeExecutionRecovery(c) && IsStale(c.execution, now)
    ensures var a := Recover(c, now, first, second, instanceIsActive);
      && (a.RecoverPreMarkerReservation? || a.RecoverPreConfirmationReservation? || a.IdentityMismatch?
          || a == RecoverStale(QUEUED) || a == RecoverStale(SEND_FAILED))
      && (a == RecoverStale(QUEUED) ==> c.run.Some? && (c.run.value.finalStatus == Some(FinalSent)
                                        || (c.run.value.dispatch.Some? && IsConfirmed(c.run.value.dispatch.value.status))))
      && (a == RecoverStale(SEND_FAILED) ==> c.run.value.dispatch.Some? && c.run.value.dispatch.value.status.Failed?)
  {
    var v := ValidateStickyIdentity(c, first, instanceIsActive);
    if v.Validated? {
      SafeIsDecided(c, if v.job.Some? then Present(v.job.value) else second);
    }
  }

  /** Nothing about the run is marked uncertain. */
  ghost predicate IsQuiet(run: SeenRun) {
    && run.finalStatus != Some(FinalAmbiguous) && !run.investigationRequired
    && (run.outbox.Some? ==> run.outbox.value.status != OutboxAmbiguous)
    && (run.dispatch.Some? ==> run.dispatch.value.status != Processing)
  }

  ghost predicate IsRecordedSent(run: SeenRun) {
    run.finalStatus == Some(FinalSent) || (run.dispatch.Some? && run.dispatch.value.status in {Sent, Delivered, Read})
  }

  /** The confirmed send was never attempted, and its records belong together. */
  ghost predicate IsUnattempted(c: RecoveryContext, run: SeenRun) {
    && run.confirmed && run.dispatch.Some? && run.outbox.Some?
    && var d, o := run.dispatch.value, run.outbox.value;
       && d.status != Failed && d.attemptCount == 0
       && c.execution.commercialRunId == Some(run.id) == Some(o.commercialRunId)
       && run.dispatchId == Some(d.id) == Some(o.dispatchId) && run.jobId in {None, Some(o.jobId)}
  }

  /** The queue holds the job of the outbox, for the one instance all records name. */
  ghost predicate ShowsOwnJob(run: SeenRun, lookup: JobLookup)
    requires run.dispatch.Some? && run.outbox.Some?
  {
    && lookup.Present?
    && lookup.job.id == run.outbox.value.jobId && lookup.job.dispatchId == run.outbox.value.dispatchId
    && exists name :: NameTheSame(run, false, None, name) && (name.Some? ==> lookup.job.instanceName == name)
  }

  lemma OwnJobByName(run: SeenRun, lookup: JobLookup)
    requires run.dispatch.Some? && run.outbox.Some? && lookup.Present?
    ensures var identity := AssertSticky(run, Known(lookup.job.instanceName), true);
      && (identity.Mismatch? ==> !ShowsOwnJob(run, lookup))
      && (identity.Agreed? ==>
            (ShowsOwnJob(run, lookup)
             <==> && lookup.job.id == run.outbox.value.jobId && lookup.job.dispatchId == run.outbox.value.dispatchId
                  && (identity.name.Some? ==> lookup.job.instanceName == identity.name)))
  {
    var identity := AssertSticky(run, Known(lookup.job.instanceName), true);
    forall name ensures identity == Agreed(name) <==> NameTheSame(run, false, None, name) {
      AgreedExactlyWhen(run, Known(lookup.job.instanceName), true, name);
    }
    if identity.Agreed? {
      assert NameTheSame(run, false, None, identity.name);
    }
  }

  /** A send is validated only if its records name no instance at all; or it is pending without
      a job, they name one, and the queue could be read and shows no job under another; or they
      name one that is active, and the queue shows the outbox's own job under the same name. */
  lemma ValidatedOnlyIfIdentified(c: RecoveryContext, lookup: JobLookup, instanceIsActive: bool)
    requires c.run.Some? && c.run.value.dispatch.Some? && c.run.value.outbox.Some?
    ensures var run, v := c.run.value, ValidateStickyIdentity(c, lookup, instanceIsActive);
      && (v.Validated? && v.job.None? ==>
            || NameTheSame(run, false, None, None)
            || (&& run.outbox.value.status == OutboxPending && run.jobId == None && !lookup.Unreadable?
                && exists name :: NameTheSame(run, false, None, Some(name))
                                  && (lookup.Present? ==> lookup.job.instanceName == Some(name))))
      && (v.Validated? && v.job.Some? ==>
            var job := v.job.value;
            && lookup == Present(job) && instanceIsActive && run.jobId.Some?
            && job.id == run.outbox.value.jobId && job.dispatchId == run.outbox.value.dispatchId
            && job.instanceName.Some? && NameTheSame(run, true, job.instanceName, job.instanceName))
      && (NameTheSame(run, false, None, None) ==> v == Validated(None))
  {
    var run := c.run.value;
    AgreedExactlyWhen(run, Unread, true, None);
    AgreedExactlyWhen(run, Unread, false, None);
    var pending := AssertSticky(run, Unread, true);
    var persisted := AssertSticky(run, Unread, false);
    var shown := AssertSticky(run, if lookup.Present? then Known(lookup.job.instanceName) else Unread, false);
    if pending.Agreed? {
      AgreedExactlyWhen(run, Unread, true, pending.name);
    }
    if persisted.Agreed? {
      AgreedExactlyWhen(run, Unread, false, persisted.name);
    }
    if shown.Agreed? && lookup.Present? {
      AgreedExactlyWhen(run, Known(lookup.job.instanceName), false, shown.name);
    }
  }

  /** Exactly when a send is decided queued, failed, or left to its outbox: queued, if it is
      recorded as sent, or was never attempted and is published with its own job in the
      queue; failed, if the dispatch failed; to the outbox, if that is pending and the queue
      could be read and holds nothing else. */
  lemma DecidedExactlyWhen(c: RecoveryContext, lookup: JobLookup)
    requires c.run.Some? && c.execution.commercialRunId.Some?
    ensures var run, a := c.run.value, Classify(c, lookup);
      && (a == RecoverStale(QUEUED)
          <==> && IsQuiet(run)
               && (|| IsRecordedSent(run)
                   || (&& IsUnattempted(c, run)
                       && run.outbox.value.status == OutboxPublished && run.jobId == Some(run.outbox.value.jobId)
                       && ShowsOwnJob(run, lookup))))
      && (a == RecoverStale(SEND_FAILED)
          <==> IsQuiet(run) && !IsRecordedSent(run) && run.dispatch.Some? && run.dispatch.value.status == Failed)
      && (a == ReconcileOutboxFirst
          <==> && IsQuiet(run) && !IsRecordedSent(run) && IsUnattempted(c, run)
               && run.outbox.value.status == OutboxPending
               && !lookup.Unreadable? && (lookup.Present? ==> ShowsOwnJob(run, lookup)))
      && (a == RecoverStale(ABANDONED)
          <==> && IsQuiet(run) && !IsRecordedSent(run) && !run.confirmed
               && run.dispatchId == None && run.jobId == None && run.dispatch == None && run.outbox == None)
  {
    if c.run.value.dispatch.Some? && c.run.value.outbox.Some? && lookup.Present? {
      OwnJobByName(c.run.value, lookup);
    }
  }

  /** An execution is left alone exactly as long as it runs under an owner whose lease has not
      run out; one that is stale stays so. */
  lemma StaleExactlyWhen(e: Execution, now: int)
    ensures !IsStale(e, now)
       <==> || e.status != ExecutionStarted
            || (&& e.activeKey.Some? && e.ownerId.Some? && e.heartbeatAt.Some?
                && e.leaseExpiresAt.Some? && now < e.leaseExpiresAt.value)
    ensures forall later | now <= later :: IsStale(e, now) ==> IsStale(e, later)
  {
  }

  /** What the decision on an execution with a dispatch rests on. */
  lemma DecisionRestsOn(c: RecoveryContext, lookup: JobLookup)
    requires c.run.Some? && c.run.value.dispatch.Some? && c.execution.commercialRunId.Some?
    ensures var d, decision := c.run.value.dispatch.value, Classify(c, lookup);
      && (decision == RecoverStale(QUEUED) ==>
            c.run.value.finalStatus == Some(FinalSent) || IsConfirmed(d.status) || d.attemptCount == 0)
      && (decision == RecoverStale(SEND_FAILED) ==> d.status.Failed?)
      && decision != RecoverStale(ABANDONED)
  {
  }

  predicate Abandons(a: Action) {
    a.RecoverPreMarkerReservation? || a.RecoverPreConfirmationReservation? || a == RecoverStale(ABANDONED)
  }

  /** An execution is abandoned as safe exactly when no run was ever recorded and nothing
      external was reached, or when its run is a dry run without any trace of a send. */
  lemma AbandonedExactlyWhenNothingHappened(c: RecoveryContext, now: int, first: JobLookup, second: JobLookup,
                                            instanceIsActive: bool)
    requires IsStale(c.execution, now)
    requires c.run.Some? ==> c.execution.commercialRunId == Some(c.run.value.id)
    ensures Abandons(Recover(c, now, first, second, instanceIsActive))
       <==> || (c.execution.commercialRunId.None? && c.execution.externalStage.NotReached?)
            || (c.run.Some? && !c.run.value.confirmed && HasNoSendEvidence(c.run.value))
  {
  }

  /** With the external stage reached and no run to look at, the outcome is always
      ambiguous, whatever the queue says. */
  lemma ReachedWithoutRunIsAmbiguous(c: RecoveryContext, now: int, first: JobLookup, second: JobLookup,
                                     instanceIsActive: bool)
    requires IsStale(c.execution, now) && c.run.None? && c.execution.externalStage.ExternalMayHaveStarted?
    ensures Recover(c, now, first, second, instanceIsActive) == RecoverStale(UNCERTAIN_OUTCOME)
  {
  }

  // ---------------------------------------------------------------------------
  // A failure proved to be before any external request
  // ---------------------------------------------------------------------------

  const SAFE_PRE_EXTERNAL_SEND_FAILURE: string := "COMMERCIAL_EXECUTION_SAFE_PRE_EXTERNAL_SEND_FAILURE"

  predicate IsPersistedSafePreExternalFailure(c: RecoveryContext) {
    && c.execution.status.ExecutionFailed?
    && c.execution.failureCode == Some(SAFE_PRE_EXTERNAL_SEND_FAILURE)
    && c.execution.sends
    && c.execution.externalStage.NotReached?
    && c.execution.activeKey.None?
    && c.execution.completedAt.Some?
    && c.run.Some?
    && var run := c.run.value;
       && run.dispatch.Some? && run.outbox.Some?
       && c.execution.commercialRunId == Some(run.id)
       && run.confirmed
       && run.finalStatus == Some(FinalFailed) && !run.investigationRequired && run.status.RunFailed?
       && run.dispatchId == Some(run.dispatch.value.id)
       && run.jobId == Some(run.outbox.value.jobId)
       && run.outbox.value.commercialRunId == run.id
       && run.outbox.value.dispatchId == run.dispatch.value.id
       && run.outbox.value.status.OutboxPublished?
       && run.dispatch.value.errorMessage == Some(SafePreExternalFailure)
       && run.dispatch.value.status.Failed?
       && run.dispatch.value.attemptCount == 1
       && IsNull(run.dispatch.value.externalMessageId) && IsNull(run.dispatch.value.sentAt)
  }
}
