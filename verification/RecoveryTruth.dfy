/** What a recovery decision says about the calls really made. */
module RecoveryTruth {
  import opened Wrappers
  import opened DispatchStore
  import opened DispatchProtocol
  import opened ProtocolSafety
  import opened SafetyTheorems
  import opened ExecutionRecovery
  import opened RecoveryCoordinator
  import opened FinalizationLaws

  /** The context shows the dispatch as it is stored, with all its evidence read. */
  ghost predicate Shows(c: RecoveryContext, store: Store) {
    && c.run.Some?
    && c.run.value.dispatch.Some?
    && c.run.value.finalStatus == Some(store.run.finalStatus)
    && c.run.value.investigationRequired == store.run.investigationRequired
    && c.run.value.jobId == store.run.jobId
    && c.run.value.outbox == Some(store.outbox)
    && var seen, d := c.run.value.dispatch.value, store.dispatch;
       && seen.id == d.id && seen.status == d.status && seen.attemptCount == d.attemptCount
       && seen.instanceName == d.instanceName && seen.errorMessage == d.errorMessage
       && seen.externalMessageId == Known(d.externalMessageId) && seen.sentAt == Known(d.sentAt)
  }

  /** Cleaning up after a persisted safe failure never removes a job whose dispatch may
      have been sent: in every reachable state that shows it, nothing was. */
  lemma PersistedSafeFailureSentNothing(start: State, labels: seq<Label>, c: RecoveryContext)
    requires Initial(start) && Execute(start, labels).Some?
    requires Shows(c, Execute(start, labels).value.store) && IsPersistedSafePreExternalFailure(c)
    ensures NothingStarted(Execute(start, labels).value)
    ensures forall pid, t: int :: !IsArmed(Execute(start, labels).value, pid, t)
  {
    SafeFailureIsSafe(start, labels);
  }

  /** The decision is true of the calls made so far: queued means confirmed, or published and
      not called at all, with the outbox's job found in the queue; failed means nothing was
      sent, or the provider itself reported a failure. */
  ghost predicate IsTrueOf(a: Action, lookup: JobLookup, s: State) {
    && (a == RecoverStale(QUEUED) ==>
          || IsConfirmed(s.store.dispatch.status)
          || (&& s.calls == [] && s.store.outbox.status.OutboxPublished?
              && s.store.run.jobId == Some(s.store.outbox.jobId)
              && lookup.Present? && lookup.job.id == s.store.outbox.jobId
              && lookup.job.dispatchId == s.store.outbox.dispatchId))
    && (a == RecoverStale(SEND_FAILED) ==>
          NothingStarted(s) || s.store.dispatch.errorMessage == Some(FailedBeforeServerAck))
    && a != RecoverStale(ABANDONED)
  }

  lemma DecisionIsTrueOf(s: State, c: RecoveryContext, lookup: JobLookup)
    requires Shows(c, s.store) && c.execution.commercialRunId.Some?
    requires |s.calls| <= s.store.dispatch.attemptCount
    requires s.store.run.finalStatus.FinalSent? ==> IsConfirmed(s.store.dispatch.status)
    requires !NothingStarted(s) ==> AdmitsASend(s.store.dispatch)
    ensures IsTrueOf(Classify(c, lookup), lookup, s)
  {
    DecidedExactlyWhen(c, lookup);
  }

  /** Unless an operator recovered the dispatch while a sender still held its claim or after
      a call that may have sent something, every decision of the recovery is true. */
  lemma DecisionsAreTrue(start: State, labels: seq<Label>, c: RecoveryContext, lookup: JobLookup)
    requires Initial(start) && Execute(start, labels).Some? && TrustOf(start, labels).clean
    requires Shows(c, Execute(start, labels).value.store) && c.execution.commercialRunId.Some?
    ensures IsTrueOf(Classify(c, lookup), lookup, Execute(start, labels).value)
  {
    var s := Execute(start, labels).value;
    AtMostOneCallPerAttempt(start, labels);
    RunsKeepInvariants(start, labels);
    DecisionIsTrueOf(s, c, lookup);
  }

  // ---------------------------------------------------------------------------
  // What the pass does
  // ---------------------------------------------------------------------------

  /** The publication context shows the records as they are stored. */
  ghost predicate ShowsPublication(c: PublicationContext, store: Store) {
    && c.outbox == store.outbox && c.run == store.run
    && var seen, d := c.dispatch, store.dispatch;
       && seen.id == d.id && seen.status == d.status && seen.attemptCount == d.attemptCount
       && seen.instanceName == d.instanceName && seen.errorMessage == d.errorMessage
       && seen.externalMessageId == Known(d.externalMessageId) && seen.sentAt == Known(d.sentAt)
  }

  /** An outbox that the pass publishes was never sent, and nobody is about to. */
  lemma PublishesOnlyTheUnsent(start: State, labels: seq<Label>, c: PublicationContext, linked: Option<RecoveryContext>,
                               found: Option<Job>, paused: bool)
    requires Initial(start) && Execute(start, labels).Some?
    requires ShowsPublication(c, Execute(start, labels).value.store) && IsFenced(Publishes(c, linked, found), paused)
    ensures Execute(start, labels).value.calls == [] && NobodyHolds(Execute(start, labels).value)
  {
    RunsKeepInvariants(start, labels);
  }

  /** A send whose finalizer the pass replays was accepted by the provider under the
      identifier shown, and finalizing it records the run as sent. */
  lemma ReplaysOnlyTheSent(start: State, labels: seq<Label>, c: PublicationContext, paused: bool, pid: nat)
    requires Initial(start) && Execute(start, labels).Some? && IsNew(Execute(start, labels).value, pid)
    requires ShowsPublication(c, Execute(start, labels).value.store) && IsFenced(Finalizes(c), paused)
    ensures var s := Execute(start, labels).value;
      && WasAccepted(s, c.dispatch.externalMessageId.value.value)
      && Finalized(s, pid).Some? && Finalized(s, pid).value.store.run.finalStatus.FinalSent?
  {
    ConfirmedWasAccepted(start, labels);
    EveryRunCanBeSettled(start, labels, pid);
  }

  /** A job that the pass removes belongs to a send that started nothing, and nobody is about
      to call the provider for it. */
  lemma RemovesOnlyTheUnsent(start: State, labels: seq<Label>, c: PublicationContext, r: RecoveryContext,
                             queued: QueuedJob, paused: bool)
    requires Initial(start) && Execute(start, labels).Some?
    requires ShowsPublication(c, Execute(start, labels).value.store) && IsFenced(RemovesJob(c, r, queued), paused)
    ensures NothingStarted(Execute(start, labels).value)
    ensures forall pid, t: int :: !IsArmed(Execute(start, labels).value, pid, t)
  {
    SafeFailureIsSafe(start, labels);
  }

  /** The pass never deems an execution with a confirmed send safe to recover: of a send, only
      one confirmed without an identifier would be, and no run leads to that. */
  lemma NoSendIsDeemedSafe(start: State, labels: seq<Label>, c: RecoveryContext)
    requires Initial(start) && Execute(start, labels).Some?
    requires Shows(c, Execute(start, labels).value.store)
    ensures !IsSafeExecutionRecovery(c)
  {
    SafeExactlyWhen(c);
    ConfirmedWasAccepted(start, labels);
  }
}
