/** What a published outbox means whatever the queue does, as long as it loses nothing
    (apps/api/src/commercial-dispatch-outbox-publisher.ts:104-223). */
module PublicationLaws {
  import opened Wrappers
  import opened DispatchStore
  import opened DispatchProtocol
  import opened PublisherConvergence
  import opened SafetyTheorems

  predicate HasItsJob(store: Store) {
    store.outbox.jobId in store.queue && JobMatchesOutbox(store.queue[store.outbox.jobId], store.outbox)
  }

  /** What a publisher has read of the outbox is still who it is. */
  predicate RemembersRecord(store: Store, stage: PublisherStage) {
    match stage
    case ReadingJob(c) => SameRecord(c.outbox, store.outbox)
    case Enqueueing(c) => SameRecord(c.outbox, store.outbox)
    case RereadingJob(c) => SameRecord(c.outbox, store.outbox)
    case _ => true
  }

  /** A publisher marks, and returns, only what has its job. */
  predicate ActsOnItsJob(store: Store, stage: PublisherStage) {
    && (stage.Marking? ==> HasItsJob(store))
    && (stage.PublisherDone? && stage.outcome.Returned? ==>
          stage.outcome.outbox.status.OutboxPublished? && SameRecord(stage.outcome.outbox, store.outbox) && HasItsJob(store))
  }

  ghost predicate JobsAreKept(s: State) {
    && QueueIsClean(s.store)
    && (s.store.outbox.status.OutboxPublished? ==> HasItsJob(s.store))
    && forall pid | pid in s.procs && s.procs[pid].Publisher? ::
         RemembersRecord(s.store, s.procs[pid].publisher) && ActsOnItsJob(s.store, s.procs[pid].publisher)
  }

  lemma OthersKeepJobs(s: State, l: Label)
    requires JobsAreKept(s) && Apply(s, l).Some? && !IsPublisherLabel(l) && !l.JobIsDropped?
    ensures JobsAreKept(Apply(s, l).value)
  {
    OthersLeavePublishers(s, l);
    var s' := Apply(s, l).value;
    assert s'.store.queue == s.store.queue && SameRecord(s'.store.outbox, s.store.outbox);
  }

  lemma PublishersKeepJobs(s: State, l: Label)
    requires JobsAreKept(s) && Apply(s, l).Some? && IsPublisherLabel(l)
    ensures JobsAreKept(Apply(s, l).value)
  {
    var s' := Apply(s, l).value;
    assert SameRecord(s'.store.outbox, s.store.outbox) && QueueIsClean(s'.store);
    assert HasItsJob(s.store) ==> HasItsJob(s'.store);
    var stage := s'.procs[l.pid].publisher;
    assert RemembersRecord(s'.store, stage) && ActsOnItsJob(s'.store, stage);
    assert forall pid | pid in s'.procs && pid != l.pid :: pid in s.procs && s'.procs[pid] == s.procs[pid];
  }

  predicate NoJobIsLost(labels: seq<Label>) {
    forall k | 0 <= k < |labels| :: !labels[k].JobIsDropped?
  }

  lemma {:induction false} RunsKeepJobs(start: State, labels: seq<Label>)
    requires Initial(start) && QueueIsClean(start.store)
    requires NoJobIsLost(labels) && Execute(start, labels).Some?
    ensures JobsAreKept(Execute(start, labels).value)
  {
    if labels != [] {
      var before, last := labels[..|labels| - 1], labels[|labels| - 1];
      RunsKeepJobs(start, before);
      if IsPublisherLabel(last) {
        PublishersKeepJobs(Execute(start, before).value, last);
      } else {
        OthersKeepJobs(Execute(start, before).value, last);
      }
    }
  }

  /** In every run in which the queue loses no job, whatever enqueues fail and whatever reads
      find nothing: an outbox is published only with its own job in the queue; a publisher is
      about to mark it published only then; and what a publisher returns is published, with
      its job in the queue. */
  lemma PublishedHasItsJob(start: State, labels: seq<Label>)
    requires Initial(start) && QueueIsClean(start.store)
    requires NoJobIsLost(labels) && Execute(start, labels).Some?
    ensures var s := Execute(start, labels).value;
      var queued := && s.store.outbox.jobId in s.store.queue
                    && s.store.queue[s.store.outbox.jobId]
                       == Job(s.store.outbox.jobId, s.store.outbox.dispatchId, s.store.outbox.instanceName);
      && (s.store.outbox.status.OutboxPublished? ==> queued)
      && (forall pid | PublisherAt(s, pid).Some? && PublisherAt(s, pid).value.Marking? :: queued)
      && (forall pid | IsDone(s, pid) && PublisherAt(s, pid).value.outcome.Returned? ::
            queued && PublisherAt(s, pid).value.outcome.outbox.status.OutboxPublished?)
  {
    RunsKeepJobs(start, labels);
  }

  /** The condition is needed: a job lost between enqueue and mark leaves a published outbox
      without one. */
  lemma LostJobIsStillPublished(start: State) returns (labels: seq<Label>, s: State)
    requires Initial(start) && start.store.queue == map[]
    ensures Execute(start, labels) == Some(s)
    ensures s.store.outbox.status.OutboxPublished? && s.store.queue == map[]
  {
    labels, s := JobBeforePublication(start);
    var jobId := s.store.outbox.jobId;
    assert PublisherAt(s, 0) == Some(Marking(FindPublicationContext(start.store)));
    labels, s := Extend(start, labels, s, JobIsDropped(jobId));
    labels, s := Extend(start, labels, s, PublisherMarks(0, 0));
  }

  /** Enqueueing adds the outbox's own job under its id, unless the id is taken or the queue
      failed before; the publisher goes on to mark exactly if it was told of no failure. */
  lemma EnqueuedExactlyWhen(s: State, pid: nat, effect: Effect)
    requires PublisherAt(s, pid).Some? && PublisherAt(s, pid).value.Enqueueing?
    ensures var c, after := PublisherAt(s, pid).value.context, Apply(s, PublisherEnqueues(pid, effect));
      && after.Some? && after.value.store == s.store.(queue := after.value.store.queue)
      && (effect == FailsBefore || c.outbox.jobId in s.store.queue ==> after.value.store == s.store)
      && (effect != FailsBefore && c.outbox.jobId !in s.store.queue ==>
            after.value.store.queue
            == s.store.queue[c.outbox.jobId := Job(c.outbox.jobId, c.outbox.dispatchId, c.outbox.instanceName)])
      && PublisherAt(after.value, pid) == Some(if effect == Succeeds then Marking(c) else RereadingJob(c))
  {
  }

  /** After a failed enqueue: the publisher goes on to mark exactly when the outbox's own job
      can be read back, and the outbox becomes ambiguous otherwise, as uncertain if no job
      could be read at all. */
  lemma AfterFailedEnqueue(s: State, pid: nat, readable: bool)
    requires PublisherAt(s, pid).Some? && PublisherAt(s, pid).value.RereadingJob?
    ensures var c, after := PublisherAt(s, pid).value.context, Apply(s, PublisherRereadsJob(pid, readable));
      && after.Some? && after.value.store == s.store && PublisherAt(after.value, pid).Some?
      && var next, found := PublisherAt(after.value, pid).value, readable && c.outbox.jobId in s.store.queue;
         && (next == Marking(c)
             <==> && found
                  && s.store.queue[c.outbox.jobId] == Job(c.outbox.jobId, c.outbox.dispatchId, c.outbox.instanceName))
         && (next == Failing(UNCERTAIN) <==> !found)
         && (next.Marking? || next.Failing?)
  {
  }

  /** A publisher that fails makes the outbox ambiguous, unless it is already, and gives up
      its run for investigation. */
  lemma FailingGivesUp(s: State, pid: nat)
    requires PublisherAt(s, pid).Some? && PublisherAt(s, pid).value.Failing?
    ensures var code, after := PublisherAt(s, pid).value.failureCode, Apply(s, PublisherFails(pid));
      && after.Some? && after.value.store.outbox.status.OutboxAmbiguous?
      && PublisherAt(after.value, pid) == Some(PublisherDone(ThrewAmbiguous))
      && after.value.store.dispatch == s.store.dispatch && after.value.store.queue == s.store.queue
      && (!s.store.outbox.status.OutboxAmbiguous? ==>
            && after.value.store.outbox.failureCode == Some(code)
            && after.value.store.run.status.RunFailed? && after.value.store.run.finalStatus.FinalAmbiguous?
            && after.value.store.run.investigationRequired && after.value.store.run.failureCode == Some(code))
  {
  }

  /** The records belong together, and nothing has begun: what a publisher asks before it
      first publishes. */
  predicate IsUntouched(o: Outbox, r: PipelineRun, d: Dispatch) {
    && o.status == OutboxPending
    && r.id == o.commercialRunId && r.dispatchId == Some(o.dispatchId) && d.id == o.dispatchId
    && r.instanceName == o.instanceName && d.instanceName == o.instanceName
    && r.confirmed && r.status == RunStarted && r.finalStatus == FinalPending && !r.investigationRequired
    && r.jobId in {None, Some(o.jobId)}
    && d.status == Pending && d.attemptCount == 0 && d.externalMessageId == None && d.sentAt == None
  }

  /** A publisher goes on to publish exactly when it found the records untouched and could
      read the queue, holding no job or the outbox's own under its id. */
  lemma GoesOnExactlyWhen(s: State, pid: nat, readable: bool)
    requires IsNew(s, pid)
    ensures var read := Execute(s, [PublisherReads(pid), PublisherReadsJob(pid, readable)]);
      var o := s.store.outbox;
      var goesOn := read.Some? && PublisherAt(read.value, pid).Some?
                    && (PublisherAt(read.value, pid).value.Enqueueing? || PublisherAt(read.value, pid).value.Marking?);
      && (goesOn
          <==> && IsUntouched(o, s.store.run, s.store.dispatch) && readable
               && (o.jobId in s.store.queue ==> s.store.queue[o.jobId] == Job(o.jobId, o.dispatchId, o.instanceName)))
      && (goesOn ==> (PublisherAt(read.value, pid).value.Enqueueing? <==> o.jobId !in s.store.queue))
  {
    TwoSteps(s, PublisherReads(pid), PublisherReadsJob(pid, readable));
  }

  /** So in every run, nobody starts to publish once the provider was called. */
  lemma NobodyPublishesAfterACall(start: State, labels: seq<Label>, pid: nat, readable: bool)
    requires Initial(start) && Execute(start, labels).Some? && IsNew(Execute(start, labels).value, pid)
    requires Execute(start, labels).value.calls != []
    ensures var read := Execute(Execute(start, labels).value, [PublisherReads(pid), PublisherReadsJob(pid, readable)]);
            read.Some? ==> PublisherAt(read.value, pid).Some?
                           && !PublisherAt(read.value, pid).value.Enqueueing? && !PublisherAt(read.value, pid).value.Marking?
  {
    RunsKeepInvariants(start, labels);
    var s := Execute(start, labels).value;
    GoesOnExactlyWhen(s, pid, readable);
    TwoSteps(s, PublisherReads(pid), PublisherReadsJob(pid, readable));
  }

  /** Marking publishes a pending outbox and gives its job to the run that is its own and
      has no other; a published one is returned as it is. */
  lemma MarkedExactlyWhen(s: Store, at: int)
    ensures var o, r, (s', published) := s.outbox, s.run, MarkPublished(s, at);
      && (published.Some?
          <==> || o.status == OutboxPublished
               || (&& o.status == OutboxPending && r.confirmed && r.id == o.commercialRunId
                   && r.dispatchId == Some(o.dispatchId) && r.jobId in {None, Some(o.jobId)}))
      && (published.Some? ==> published == Some(s'.outbox))
      && s' == if o.status == OutboxPending && published.Some?
               then s.(outbox := o.(status := OutboxPublished, failureCode := None, publishedAt := Some(at)),
                       run := r.(jobId := Some(o.jobId)))
               else s
  {
  }

  /** A publisher whose mark was refused returns what is there now exactly when that is
      published under the same run, dispatch and job. */
  lemma RecheckBelievesExactly(s: State, pid: nat)
    requires PublisherAt(s, pid).Some? && PublisherAt(s, pid).value.Rechecking?
    ensures var o, after := PublisherAt(s, pid).value.context.outbox, Apply(s, PublisherRechecks(pid));
      && after.Some? && PublisherAt(after.value, pid).Some?
      && (PublisherAt(after.value, pid) == Some(PublisherDone(Returned(s.store.outbox)))
          <==> && s.store.outbox.status == OutboxPublished
               && s.store.outbox.commercialRunId == s.store.run.id == o.commercialRunId
               && s.store.outbox.dispatchId == s.store.dispatch.id == o.dispatchId
               && s.store.outbox.jobId == o.jobId && s.store.run.jobId == Some(o.jobId))
  {
  }
}
