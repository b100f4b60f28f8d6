/** When racing publishers of one outbox agree
    (apps/api/src/commercial-dispatch-outbox-publisher.ts:83-223). */
module PublisherConvergence {
  import opened Wrappers
  import opened DispatchStore
  import opened DispatchProtocol
  import opened ProtocolSafety

  /** A publisher that reads now finds the outbox published, or nothing begun. */
  ghost predicate IsCleanRead(s: State) {
    var c := FindPublicationContext(s.store);
    c.outbox.status.OutboxPublished? || (PendingRunIsSafe(c) && PendingDispatchIsSafe(c))
  }

  /** The queue answers and loses nothing, and no operator gives the outbox up. */
  predicate QueueWorks(l: Label) {
    && !l.OperatorMarksInvestigation?
    && (l.PublisherReadsJob? ==> l.readable)
    && (l.PublisherEnqueues? ==> l.effect.Succeeds?)
    && !l.JobIsDropped?
  }

  ghost predicate IsSmooth(s: State, l: Label) {
    QueueWorks(l) && (l.PublisherReads? ==> IsCleanRead(s))
  }

  predicate SameRecord(o: Outbox, o': Outbox) {
    && o.commercialRunId == o'.commercialRunId && o.dispatchId == o'.dispatchId
    && o.jobId == o'.jobId && o.instanceName == o'.instanceName
  }

  /** What a publisher remembers is still good enough to publish by. */
  ghost predicate IsGoodContext(store: Store, c: Context) {
    && IdentitiesAreConsistent(c) && SameRecord(c.outbox, store.outbox)
    && (|| (c.outbox.status.OutboxPublished? && c.outbox == store.outbox && c.run.jobId == Some(c.outbox.jobId))
        || (c.outbox.status.OutboxPending? && PendingRunIsSafe(c) && PendingDispatchIsSafe(c)))
  }

  ghost predicate IsGoodStage(store: Store, stage: PublisherStage) {
    match stage
    case ReadingJob(c) => IsGoodContext(store, c)
    case Enqueueing(c) => IsGoodContext(store, c)
    case Marking(c) => store.outbox.jobId in store.queue
    case PublisherDone(Returned(outbox)) => store.outbox.status.OutboxPublished? && outbox == store.outbox
    case _ => false
  }

  ghost predicate StoreIsGood(store: Store) {
    && IdentitiesAreConsistent(FindPublicationContext(store))
    && (store.outbox.status.OutboxPending? || store.outbox.status.OutboxPublished?)
    && (store.run.jobId.None? || store.run.jobId == Some(store.outbox.jobId))
    && (forall id | id in store.queue :: id == store.outbox.jobId && JobMatchesOutbox(store.queue[id], store.outbox))
    && (store.outbox.status.OutboxPublished? ==>
          store.run.jobId == Some(store.outbox.jobId) && store.outbox.jobId in store.queue)
  }

  ghost predicate IsConverging(s: State) {
    && StoreIsGood(s.store)
    && forall pid | pid in s.procs && s.procs[pid].Publisher? :: IsGoodStage(s.store, s.procs[pid].publisher)
  }

  predicate IsPublisherLabel(l: Label) {
    l.PublisherReads? || l.PublisherReadsJob? || l.PublisherEnqueues? || l.PublisherRereadsJob?
    || l.PublisherMarks? || l.PublisherRechecks? || l.PublisherFails?
  }

  /** What a publisher relies on is never taken away from it. */
  ghost predicate StoreGrows(store: Store, store': Store) {
    && SameRecord(store.outbox, store'.outbox)
    && (store.outbox.status.OutboxPublished? ==> store'.outbox == store.outbox)
    && (store.outbox.jobId in store.queue ==> store'.outbox.jobId in store'.queue)
  }

  lemma GoodStageStays(store: Store, store': Store, stage: PublisherStage)
    requires IsGoodStage(store, stage) && StoreGrows(store, store')
    ensures IsGoodStage(store', stage)
  {
  }

  /** Nobody but publishers touches the outbox, the queue, or what ties the records together. */
  ghost predicate LeavesOutbox(store: Store, store': Store) {
    && store'.outbox == store.outbox && store'.queue == store.queue
    && store'.dispatch.id == store.dispatch.id && store'.dispatch.instanceName == store.dispatch.instanceName
    && store'.run == store.run.(status := store'.run.status, finalStatus := store'.run.finalStatus,
                                investigationRequired := store'.run.investigationRequired,
                                failureCode := store'.run.failureCode)
  }

  lemma OthersLeaveOutbox(s: State, l: Label)
    requires Apply(s, l).Some? && !IsPublisherLabel(l) && QueueWorks(l)
    ensures LeavesOutbox(s.store, Apply(s, l).value.store)
  {
  }

  lemma OthersLeavePublishers(s: State, l: Label)
    requires Apply(s, l).Some? && !IsPublisherLabel(l)
    ensures var s' := Apply(s, l).value;
            forall pid | pid in s'.procs && s'.procs[pid].Publisher? :: pid in s.procs && s.procs[pid] == s'.procs[pid]
  {
  }

  lemma OthersKeepConverging(s: State, l: Label)
    requires IsConverging(s) && Apply(s, l).Some? && !IsPublisherLabel(l) && QueueWorks(l)
    ensures IsConverging(Apply(s, l).value)
  {
    OthersLeaveOutbox(s, l);
    OthersLeavePublishers(s, l);
    var s' := Apply(s, l).value;
    forall pid | pid in s'.procs && s'.procs[pid].Publisher? ensures IsGoodStage(s'.store, s'.procs[pid].publisher) {
      GoodStageStays(s.store, s'.store, s.procs[pid].publisher);
    }
  }

  lemma PublishersKeepConverging(s: State, l: Label)
    requires IsConverging(s) && Apply(s, l).Some? && IsPublisherLabel(l) && IsSmooth(s, l)
    ensures IsConverging(Apply(s, l).value)
  {
    var s' := Apply(s, l).value;
    assert StoreIsGood(s'.store) && StoreGrows(s.store, s'.store);
    assert IsGoodStage(s'.store, s'.procs[l.pid].publisher);
    forall pid | pid in s'.procs && s'.procs[pid].Publisher? && pid != l.pid
      ensures IsGoodStage(s'.store, s'.procs[pid].publisher)
    {
      GoodStageStays(s.store, s'.store, s.procs[pid].publisher);
    }
  }

  /** A run in which every step is smooth. */
  ghost predicate IsSmoothRun(start: State, labels: seq<Label>) {
    labels == []
    || var before := labels[..|labels| - 1];
       && IsSmoothRun(start, before)
       && Execute(start, before).Some?
       && IsSmooth(Execute(start, before).value, labels[|labels| - 1])
  }

  ghost predicate QueueIsClean(store: Store) {
    forall id | id in store.queue :: id == store.outbox.jobId && JobMatchesOutbox(store.queue[id], store.outbox)
  }

  lemma {:induction false} SmoothRunsConverge(start: State, labels: seq<Label>)
    requires Initial(start) && QueueIsClean(start.store)
    requires IsSmoothRun(start, labels) && Execute(start, labels).Some?
    ensures IsConverging(Execute(start, labels).value)
  {
    if labels != [] {
      var before, last := labels[..|labels| - 1], labels[|labels| - 1];
      SmoothRunsConverge(start, before);
      if IsPublisherLabel(last) {
        PublishersKeepConverging(Execute(start, before).value, last);
      } else {
        OthersKeepConverging(Execute(start, before).value, last);
      }
    }
  }

  predicate IsDone(s: State, pid: nat) {
    PublisherAt(s, pid).Some? && PublisherAt(s, pid).value.PublisherDone?
  }

  /** While the queue works and no publisher reads an outbox that is being sent before it
      was published, all publishers that finish return the one published record, exactly
      the one matching job is queued, and nothing becomes ambiguous. */
  lemma PublishersConverge(start: State, labels: seq<Label>)
    requires Initial(start) && QueueIsClean(start.store)
    requires IsSmoothRun(start, labels) && Execute(start, labels).Some?
    ensures var s := Execute(start, labels).value;
      && !s.store.outbox.status.OutboxAmbiguous?
      && forall pid | IsDone(s, pid) ::
           && PublisherAt(s, pid).value.outcome == Returned(s.store.outbox)
           && s.store.outbox.status.OutboxPublished?
           && s.store.run.jobId == Some(s.store.outbox.jobId)
           && s.store.queue == map[s.store.outbox.jobId := JobOf(s.store.outbox)]
  {
    SmoothRunsConverge(start, labels);
    var s := Execute(start, labels).value;
    forall pid | IsDone(s, pid)
      ensures s.store.outbox.status.OutboxPublished?
      ensures PublisherAt(s, pid).value.outcome == Returned(s.store.outbox)
      ensures s.store.queue == map[s.store.outbox.jobId := JobOf(s.store.outbox)]
    {
      assert IsGoodStage(s.store, s.procs[pid].publisher);
      assert s.store.queue.Keys == {s.store.outbox.jobId};
    }
  }

  // ---------------------------------------------------------------------------
  // When every read is clean
  // ---------------------------------------------------------------------------

  /** Claims and finalizers wait until publication is recorded. */
  predicate WaitsForPublication(s: State, l: Label) {
    l.SenderClaims? || l.FinalizerWrites? ==> s.store.outbox.status.OutboxPublished?
  }

  ghost predicate IsOrderlyRun(start: State, labels: seq<Label>) {
    labels == []
    || var before := labels[..|labels| - 1];
       && IsOrderlyRun(start, before)
       && Execute(start, before).Some?
       && QueueWorks(labels[|labels| - 1])
       && WaitsForPublication(Execute(start, before).value, labels[|labels| - 1])
  }

  /** Until publication nothing has begun. */
  ghost predicate NothingBegun(s: State) {
    s.store.outbox.status.OutboxPending? ==>
      && PendingRunIsSafe(FindPublicationContext(s.store))
      && PendingDispatchIsSafe(FindPublicationContext(s.store))
      && forall pid, t: int :: !Holds(s, pid, t)
  }

  lemma SendersHoldTickets(s: State, l: Label)
    requires Apply(s, l).Some? && IsSenderLabel(l) && !l.SenderReads? && !l.SenderClaims?
    ensures exists t: int :: Holds(s, l.pid, t)
  {
    assert Holds(s, l.pid, TicketOf(s.procs[l.pid]).value);
  }

  lemma SendersWaitForPublication(s: State, l: Label)
    requires NothingBegun(s) && s.store.outbox.status.OutboxPending? && Apply(s, l).Some?
    requires (IsSenderLabel(l) && !l.SenderClaims?) || IsDispatchEvent(l)
    ensures var s' := Apply(s, l).value;
      && PendingDispatchIsSafe(FindPublicationContext(s'.store)) && s'.store.run == s.store.run
      && forall pid, t: int | Holds(s', pid, t) :: Holds(s, pid, t)
  {
    if IsSenderLabel(l) && !l.SenderReads? {
      SendersHoldTickets(s, l);
    }
  }

  lemma PublishersBeginNothing(s: State, l: Label)
    requires NothingBegun(s) && IsConverging(s) && Apply(s, l).Some? && WaitsForPublication(s, l)
    requires !IsSenderLabel(l) && !IsDispatchEvent(l)
    ensures NothingBegun(Apply(s, l).value)
  {
    var s' := Apply(s, l).value;
    assert forall pid, t: int | Holds(s', pid, t) :: Holds(s, pid, t);
  }

  lemma OrderlyStepKeepsCalm(s: State, l: Label)
    requires NothingBegun(s) && IsConverging(s) && Apply(s, l).Some?
    requires QueueWorks(l) && WaitsForPublication(s, l)
    ensures NothingBegun(Apply(s, l).value)
  {
    if !IsSenderLabel(l) && !IsDispatchEvent(l) {
      PublishersBeginNothing(s, l);
    } else {
      OthersLeaveOutbox(s, l);
      if s.store.outbox.status.OutboxPending? {
        SendersWaitForPublication(s, l);
      }
    }
  }

  /** If the queue works and senders and finalizers act only after publication, every
      read is clean, so the publishers converge. */
  lemma {:induction false} OrderlyRunsAreSmooth(start: State, labels: seq<Label>)
    requires Initial(start) && QueueIsClean(start.store)
    requires IsOrderlyRun(start, labels) && Execute(start, labels).Some?
    ensures IsSmoothRun(start, labels) && NothingBegun(Execute(start, labels).value)
  {
    if labels != [] {
      var before := labels[..|labels| - 1];
      OrderlyRunsAreSmooth(start, before);
      SmoothRunsConverge(start, before);
      OrderlyStepKeepsCalm(Execute(start, before).value, labels[|labels| - 1]);
    }
  }

  // ---------------------------------------------------------------------------
  // When one is not
  // ---------------------------------------------------------------------------

  predicate WillNotReturn(stage: PublisherStage) {
    stage.Failing? || stage == PublisherDone(ThrewSentMetadataPending)
  }

  /** The condition is exact: a publisher gives up after its two reads if and only if the
      first was not clean. */
  lemma GivesUpExactlyWhenUnclean(s: State, pid: nat)
    requires IsConverging(s) && IsNew(s, pid)
    ensures var read := Execute(s, [PublisherReads(pid), PublisherReadsJob(pid, true)]);
            && read.Some? && PublisherAt(read.value, pid).Some?
            && (WillNotReturn(PublisherAt(read.value, pid).value) <==> !IsCleanRead(s))
  {
    TwoSteps(s, PublisherReads(pid), PublisherReadsJob(pid, true));
  }

  lemma TwoSteps(s: State, l: Label, m: Label)
    ensures Execute(s, [l, m]) == if Apply(s, l).None? then None else Apply(Apply(s, l).value, m)
  {
    assert [l, m][..1] == [l] && [l][..0] == [];
    assert Execute(s, [l]) == Apply(s, l);
  }

  lemma JobBeforePublication(start: State) returns (labels: seq<Label>, s: State)
    requires Initial(start) && start.store.queue == map[]
    ensures Execute(start, labels) == Some(s) && forall k | 0 <= k < |labels| :: QueueWorks(labels[k])
    ensures s.store == start.store.(queue := map[start.store.outbox.jobId := JobOf(start.store.outbox)])
    ensures IsNew(s, 1) && IsNew(s, 2) && PublisherAt(s, 0) == Some(Marking(FindPublicationContext(start.store)))
  {
    labels, s := Extend(start, [], start, PublisherReads(0));
    labels, s := Extend(start, labels, s, PublisherReadsJob(0, true));
    labels, s := Extend(start, labels, s, PublisherEnqueues(0, Succeeds));
  }

  /** A claim between enqueue and publication. */
  lemma ClaimBeforePublication(start: State) returns (labels: seq<Label>, s: State)
    requires Initial(start) && start.store.queue == map[]
    ensures Execute(start, labels) == Some(s) && forall k | 0 <= k < |labels| :: QueueWorks(labels[k])
    ensures s.store.outbox == start.store.outbox && IsNew(s, 2)
    ensures s.store.queue == map[s.store.outbox.jobId := JobOf(s.store.outbox)]
    ensures s.store.dispatch.status.Processing? && IdentitiesAreConsistent(FindPublicationContext(s.store))
  {
    labels, s := JobBeforePublication(start);
    labels, s := Extend(start, labels, s, SenderReads(1));
    labels, s := Extend(start, labels, s, SenderClaims(1, Routing(false, "", {})));
  }

  /** The next publisher to read then makes the outbox ambiguous, although every queue
      operation succeeded. */
  lemma EarlyClaimMakesAmbiguous(start: State) returns (labels: seq<Label>, s: State)
    requires Initial(start) && start.store.queue == map[]
    ensures Execute(start, labels) == Some(s) && forall k | 0 <= k < |labels| :: QueueWorks(labels[k])
    ensures s.store.outbox.status.OutboxAmbiguous?
  {
    labels, s := ClaimBeforePublication(start);
    labels, s := Extend(start, labels, s, PublisherReads(2));
    labels, s := Extend(start, labels, s, PublisherReadsJob(2, true));
    labels, s := Extend(start, labels, s, PublisherFails(2));
  }
}
