/** At most one send, and no uncertain outcome called safe, over whole runs. */
module SafetyTheorems {
  import opened Wrappers
  import opened DispatchStore
  import opened DispatchProtocol
  import opened ProtocolSafety

  /** What is left intact by the manual recoveries of a run. */
  ghost function TrustOf(start: State, labels: seq<Label>): Trust
    requires Execute(start, labels).Some?
  {
    if labels == [] then Trust(true, true)
    else
      var before := labels[..|labels| - 1];
      TrustAfter(Execute(start, before).value, labels[|labels| - 1], TrustOf(start, before))
  }

  lemma {:induction false} RunsKeepInvariants(start: State, labels: seq<Label>)
    requires Initial(start) && Execute(start, labels).Some?
    ensures OutcomesInv(Execute(start, labels).value, TrustOf(start, labels))
    ensures RunTellsTheTruth(Execute(start, labels).value, TrustOf(start, labels).alone)
  {
    if labels != [] {
      var before := labels[..|labels| - 1];
      RunsKeepInvariants(start, before);
      StepKeepsOutcomes(Execute(start, before).value, labels[|labels| - 1], TrustOf(start, before));
      StepKeepsRunTrue(Execute(start, before).value, labels[|labels| - 1], TrustOf(start, before));
    }
  }

  /** Calls with different tickets from 1 to n are at most n. */
  lemma {:induction false} TicketsFit(calls: seq<Call>, n: nat)
    requires forall k | 0 <= k < |calls| :: 1 <= calls[k].ticket <= n
    requires forall j, k | 0 <= j < k < |calls| :: calls[j].ticket != calls[k].ticket
    ensures |calls| <= n
  {
    if calls != [] {
      assert 1 <= calls[0].ticket;
      if k :| 0 <= k < |calls| && calls[k].ticket == n {
        TicketsFit(calls[..k] + calls[k + 1..], n - 1);
      } else {
        TicketsFit(calls, n - 1);
      }
    }
  }

  predicate NeverRearms(labels: seq<Label>) {
    forall k | 0 <= k < |labels| :: !labels[k].OperatorRearms?
  }

  lemma {:induction false} OnlyOperatorsRearm(start: State, labels: seq<Label>)
    requires Execute(start, labels).Some? && NeverRearms(labels)
    ensures Execute(start, labels).value.store.rearmed == start.store.rearmed
  {
    if labels != [] {
      OnlyOperatorsRearm(start, labels[..|labels| - 1]);
    }
  }

  /** A run without manual recovery leaves everything intact. */
  lemma {:induction false} TrustWithoutRecovery(start: State, labels: seq<Label>)
    requires Execute(start, labels).Some? && NeverRearms(labels)
    ensures TrustOf(start, labels) == Trust(true, true)
  {
    if labels != [] {
      TrustWithoutRecovery(start, labels[..|labels| - 1]);
    }
  }

  /** Over every interleaving of publishers, senders, finalizers, provider reports and
      crashes the provider is called at most once for each attempt counted, and there is
      at most one attempt, or two once an operator has used the one manual recovery. */
  lemma AtMostOneCallPerAttempt(start: State, labels: seq<Label>)
    requires Initial(start) && Execute(start, labels).Some?
    ensures var s := Execute(start, labels).value;
      && |s.calls| <= s.store.dispatch.attemptCount <= 1 + Rearms(s.store) <= 2
      && (NeverRearms(labels) ==> |s.calls| <= 1 && s.store.dispatch.attemptCount <= 1)
  {
    var s := Execute(start, labels).value;
    RunsKeepInvariants(start, labels);
    TicketsFit(s.calls, s.store.dispatch.attemptCount);
    if NeverRearms(labels) {
      OnlyOperatorsRearm(start, labels);
    }
  }

  /** A first attempt recorded as failed before anything was sent made no call that may
      have sent something, and none can follow. */
  lemma SafeFailureIsSafe(start: State, labels: seq<Label>)
    requires Initial(start) && Execute(start, labels).Some?
    ensures var s := Execute(start, labels).value;
            FailedSafely(s.store.dispatch) ==> NothingStarted(s) && forall pid, t: int :: !IsArmed(s, pid, t)
  {
    var s := Execute(start, labels).value;
    RunsKeepInvariants(start, labels);
    assert forall pid, t: int | IsArmed(s, pid, t) :: Holds(s, pid, t);
  }

  /** A confirmed dispatch was accepted by the provider, under the identifier it carries. */
  lemma ConfirmedWasAccepted(start: State, labels: seq<Label>)
    requires Initial(start) && Execute(start, labels).Some?
    ensures var s := Execute(start, labels).value;
            IsConfirmed(s.store.dispatch.status) ==>
              s.store.dispatch.externalMessageId.Some? && WasAccepted(s, s.store.dispatch.externalMessageId.value)
  {
    RunsKeepInvariants(start, labels);
  }

  /** Unless a manual recovery was granted while a sender still held its claim, or after a
      call that may have sent something, every such call leaves the dispatch processing,
      submitted or beyond, or failed by the provider's own report: never pending again,
      never failed safely. */
  lemma UncertainStaysUncertain(start: State, labels: seq<Label>)
    requires Initial(start) && Execute(start, labels).Some? && TrustOf(start, labels).clean
    requires !NothingStarted(Execute(start, labels).value)
    ensures AdmitsASend(Execute(start, labels).value.store.dispatch)
  {
    RunsKeepInvariants(start, labels);
  }

  /** A run recorded as failed, with nothing to investigate, has a failed dispatch; and
      unless a manual recovery was granted while a sender still held its claim, a run
      recorded as sent has a confirmed one. */
  lemma RunStatusIsTrue(start: State, labels: seq<Label>)
    requires Initial(start) && Execute(start, labels).Some?
    ensures var s := Execute(start, labels).value;
      && (RunIsSafelyFailed(s.store.run) ==> s.store.dispatch.status.Failed?)
      && (TrustOf(start, labels).alone && s.store.run.finalStatus.FinalSent? ==> IsConfirmed(s.store.dispatch.status))
  {
    RunsKeepInvariants(start, labels);
  }

  /** An outbox once ambiguous stays so to the end of every run. */
  lemma {:induction false} AmbiguousForGood(start: State, labels: seq<Label>, k: nat)
    requires Execute(start, labels).Some? && k <= |labels|
    requires Execute(start, labels[..k]).Some? && Execute(start, labels[..k]).value.store.outbox.status.OutboxAmbiguous?
    ensures Execute(start, labels).value.store.outbox == Execute(start, labels[..k]).value.store.outbox
    decreases |labels|
  {
    if k == |labels| {
      assert labels[..k] == labels;
    } else {
      var before := labels[..|labels| - 1];
      assert before[..k] == labels[..k];
      AmbiguousForGood(start, before, k);
      AmbiguousOutboxStays(Execute(start, before).value, labels[|labels| - 1]);
    }
  }

  /** A sender that stalls after its claim, and a recovery granted meanwhile. */
  lemma StalledSenderIsRearmed(start: State) returns (labels: seq<Label>, s: State)
    requires Initial(start) && start.store.queue == map[]
    ensures Execute(start, labels) == Some(s)
    ensures SenderAt(s, 1) == Some(Armed(1)) && SenderAt(s, 2) == Some(Preparing)
    ensures s.store.dispatch.status.Pending? && s.store.dispatch.attemptCount == 1 && s.calls == []
  {
    labels, s := Extend(start, [], start, PublisherReads(0));
    labels, s := Extend(start, labels, s, PublisherReadsJob(0, true));
    labels, s := Extend(start, labels, s, PublisherEnqueues(0, Succeeds));
    labels, s := Extend(start, labels, s, PublisherMarks(0, 0));
    labels, s := ClaimStallsAndIsRearmed(start, labels, s);
  }

  /** Its outbox is published and nothing was sent yet. */
  ghost predicate IsPublishedOnly(s: State) {
    && s.store.dispatch.status.Pending? && s.store.dispatch.attemptCount == 0 && s.calls == [] && !s.store.rearmed
    && s.store.dispatch.externalMessageId.None? && s.store.dispatch.sentAt.None?
    && s.store.outbox.status.OutboxPublished? && s.store.run.jobId == Some(s.store.outbox.jobId)
    && PendingRunIsSafe(FindPublicationContext(s.store)) && s.store.run.confirmed
  }

  lemma ClaimStalls(start: State, published: seq<Label>, p: State) returns (labels: seq<Label>, s: State)
    requires Execute(start, published) == Some(p) && IsPublishedOnly(p)
    requires IsNew(p, 1) && IsNew(p, 2) && IsNew(p, 3)
    ensures Execute(start, labels) == Some(s) && IsNew(s, 3) && s.calls == []
    ensures SenderAt(s, 1) == Some(Armed(1)) && SenderAt(s, 2) == Some(Preparing)
    ensures s.store == p.store.(dispatch := p.store.dispatch.(status := Processing, attemptCount := 1, errorMessage := None))
  {
    labels, s := Extend(start, published, p, SenderReads(1));
    labels, s := Extend(start, labels, s, SenderReads(2));
    labels, s := Extend(start, labels, s, SenderClaims(1, Routing(false, "", {})));
  }

  /** A finalizer gives up a run whose dispatch is still being processed. */
  lemma RunIsGivenUp(start: State, claimed: seq<Label>, p: State) returns (labels: seq<Label>, s: State)
    requires Execute(start, claimed) == Some(p) && IsNew(p, 3)
    requires p.store.dispatch.status.Processing? && PendingRunIsSafe(FindPublicationContext(p.store)) && p.store.run.confirmed
    ensures Execute(start, labels) == Some(s) && s.calls == p.calls
    ensures forall pid | pid != 3 :: SenderAt(s, pid) == SenderAt(p, pid)
    ensures s.store == p.store.(run := s.store.run) && s.store.run.confirmed && s.store.run.jobId == p.store.run.jobId
    ensures s.store.run.status.RunFailed? && s.store.run.finalStatus.FinalAmbiguous? && s.store.run.investigationRequired
  {
    labels, s := Extend(start, claimed, p, FinalizerReads(3));
    assert s.store == p.store && FinalizerAt(s, 3) == Some(Writing(KindAmbiguous, 0));
    labels, s := Extend(start, labels, s, FinalizerWrites(3));
  }

  lemma ClaimStallsAndIsRearmed(start: State, published: seq<Label>, p: State) returns (labels: seq<Label>, s: State)
    requires Execute(start, published) == Some(p) && IsPublishedOnly(p)
    requires IsNew(p, 1) && IsNew(p, 2) && IsNew(p, 3)
    ensures Execute(start, labels) == Some(s)
    ensures SenderAt(s, 1) == Some(Armed(1)) && SenderAt(s, 2) == Some(Preparing)
    ensures s.store.dispatch.status.Pending? && s.store.dispatch.attemptCount == 1 && s.calls == []
  {
    labels, s := ClaimStalls(start, published, p);
    labels, s := RunIsGivenUp(start, labels, s);
    labels, s := Extend(start, labels, s, OperatorRearms);
  }

  /** With a manual recovery the bound of two is reached: the stalled sender still holds
      its claim, and its call and the recovery's are both accepted. */
  lemma RecoveryCanSendTwice(start: State) returns (labels: seq<Label>, s: State)
    requires Initial(start) && start.store.queue == map[]
    ensures Execute(start, labels) == Some(s)
    ensures s.calls == [Call(2, Accepted("second")), Call(1, Accepted("first"))]
  {
    labels, s := StalledSenderIsRearmed(start);
    labels, s := Extend(start, labels, s, SenderClaims(2, Routing(false, "", {})));
    labels, s := Extend(start, labels, s, SenderCalls(2, Accepted("second")));
    labels, s := Extend(start, labels, s, SenderCalls(1, Accepted("first")));
  }
}
