/** Who may claim a dispatch, and that every call to the provider rests on such a claim
    (apps/api/src/prisma-repositories.ts:11504-11575). */
module ClaimLaws {
  import opened Wrappers
  import opened DispatchStore
  import opened DispatchProtocol
  import opened ProtocolSafety

  /** A group is sent to by the instance the dispatch was confirmed for, while that instance
      is still assigned to the group. Other destinations are not bound to an instance. */
  predicate RoutingHolds(d: Dispatch, routing: Routing) {
    routing.isGroup ==>
      d.instanceName == Some(routing.expectedInstance) && routing.expectedInstance in routing.assignedInstances
  }

  /** The dispatch is acquired exactly when it is pending and its routing holds; a pending one
      whose routing does not hold fails, and any other is left as it is. */
  lemma ClaimedExactlyWhen(s: Store, routing: Routing)
    ensures var d, (s', kind) := s.dispatch, ClaimPendingForSending(s, routing);
      && s' == s.(dispatch := s'.dispatch)
      && (kind.Claimed? <==> d.status.Pending? && RoutingHolds(d, routing))
      && (kind.StickyInstanceMismatch? <==> d.status.Pending? && !RoutingHolds(d, routing))
      && (kind.NotPending? ==> s'.dispatch == d)
      && s'.dispatch.attemptCount == d.attemptCount + (if kind.Claimed? then 1 else 0)
      && (kind.Claimed? ==> s'.dispatch.status.Processing? && s'.dispatch.errorMessage.None?)
      && (kind.StickyInstanceMismatch? ==> s'.dispatch.status.Failed? && s'.dispatch.errorMessage == Some(InstanceMismatch))
  {
    assert s.(dispatch := s.dispatch) == s;
  }

  /** Label `k` of the run is the claim by which `pid` got `ticket`: of a pending dispatch,
      with a routing that held. */
  ghost predicate IsClaimOf(start: State, labels: seq<Label>, k: nat, pid: nat, ticket: int) {
    && k < |labels| && labels[k].SenderClaims? && labels[k].pid == pid
    && Execute(start, labels[..k]).Some?
    && var d := Execute(start, labels[..k]).value.store.dispatch;
       d.status.Pending? && d.attemptCount + 1 == ticket && RoutingHolds(d, labels[k].routing)
  }

  ghost predicate WasClaimed(start: State, labels: seq<Label>, pid: nat, ticket: int) {
    exists k: nat :: IsClaimOf(start, labels, k, pid, ticket)
  }

  lemma ClaimsStay(start: State, labels: seq<Label>, pid: nat, ticket: int)
    requires labels != [] && WasClaimed(start, labels[..|labels| - 1], pid, ticket)
    ensures WasClaimed(start, labels, pid, ticket)
  {
    var before := labels[..|labels| - 1];
    var k: nat :| IsClaimOf(start, before, k, pid, ticket);
    assert before[..k] == labels[..k];
    assert IsClaimOf(start, labels, k, pid, ticket);
  }

  lemma ArmedByClaim(s: State, l: Label, pid: nat, ticket: int)
    requires Apply(s, l).Some? && IsArmed(Apply(s, l).value, pid, ticket) && !IsArmed(s, pid, ticket)
    ensures l.SenderClaims? && l.pid == pid
    ensures s.store.dispatch.status.Pending? && s.store.dispatch.attemptCount + 1 == ticket
    ensures RoutingHolds(s.store.dispatch, l.routing)
  {
  }

  /** Whoever is about to call the provider holds a claim. */
  lemma {:induction false} ArmedWasClaimed(start: State, labels: seq<Label>, pid: nat, ticket: int)
    requires start.procs == map[] && Execute(start, labels).Some?
    requires IsArmed(Execute(start, labels).value, pid, ticket)
    ensures WasClaimed(start, labels, pid, ticket)
  {
    if labels != [] {
      var before, last := labels[..|labels| - 1], labels[|labels| - 1];
      var s := Execute(start, before).value;
      if IsArmed(s, pid, ticket) {
        ArmedWasClaimed(start, before, pid, ticket);
        ClaimsStay(start, labels, pid, ticket);
      } else {
        ArmedByClaim(s, last, pid, ticket);
        assert IsClaimOf(start, labels, |labels| - 1, pid, ticket);
      }
    }
  }

  /** Every call of every run was made under a claim of its own ticket, granted when the
      dispatch was pending and its routing held. */
  lemma {:induction false} EveryCallWasClaimed(start: State, labels: seq<Label>, j: nat)
    requires start.procs == map[] && start.calls == [] && Execute(start, labels).Some?
    requires j < |Execute(start, labels).value.calls|
    ensures exists pid: nat :: WasClaimed(start, labels, pid, Execute(start, labels).value.calls[j].ticket)
  {
    if labels != [] {
      var before, last := labels[..|labels| - 1], labels[|labels| - 1];
      var s := Execute(start, before).value;
      var ticket := Execute(start, labels).value.calls[j].ticket;
      var pid: nat;
      if j < |s.calls| {
        EveryCallWasClaimed(start, before, j);
        pid :| WasClaimed(start, before, pid, s.calls[j].ticket);
      } else {
        pid := last.pid;
        assert IsArmed(s, pid, ticket);
        ArmedWasClaimed(start, before, pid, ticket);
      }
      ClaimsStay(start, labels, pid, ticket);
    }
  }

  /** An operator puts back exactly an unconfirmed first attempt whose run was given up as
      ambiguous after publication, and only once; nothing else changes. */
  lemma RearmedExactlyWhen(s: State)
    ensures Apply(s, OperatorRearms).Some?
       <==> && !s.store.rearmed
            && s.store.dispatch.status == Processing && s.store.dispatch.attemptCount == 1
            && s.store.dispatch.externalMessageId == None && s.store.dispatch.sentAt == None
            && s.store.run.confirmed && s.store.run.investigationRequired
            && s.store.run.status == RunFailed && s.store.run.finalStatus == FinalAmbiguous
            && s.store.run.jobId == Some(s.store.outbox.jobId) && s.store.outbox.status == OutboxPublished
    ensures Apply(s, OperatorRearms).Some? ==>
              Apply(s, OperatorRearms).value
              == s.(store := s.store.(dispatch := s.store.dispatch.(status := Pending), rearmed := true))
  {
  }

  /** A sender's steps come in order: it reads once, claims only after it found the dispatch
      pending, and calls, aborts or is refused only with a claim. */
  lemma SenderStepsInOrder(s: State, pid: nat, routing: Routing, outcome: CallOutcome)
    ensures Apply(s, SenderReads(pid)).Some? <==> pid !in s.procs
    ensures pid !in s.procs ==>
              SenderAt(Apply(s, SenderReads(pid)).value, pid)
              == Some(if s.store.dispatch.status == Pending then Preparing else SenderDone)
    ensures Apply(s, SenderClaims(pid, routing)).Some? <==> SenderAt(s, pid) == Some(Preparing)
    ensures var armed := SenderAt(s, pid).Some? && SenderAt(s, pid).value.Armed?;
      && (Apply(s, SenderCalls(pid, outcome)).Some? <==> armed)
      && (Apply(s, SenderIsRefused(pid)).Some? <==> armed)
      && (Apply(s, SenderAborts(pid, InstanceMismatch)).Some? <==> armed)
    ensures pid in s.procs ==> Apply(s, PublisherReads(pid)).None? && Apply(s, Crashes(pid)).Some?
  {
  }

  /** An accepted call is recorded exactly on a dispatch still being processed that carries no
      identifier yet. */
  lemma SubmittedExactlyWhen(s: Store, externalMessageId: string)
    ensures var d, (s', submitted) := s.dispatch, MarkSubmitted(s, externalMessageId);
      && (submitted <==> d.status == Processing && d.externalMessageId == None)
      && s' == if submitted
               then s.(dispatch := d.(status := Submitted, externalMessageId := Some(externalMessageId), errorMessage := None))
               else s
  {
  }
}
