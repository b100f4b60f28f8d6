/** What holds in every state a run can reach, whatever the interleaving. */
module ProtocolSafety {
  import opened Wrappers
  import opened DispatchStore
  import opened DispatchProtocol

  // ---------------------------------------------------------------------------
  // Tickets: one claim, one call
  // ---------------------------------------------------------------------------

  /** The claim a sender still holds, if any. */
  function TicketOf(p: Process): Option<int> {
    if !p.Sender? then None
    else match p.sender
      case Armed(ticket) => Some(ticket)
      case Submitting(ticket, _) => Some(ticket)
      case SafeFailing(ticket) => Some(ticket)
      case _ => None
  }

  predicate Holds(s: State, pid: nat, ticket: int) {
    pid in s.procs && TicketOf(s.procs[pid]) == Some(ticket)
  }

  function Rearms(store: Store): nat {
    if store.rearmed then 1 else 0
  }

  /** At most one attempt, and one more after a manual recovery. */
  ghost predicate AttemptsAreCounted(store: Store) {
    && store.dispatch.attemptCount <= 1 + Rearms(store)
    && (store.dispatch.status.Pending? ==> store.dispatch.attemptCount == Rearms(store))
    && (store.rearmed ==> store.dispatch.attemptCount >= 1)
  }

  predicate IsArmed(s: State, pid: nat, ticket: int) {
    pid in s.procs && s.procs[pid].Sender? && s.procs[pid].sender.Armed? && s.procs[pid].sender.ticket == ticket
  }

  ghost predicate WasUsed(s: State, ticket: int) {
    exists k :: 0 <= k < |s.calls| && s.calls[k].ticket == ticket
  }

  /** Tickets held are issued, held once, and unused while armed. */
  ghost predicate TicketsAreHeldOnce(s: State) {
    && (forall pid, t: int | Holds(s, pid, t) :: 1 <= t <= s.store.dispatch.attemptCount)
    && (forall p, q, t: int | Holds(s, p, t) && Holds(s, q, t) :: p == q)
    && (forall pid, t: int | IsArmed(s, pid, t) :: !WasUsed(s, t))
  }

  /** Every call used its own ticket. */
  ghost predicate CallsAreTicketed(s: State) {
    && (s.calls != [] ==> 1 <= s.store.dispatch.attemptCount)
    && (forall k | 0 <= k < |s.calls| :: 1 <= s.calls[k].ticket <= s.store.dispatch.attemptCount)
    && (forall j, k | 0 <= j < k < |s.calls| :: s.calls[j].ticket != s.calls[k].ticket)
  }

  ghost predicate TicketsInv(s: State) {
    AttemptsAreCounted(s.store) && TicketsAreHeldOnce(s) && CallsAreTicketed(s)
  }

  lemma StoreKeepsAttempts(s: State, l: Label)
    requires AttemptsAreCounted(s.store) && Apply(s, l).Some?
    ensures AttemptsAreCounted(Apply(s, l).value.store)
    ensures s.store.dispatch.attemptCount <= Apply(s, l).value.store.dispatch.attemptCount
  {
  }

  /** The step issues no ticket and uses none. */
  ghost predicate LeavesTickets(s: State, s': State) {
    && s'.calls == s.calls
    && (forall pid, t: int | Holds(s', pid, t) :: Holds(s, pid, t))
    && (forall pid, t: int | IsArmed(s', pid, t) :: IsArmed(s, pid, t))
  }

  lemma MostStepsLeaveTickets(s: State, l: Label)
    requires Apply(s, l).Some? && !l.SenderClaims? && !l.SenderCalls?
    ensures LeavesTickets(s, Apply(s, l).value)
  {
  }

  lemma ClaimIssuesTicket(s: State, l: Label)
    requires TicketsInv(s) && Apply(s, l).Some? && l.SenderClaims?
    ensures TicketsInv(Apply(s, l).value)
  {
    StoreKeepsAttempts(s, l);
    var s' := Apply(s, l).value;
    var issued := s'.store.dispatch.attemptCount;
    assert s'.calls == s.calls;
    if issued == s.store.dispatch.attemptCount {
      assert LeavesTickets(s, s');
    } else {
      assert forall pid, t: int | Holds(s', pid, t) :: Holds(s, pid, t) || (pid == l.pid && t == issued);
      assert forall pid, t: int | IsArmed(s', pid, t) :: IsArmed(s, pid, t) || (pid == l.pid && t == issued);
      assert forall t: int | WasUsed(s', t) :: WasUsed(s, t) && t < issued;
    }
  }

  lemma CallUsesTicket(s: State, l: Label)
    requires TicketsInv(s) && Apply(s, l).Some? && l.SenderCalls?
    ensures TicketsInv(Apply(s, l).value)
  {
    var s' := Apply(s, l).value;
    var ticket := s.procs[l.pid].sender.ticket;
    assert IsArmed(s, l.pid, ticket) && Holds(s, l.pid, ticket);
    assert forall pid, t: int | Holds(s', pid, t) :: Holds(s, pid, t);
    assert forall pid, t: int | IsArmed(s', pid, t) :: IsArmed(s, pid, t) && pid != l.pid && Holds(s, pid, t);
    assert forall t: int | WasUsed(s', t) :: WasUsed(s, t) || t == ticket;
  }

  lemma StepKeepsTickets(s: State, l: Label)
    requires TicketsInv(s) && Apply(s, l).Some?
    ensures TicketsInv(Apply(s, l).value)
  {
    if l.SenderClaims? {
      ClaimIssuesTicket(s, l);
    } else if l.SenderCalls? {
      CallUsesTicket(s, l);
    } else {
      StoreKeepsAttempts(s, l);
      MostStepsLeaveTickets(s, l);
    }
  }

  // ---------------------------------------------------------------------------
  // Outcomes: what the stored dispatch says about the calls made
  // ---------------------------------------------------------------------------

  predicate MayHaveDelivered(c: Call) {
    !c.outcome.RejectedBeforeStart?
  }

  ghost predicate NothingStarted(s: State) {
    forall k | 0 <= k < |s.calls| :: !MayHaveDelivered(s.calls[k])
  }

  ghost predicate WasAccepted(s: State, externalMessageId: string) {
    exists k :: 0 <= k < |s.calls| && s.calls[k].outcome == Accepted(externalMessageId)
  }

  /** A sender that knows its outcome knows it from its own call. */
  ghost predicate SendersKnow(s: State) {
    forall pid | pid in s.procs && s.procs[pid].Sender? ::
      var stage := s.procs[pid].sender;
      && (stage.Submitting? ==> WasAccepted(s, stage.externalMessageId))
      && (stage.SafeFailing? ==>
            forall k | 0 <= k < |s.calls| && s.calls[k].ticket == stage.ticket :: !MayHaveDelivered(s.calls[k]))
  }

  predicate IsSubmitted(status: DispatchStatus) {
    status.Submitted? || status.Ambiguous? || IsConfirmed(status)
  }

  predicate FailedSafely(d: Dispatch) {
    d.status.Failed? && d.errorMessage == Some(SafePreExternalFailure) && d.attemptCount == 1
  }

  ghost predicate NobodyHolds(s: State) {
    forall pid, t: int :: !Holds(s, pid, t)
  }

  /** What the manual recoveries so far leave intact. `alone`: none was granted while a
      sender still held its claim. `clean`: nor after a call that may have sent something. */
  datatype Trust = Trust(alone: bool, clean: bool)

  ghost function TrustAfter(s: State, l: Label, trust: Trust): Trust {
    if l.OperatorRearms?
    then Trust(trust.alone && NobodyHolds(s), trust.clean && NobodyHolds(s) && NothingStarted(s))
    else trust
  }

  /** Uncertain, submitted or beyond, or failed by the provider's own report. */
  predicate AdmitsASend(d: Dispatch) {
    || d.status.Processing? || IsSubmitted(d.status)
    || (d.status.Failed? && d.errorMessage == Some(FailedBeforeServerAck))
  }

  ghost predicate DispatchTellsTheTruth(s: State, trust: Trust) {
    var d := s.store.dispatch;
    && (d.externalMessageId.Some? ==> WasAccepted(s, d.externalMessageId.value))
    && (IsSubmitted(d.status) ==> d.externalMessageId.Some?)
    && (d.status.Pending? || d.status.Processing? ==> d.externalMessageId.None?)
    && (FailedSafely(d) ==> NothingStarted(s) && NobodyHolds(s))
    && (trust.clean ==> trust.alone)
    && (trust.alone ==> forall pid, t: int | Holds(s, pid, t) :: d.status.Processing? && t == d.attemptCount)
    && (trust.clean ==>
          && (forall k | 0 <= k < |s.calls| && s.calls[k].ticket < d.attemptCount :: !MayHaveDelivered(s.calls[k]))
          && (!NothingStarted(s) ==> AdmitsASend(d)))
  }

  ghost predicate OutcomesInv(s: State, trust: Trust) {
    TicketsInv(s) && SendersKnow(s) && DispatchTellsTheTruth(s, trust)
  }

  /** The step leaves the dispatch alone and moves no sender. */
  ghost predicate LeavesSenders(s: State, s': State) {
    && s'.calls == s.calls && s'.store.dispatch == s.store.dispatch && s'.store.rearmed == s.store.rearmed
    && forall pid | pid in s'.procs && s'.procs[pid].Sender? :: pid in s.procs && s.procs[pid] == s'.procs[pid]
  }

  predicate IsSenderLabel(l: Label) {
    l.SenderReads? || l.SenderClaims? || l.SenderAborts? || l.SenderIsRefused? || l.SenderCalls?
    || l.SenderSubmits? || l.SenderMarksSafeFailure?
  }

  predicate IsDispatchEvent(l: Label) {
    l.ProviderReports? || l.ConfirmationExpires? || l.OperatorRearms?
  }

  lemma OtherStepsLeaveSenders(s: State, l: Label)
    requires Apply(s, l).Some? && !IsSenderLabel(l) && !IsDispatchEvent(l)
    ensures LeavesSenders(s, Apply(s, l).value)
  {
  }

  lemma LeavingSendersKeepsOutcomes(s: State, s': State, trust: Trust)
    requires OutcomesInv(s, trust) && TicketsInv(s') && LeavesSenders(s, s')
    ensures OutcomesInv(s', trust)
  {
    assert forall pid, t: int | Holds(s', pid, t) :: Holds(s, pid, t);
    assert forall e | WasAccepted(s, e) :: WasAccepted(s', e);
  }

  /** An event moves only the dispatch, and forward. */
  ghost predicate MovesForward(d: Dispatch, d': Dispatch, rearms: bool) {
    && d'.attemptCount == d.attemptCount && d'.externalMessageId == d.externalMessageId
    && (|| d' == d
        || (rearms && d.status.Processing? && d.externalMessageId.None? && d'.status.Pending?)
        || (IsSubmitted(d.status) && IsSubmitted(d'.status))
        || (IsSubmitted(d.status) && d'.status.Failed? && d'.errorMessage == Some(FailedBeforeServerAck)))
  }

  lemma EventsMoveForward(s: State, l: Label)
    requires Apply(s, l).Some? && IsDispatchEvent(l)
    ensures var s' := Apply(s, l).value;
      && s'.calls == s.calls && s'.procs == s.procs
      && MovesForward(s.store.dispatch, s'.store.dispatch, l.OperatorRearms?)
      && s'.store.rearmed == (s.store.rearmed || l.OperatorRearms?)
  {
  }

  lemma EventKeepsOutcomes(s: State, l: Label, trust: Trust)
    requires OutcomesInv(s, trust) && Apply(s, l).Some? && IsDispatchEvent(l)
    ensures OutcomesInv(Apply(s, l).value, TrustAfter(s, l, trust))
  {
    StepKeepsTickets(s, l);
    EventsMoveForward(s, l);
    var s' := Apply(s, l).value;
    assert forall e | WasAccepted(s, e) :: WasAccepted(s', e);
    assert NothingStarted(s') <==> NothingStarted(s);
    assert forall pid, t: int | Holds(s', pid, t) :: Holds(s, pid, t);
  }

  lemma TicketsDiffer(s: State, p: nat, q: nat, t: int, u: int)
    requires TicketsInv(s) && Holds(s, p, t) && Holds(s, q, u) && p != q
    ensures t != u
  {
    assert t == u ==> Holds(s, q, t);
  }

  lemma CallKeepsOutcomes(s: State, l: Label, trust: Trust)
    requires OutcomesInv(s, trust) && Apply(s, l).Some? && l.SenderCalls?
    ensures OutcomesInv(Apply(s, l).value, TrustAfter(s, l, trust))
  {
    StepKeepsTickets(s, l);
    var s' := Apply(s, l).value;
    var ticket := s.procs[l.pid].sender.ticket;
    assert IsArmed(s, l.pid, ticket) && Holds(s, l.pid, ticket);
    assert s'.calls[|s.calls|] == Call(ticket, l.outcome);
    forall e | WasAccepted(s, e) ensures WasAccepted(s', e) {
      var k :| 0 <= k < |s.calls| && s.calls[k].outcome == Accepted(e);
      assert s'.calls[k] == s.calls[k];
    }
    forall k | 0 <= k < |s.calls| ensures s.calls[k].ticket != ticket {
      if s.calls[k].ticket == ticket {
        assert WasUsed(s, ticket);
      }
    }
    assert s'.store == s.store;
    forall pid, t: int | Holds(s', pid, t) ensures Holds(s, pid, t) && (pid == l.pid || t != ticket) {
      if pid != l.pid {
        TicketsDiffer(s, pid, l.pid, t, ticket);
      }
    }
    assert SendersKnow(s') by {
      forall pid | pid in s'.procs && s'.procs[pid].Sender? && pid != l.pid && s'.procs[pid].sender.SafeFailing?
        ensures s'.procs[pid].sender.ticket != ticket
      {
        assert Holds(s', pid, s'.procs[pid].sender.ticket);
      }
      if l.outcome.Accepted? {
        assert s'.calls[|s.calls|].outcome == Accepted(l.outcome.externalMessageId);
      }
    }
  }

  /** A claim: from pending to processing with a new ticket, or to failed. */
  lemma ClaimKeepsOutcomes(s: State, l: Label, trust: Trust)
    requires OutcomesInv(s, trust) && Apply(s, l).Some? && l.SenderClaims?
    ensures OutcomesInv(Apply(s, l).value, TrustAfter(s, l, trust))
  {
    StepKeepsTickets(s, l);
    var s' := Apply(s, l).value;
    assert s'.calls == s.calls;
    assert forall e | WasAccepted(s, e) :: WasAccepted(s', e);
    assert NothingStarted(s') <==> NothingStarted(s);
    assert forall pid, t: int | Holds(s', pid, t) :: Holds(s, pid, t) || (pid == l.pid && s'.store.dispatch.status.Processing?);
  }

  /** Where nobody else holds a claim, there is one holder. */
  lemma AloneHolder(s: State, pid: nat, ticket: int, trust: Trust)
    requires OutcomesInv(s, trust) && trust.alone && Holds(s, pid, ticket)
    ensures ticket == s.store.dispatch.attemptCount
    ensures forall q, t: int | Holds(s, q, t) :: q == pid
  {
    forall q, t: int | Holds(s, q, t) ensures q == pid {
      assert t == ticket;
    }
  }

  /** In a first attempt there is one holder, and every call was its own. */
  lemma OnlyHolder(s: State, pid: nat, ticket: int)
    requires TicketsInv(s) && Holds(s, pid, ticket) && s.store.dispatch.attemptCount <= 1
    ensures forall q, t: int | Holds(s, q, t) :: q == pid && t == ticket
    ensures forall k | 0 <= k < |s.calls| :: s.calls[k].ticket == ticket
  {
    forall q, t: int | Holds(s, q, t) ensures q == pid && t == ticket {
      assert t == 1 && ticket == 1;
    }
  }

  /** The sender gives up its ticket, or keeps it without touching the dispatch. */
  lemma ReleaseKeepsSenders(s: State, l: Label, trust: Trust)
    requires OutcomesInv(s, trust) && Apply(s, l).Some?
    requires IsSenderLabel(l) && !l.SenderClaims? && !l.SenderCalls?
    ensures SendersKnow(Apply(s, l).value) && Apply(s, l).value.calls == s.calls
  {
    var s' := Apply(s, l).value;
    assert forall e | WasAccepted(s, e) :: WasAccepted(s', e);
    if l.SenderIsRefused? {
      var ticket := s.procs[l.pid].sender.ticket;
      assert IsArmed(s, l.pid, ticket);
      forall k | 0 <= k < |s.calls| ensures s.calls[k].ticket != ticket {
        if s.calls[k].ticket == ticket {
          assert WasUsed(s, ticket);
        }
      }
    }
  }

  lemma ReleaseLeavesNoTicket(s: State, l: Label, trust: Trust)
    requires OutcomesInv(s, trust) && Apply(s, l).Some?
    requires l.SenderAborts? || l.SenderSubmits? || l.SenderMarksSafeFailure?
    ensures var s' := Apply(s, l).value;
            && (forall pid, t: int | Holds(s', pid, t) :: pid != l.pid && Holds(s, pid, t))
            && (s.store.dispatch.attemptCount <= 1 || trust.alone ==> NobodyHolds(s'))
  {
    var s' := Apply(s, l).value;
    var ticket := TicketOf(s.procs[l.pid]).value;
    assert Holds(s, l.pid, ticket);
    assert forall pid, t: int | Holds(s', pid, t) :: pid != l.pid && Holds(s, pid, t);
    if s.store.dispatch.attemptCount <= 1 {
      OnlyHolder(s, l.pid, ticket);
    }
    if trust.alone {
      AloneHolder(s, l.pid, ticket, trust);
    }
  }

  lemma SafeFailureKeepsTruth(s: State, l: Label, trust: Trust)
    requires OutcomesInv(s, trust) && Apply(s, l).Some? && (l.SenderAborts? || l.SenderMarksSafeFailure?)
    ensures DispatchTellsTheTruth(Apply(s, l).value, trust)
  {
    StepKeepsTickets(s, l);
    ReleaseLeavesNoTicket(s, l, trust);
    var s' := Apply(s, l).value;
    assert s'.calls == s.calls;
    assert forall e | WasAccepted(s, e) :: WasAccepted(s', e);
    var ticket := TicketOf(s.procs[l.pid]).value;
    assert Holds(s, l.pid, ticket);
    if s.store.dispatch.attemptCount <= 1 {
      OnlyHolder(s, l.pid, ticket);
      assert IsArmed(s, l.pid, ticket) ==> !WasUsed(s, ticket);
      assert NothingStarted(s');
    }
    if trust.clean {
      AloneHolder(s, l.pid, ticket, trust);
      assert IsArmed(s, l.pid, ticket) ==> !WasUsed(s, ticket);
      assert NothingStarted(s');
    }
  }

  lemma SubmissionKeepsTruth(s: State, l: Label, trust: Trust)
    requires OutcomesInv(s, trust) && Apply(s, l).Some? && l.SenderSubmits?
    ensures DispatchTellsTheTruth(Apply(s, l).value, trust)
  {
    ReleaseLeavesNoTicket(s, l, trust);
    var s' := Apply(s, l).value;
    assert s'.calls == s.calls;
    assert forall e | WasAccepted(s, e) :: WasAccepted(s', e);
    assert NothingStarted(s') <==> NothingStarted(s);
    var stage := s.procs[l.pid].sender;
    assert Holds(s, l.pid, stage.ticket);
    assert WasAccepted(s, stage.externalMessageId);
  }

  lemma StepKeepsOutcomes(s: State, l: Label, trust: Trust)
    requires OutcomesInv(s, trust) && Apply(s, l).Some?
    ensures OutcomesInv(Apply(s, l).value, TrustAfter(s, l, trust))
  {
    StepKeepsTickets(s, l);
    if !IsSenderLabel(l) && !IsDispatchEvent(l) {
      OtherStepsLeaveSenders(s, l);
      LeavingSendersKeepsOutcomes(s, Apply(s, l).value, trust);
    } else if IsDispatchEvent(l) {
      EventKeepsOutcomes(s, l, trust);
    } else if l.SenderCalls? {
      CallKeepsOutcomes(s, l, trust);
    } else if l.SenderClaims? {
      ClaimKeepsOutcomes(s, l, trust);
    } else {
      ReleaseKeepsSenders(s, l, trust);
      if l.SenderAborts? || l.SenderMarksSafeFailure? {
        SafeFailureKeepsTruth(s, l, trust);
      } else if l.SenderSubmits? {
        SubmissionKeepsTruth(s, l, trust);
      } else {
        QuietStepKeepsTruth(s, l, trust);
      }
    }
  }

  lemma QuietStepKeepsTruth(s: State, l: Label, trust: Trust)
    requires OutcomesInv(s, trust) && Apply(s, l).Some? && (l.SenderReads? || l.SenderIsRefused?)
    ensures DispatchTellsTheTruth(Apply(s, l).value, trust)
  {
    MostStepsLeaveTickets(s, l);
    var s' := Apply(s, l).value;
    assert s'.store == s.store;
    assert forall e | WasAccepted(s, e) :: WasAccepted(s', e);
    assert NothingStarted(s') <==> NothingStarted(s);
  }

  // ---------------------------------------------------------------------------
  // Nothing goes back
  // ---------------------------------------------------------------------------

  /** How far a dispatch that was not failed has got. */
  function Stage(status: DispatchStatus): nat {
    match status
    case Pending => 0
    case Processing => 1
    case Submitted => 2
    case Sent => 3
    case Delivered => 4
    case Read => 5
    case Failed => 6
    case Ambiguous => 6
  }

  /** Only an operator puts a dispatch back; failed is final; and as long as no recovery was
      granted while a sender held its claim, nothing else goes back and a confirmed
      dispatch stays confirmed. */
  lemma NothingGoesBack(s: State, l: Label, trust: Trust)
    requires OutcomesInv(s, trust) && Apply(s, l).Some?
    ensures var d, d' := s.store.dispatch, Apply(s, l).value.store.dispatch;
      && (!l.OperatorRearms? ==> d'.status.Pending? ==> d == d')
      && (d.status.Failed? ==> d'.status.Failed?)
      && (trust.alone && !l.OperatorRearms? ==> Stage(d.status) <= Stage(d'.status))
      && (trust.alone && IsConfirmed(d.status) ==> IsConfirmed(d'.status))
  {
    if l.SenderAborts? || l.SenderMarksSafeFailure? {
      assert Holds(s, l.pid, TicketOf(s.procs[l.pid]).value);
    }
  }

  lemma AmbiguousOutboxStays(s: State, l: Label)
    requires Apply(s, l).Some? && s.store.outbox.status.OutboxAmbiguous?
    ensures Apply(s, l).value.store.outbox == s.store.outbox
  {
  }

  // ---------------------------------------------------------------------------
  // The run never calls safe what was not
  // ---------------------------------------------------------------------------

  predicate RunIsSafelyFailed(run: PipelineRun) {
    run.finalStatus.FinalFailed? && !run.investigationRequired
  }

  ghost predicate RunTellsTheTruth(s: State, alone: bool) {
    && (RunIsSafelyFailed(s.store.run) ==> s.store.dispatch.status.Failed?)
    && (alone && s.store.run.finalStatus.FinalSent? ==> IsConfirmed(s.store.dispatch.status))
    && forall pid | pid in s.procs && s.procs[pid].Finalizer? && s.procs[pid].finalizer.Writing? ::
         var kind := s.procs[pid].finalizer.kind;
         && (kind.KindFailed? ==> s.store.dispatch.status.Failed?)
         && (alone && kind.KindSent? ==> IsConfirmed(s.store.dispatch.status))
  }

  predicate IsFinalizerLabel(l: Label) {
    l.FinalizerReads? || l.FinalizerWrites?
  }

  lemma FinalizerKeepsRunTrue(s: State, l: Label, alone: bool)
    requires RunTellsTheTruth(s, alone) && Apply(s, l).Some? && IsFinalizerLabel(l)
    ensures RunTellsTheTruth(Apply(s, l).value, alone)
  {
  }

  lemma OthersLeaveFinalizers(s: State, l: Label)
    requires Apply(s, l).Some? && !IsFinalizerLabel(l)
    ensures var s' := Apply(s, l).value;
      && (s'.store.run.finalStatus == s.store.run.finalStatus || s'.store.run.finalStatus.FinalAmbiguous?)
      && (RunIsSafelyFailed(s'.store.run) ==> RunIsSafelyFailed(s.store.run))
      && (s.store.rearmed ==> s'.store.rearmed)
      && forall pid | pid in s'.procs && s'.procs[pid].Finalizer? :: pid in s.procs && s.procs[pid] == s'.procs[pid]
  {
  }

  lemma StepKeepsRunTrue(s: State, l: Label, trust: Trust)
    requires OutcomesInv(s, trust) && RunTellsTheTruth(s, trust.alone) && Apply(s, l).Some?
    ensures RunTellsTheTruth(Apply(s, l).value, TrustAfter(s, l, trust).alone)
  {
    if IsFinalizerLabel(l) {
      FinalizerKeepsRunTrue(s, l, trust.alone);
    } else {
      NothingGoesBack(s, l, trust);
      OthersLeaveFinalizers(s, l);
    }
  }
}
