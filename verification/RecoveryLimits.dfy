/** What a manual recovery costs: exactly when putting an attempt back to pending can lead
    to a second call, to a false safe failure, or to a sent run without a confirmed
    dispatch (apps/api/src/prisma-whatsapp-dispatch-manual-recovery-repository.ts:817-915). */
module RecoveryLimits {
  import opened Wrappers
  import opened DispatchStore
  import opened DispatchProtocol
  import opened ProtocolSafety
  import opened SafetyTheorems

  function Rearmed(r: State): State {
    r.(store := Rearm(r.store))
  }

  /** `s` can follow once the operator has rearmed the dispatch in `r`. */
  ghost predicate Follows(r: State, more: seq<Label>, s: State) {
    Execute(Rearmed(r), more) == Some(s)
  }

  ghost predicate SomeoneIsArmed(s: State) {
    exists pid, t: int :: IsArmed(s, pid, t)
  }

  /** Recorded as failed before the request, after a call that may have sent something. */
  ghost predicate FailedFalsely(s: State) {
    && s.store.dispatch.status.Failed? && s.store.dispatch.errorMessage == Some(SafePreExternalFailure)
    && !NothingStarted(s)
  }

  ghost predicate SentUnconfirmed(s: State) {
    s.store.run.finalStatus.FinalSent? && !IsConfirmed(s.store.dispatch.status)
  }

  // ---------------------------------------------------------------------------
  // What every continuation keeps
  // ---------------------------------------------------------------------------

  /** Before its one recovery a run has lost nothing. */
  lemma {:induction false} TrustBeforeRecovery(start: State, labels: seq<Label>)
    requires Execute(start, labels).Some? && !Execute(start, labels).value.store.rearmed
    ensures TrustOf(start, labels) == Trust(true, true)
  {
    if labels != [] {
      RearmingStays(Execute(start, labels[..|labels| - 1]).value, labels[|labels| - 1]);
      TrustBeforeRecovery(start, labels[..|labels| - 1]);
    }
  }

  lemma RearmingStays(s: State, l: Label)
    requires Apply(s, l).Some?
    ensures s.store.rearmed || l.OperatorRearms? ==> Apply(s, l).value.store.rearmed
    ensures s.store.rearmed ==> !l.OperatorRearms?
  {
  }

  ghost function TrustOnceRearmed(r: State): Trust {
    Trust(NobodyHolds(r), NobodyHolds(r) && NothingStarted(r))
  }

  lemma RearmedKeepsInvariants(start: State, labels: seq<Label>, r: State)
    requires Initial(start) && Execute(start, labels) == Some(r) && MayRearm(r.store)
    ensures OutcomesInv(Rearmed(r), TrustOnceRearmed(r))
    ensures RunTellsTheTruth(Rearmed(r), TrustOnceRearmed(r).alone)
    ensures Rearmed(r).store.rearmed
  {
    RunsKeepInvariants(start, labels);
    TrustBeforeRecovery(start, labels);
    StepKeepsOutcomes(r, OperatorRearms, Trust(true, true));
    StepKeepsRunTrue(r, OperatorRearms, Trust(true, true));
  }

  lemma {:induction false} ContinuationsKeepInvariants(r: State, more: seq<Label>, trust: Trust)
    requires OutcomesInv(r, trust) && RunTellsTheTruth(r, trust.alone) && r.store.rearmed
    requires Execute(r, more).Some?
    ensures var s := Execute(r, more).value;
            OutcomesInv(s, trust) && RunTellsTheTruth(s, trust.alone) && s.store.rearmed
  {
    if more != [] {
      var before, last := more[..|more| - 1], more[|more| - 1];
      ContinuationsKeepInvariants(r, before, trust);
      var s := Execute(r, before).value;
      RearmingStays(s, last);
      StepKeepsOutcomes(s, last, trust);
      StepKeepsRunTrue(s, last, trust);
    }
  }

  /** Every claim that may still be used, and every call made, is the recovery's own. */
  ghost predicate OnlyNewClaims(s: State) {
    && 1 <= s.store.dispatch.attemptCount
    && (forall pid, t: int | IsArmed(s, pid, t) :: 2 <= t)
    && (forall k | 0 <= k < |s.calls| :: 2 <= s.calls[k].ticket)
  }

  lemma StepKeepsOnlyNewClaims(s: State, l: Label)
    requires TicketsInv(s) && OnlyNewClaims(s) && Apply(s, l).Some?
    ensures OnlyNewClaims(Apply(s, l).value)
  {
    StoreKeepsAttempts(s, l);
    var s' := Apply(s, l).value;
    if l.SenderClaims? {
      assert s'.calls == s.calls;
      assert forall pid, t: int | IsArmed(s', pid, t) :: IsArmed(s, pid, t) || t == s.store.dispatch.attemptCount + 1;
    } else if l.SenderCalls? {
      assert IsArmed(s, l.pid, s.procs[l.pid].sender.ticket);
      assert forall pid, t: int | IsArmed(s', pid, t) :: IsArmed(s, pid, t);
    } else {
      MostStepsLeaveTickets(s, l);
    }
  }

  lemma {:induction false} ContinuationsKeepNewClaims(r: State, more: seq<Label>)
    requires TicketsInv(r) && OnlyNewClaims(r) && Execute(r, more).Some?
    ensures TicketsInv(Execute(r, more).value) && OnlyNewClaims(Execute(r, more).value)
  {
    if more != [] {
      var before, last := more[..|more| - 1], more[|more| - 1];
      ContinuationsKeepNewClaims(r, before);
      StepKeepsTickets(Execute(r, before).value, last);
      StepKeepsOnlyNewClaims(Execute(r, before).value, last);
    }
  }

  /** Calls that all carry a ticket above the first are one at most. */
  lemma AtMostOneNewCall(s: State)
    requires TicketsInv(s) && OnlyNewClaims(s)
    ensures |s.calls| <= 1
  {
    var renumbered := seq(|s.calls|, k requires 0 <= k < |s.calls| => Call(s.calls[k].ticket - 1, s.calls[k].outcome));
    TicketsFit(renumbered, 1);
  }

  // ---------------------------------------------------------------------------
  // What some continuation reaches
  // ---------------------------------------------------------------------------

  lemma {:induction false} AboveAll(keys: set<nat>) returns (p: nat)
    ensures forall k | k in keys :: k < p
    decreases |keys|
  {
    if keys == {} {
      p := 0;
    } else {
      var k :| k in keys;
      var q := AboveAll(keys - {k});
      p := if k < q then q else k + 1;
      forall j | j in keys ensures j < p {
        assert j == k || j in keys - {k};
      }
    }
  }

  /** A new sender claims the rearmed dispatch. */
  lemma NewSenderClaims(r: State) returns (p: nat, more: seq<Label>, s: State)
    requires MayRearm(r.store)
    ensures IsNew(r, p) && IsNew(r, p + 1) && Follows(r, more, s)
    ensures s.procs == r.procs[p := Sender(Armed(2))] && s.calls == r.calls
    ensures s.store == Rearm(r.store).(dispatch := r.store.dispatch.(attemptCount := 2, errorMessage := None))
  {
    p := AboveAll(r.procs.Keys);
    more, s := Extend(Rearmed(r), [], Rearmed(r), SenderReads(p));
    more, s := Extend(Rearmed(r), more, s, SenderClaims(p, Routing(false, "", {})));
  }

  lemma SecondCallFollows(r: State) returns (more: seq<Label>, s: State)
    requires MayRearm(r.store) && (r.calls != [] || SomeoneIsArmed(r))
    ensures Follows(r, more, s) && |s.calls| >= 2
  {
    var p;
    p, more, s := NewSenderClaims(r);
    if r.calls == [] {
      var q, t: int :| IsArmed(r, q, t);
      more, s := Extend(Rearmed(r), more, s, SenderCalls(q, RejectedBeforeStart));
    }
    more, s := Extend(Rearmed(r), more, s, SenderCalls(p, RejectedBeforeStart));
  }

  /** Once the recovery's claim is made, a call starts and another sender records a safe failure. */
  lemma FalseFailureFollows(r: State) returns (more: seq<Label>, s: State)
    requires SendersKnow(r) && MayRearm(r.store) && (!NothingStarted(r) || !NobodyHolds(r))
    ensures Follows(r, more, s) && FailedFalsely(s)
  {
    var p;
    p, more, s := NewSenderClaims(r);
    if !NothingStarted(r) {
      more, s := RefusedSenderFails(r, more, s, p);
    } else {
      var q, t: int :| Holds(r, q, t);
      if r.procs[q].sender.Armed? {
        more, s := Extend(Rearmed(r), more, s, SenderCalls(q, Unknown(true)));
        assert MayHaveDelivered(s.calls[|r.calls|]);
        more, s := RefusedSenderFails(r, more, s, p);
      } else {
        assert r.procs[q].sender.Submitting? ==> WasAccepted(r, r.procs[q].sender.externalMessageId);
        more, s := Extend(Rearmed(r), more, s, SenderCalls(p, Unknown(true)));
        assert MayHaveDelivered(s.calls[|r.calls|]);
        more, s := Extend(Rearmed(r), more, s, SenderMarksSafeFailure(q));
        assert MayHaveDelivered(s.calls[|r.calls|]);
      }
    }
  }

  lemma RefusedSenderFails(r: State, so: seq<Label>, u: State, p: nat) returns (more: seq<Label>, s: State)
    requires Follows(r, so, u) && SenderAt(u, p).Some? && SenderAt(u, p).value.Armed?
    ensures Follows(r, more, s) && s.calls == u.calls && s.store == MarkFailed(u.store, SafePreExternalFailure)
    ensures !NothingStarted(u) ==> FailedFalsely(s)
  {
    more, s := Extend(Rearmed(r), so, u, SenderIsRefused(p));
    more, s := Extend(Rearmed(r), more, s, SenderMarksSafeFailure(p));
  }

  /** The provider acknowledges a submitted dispatch, and a finalizer records the run as sent. */
  lemma SubmittedIsSent(r: State, so: seq<Label>, u: State, f: nat) returns (more: seq<Label>, s: State)
    requires Follows(r, so, u) && IsNew(u, f) && u.store.run.confirmed && !u.store.run.status.RunCompleted?
    requires u.store.dispatch.status.Submitted? && u.store.dispatch.externalMessageId.Some?
    ensures Follows(r, more, s) && s.store.run.finalStatus.FinalSent? && s.store.dispatch.status.Sent?
    ensures forall pid | pid != f :: SenderAt(s, pid) == SenderAt(u, pid)
  {
    more, s := Extend(Rearmed(r), so, u, ProviderReports(u.store.dispatch.externalMessageId.value, ServerAck, 0));
    more, s := Extend(Rearmed(r), more, s, FinalizerReads(f));
    more, s := Extend(Rearmed(r), more, s, FinalizerWrites(f));
  }

  /** The recovery's sender submits while the other still holds its claim. */
  lemma NewSenderSubmits(r: State, so: seq<Label>, u: State, p: nat, q: nat) returns (more: seq<Label>, s: State)
    requires Follows(r, so, u) && p != q && SenderAt(u, p) == Some(Armed(2))
    requires u.store.dispatch.status.Processing? && u.store.dispatch.externalMessageId.None?
    ensures Follows(r, more, s) && s.store.dispatch.status.Submitted? && s.store.dispatch.externalMessageId.Some?
    ensures s.store.run == u.store.run && SenderAt(s, q) == SenderAt(u, q)
    ensures forall f | IsNew(u, f) :: IsNew(s, f)
  {
    more, s := Extend(Rearmed(r), so, u, SenderCalls(p, Accepted("")));
    more, s := Extend(Rearmed(r), more, s, SenderSubmits(p));
  }

  /** Two senders hold claims: one is confirmed, and the other then writes its failure. */
  lemma LostConfirmationFollows(r: State) returns (more: seq<Label>, s: State)
    requires MayRearm(r.store) && !NobodyHolds(r)
    ensures Follows(r, more, s) && SentUnconfirmed(s)
  {
    var p;
    p, more, s := NewSenderClaims(r);
    var q, t: int :| Holds(r, q, t);
    if r.procs[q].sender.Submitting? {
      more, s := OldSenderSubmits(r, more, s, q, p);
      more, s := SubmittedIsSent(r, more, s, p + 1);
      more, s := RefusedSenderFails(r, more, s, p);
    } else {
      more, s := NewSenderSubmits(r, more, s, p, q);
      more, s := SubmittedIsSent(r, more, s, p + 1);
      if r.procs[q].sender.Armed? {
        more, s := RefusedSenderFails(r, more, s, q);
      } else {
        more, s := Extend(Rearmed(r), more, s, SenderMarksSafeFailure(q));
      }
    }
  }

  lemma OldSenderSubmits(r: State, so: seq<Label>, u: State, q: nat, p: nat) returns (more: seq<Label>, s: State)
    requires Follows(r, so, u) && p != q && SenderAt(u, q).Some? && SenderAt(u, q).value.Submitting?
    requires u.store.dispatch.status.Processing? && u.store.dispatch.externalMessageId.None?
    ensures Follows(r, more, s) && s.store.dispatch.status.Submitted? && s.store.dispatch.externalMessageId.Some?
    ensures s.store.run == u.store.run && SenderAt(s, p) == SenderAt(u, p)
    ensures forall f | IsNew(u, f) :: IsNew(s, f)
  {
    more, s := Extend(Rearmed(r), so, u, SenderSubmits(q));
  }

  // ---------------------------------------------------------------------------
  // The exact conditions
  // ---------------------------------------------------------------------------

  /** A second call can follow a manual recovery if and only if one was made before it or
      some sender was still about to make one. */
  lemma SecondCallExactlyWhen(start: State, labels: seq<Label>, r: State)
    requires Initial(start) && Execute(start, labels) == Some(r) && MayRearm(r.store)
    ensures (exists more, s :: Follows(r, more, s) && |s.calls| >= 2)
       <==> r.calls != [] || SomeoneIsArmed(r)
  {
    RearmedKeepsInvariants(start, labels, r);
    if r.calls != [] || SomeoneIsArmed(r) {
      var more, s := SecondCallFollows(r);
    } else {
      assert forall pid, t: int :: !IsArmed(Rearmed(r), pid, t) by {
        assert forall pid, t: int | IsArmed(Rearmed(r), pid, t) :: IsArmed(r, pid, t);
      }
      forall more, s | Follows(r, more, s) ensures |s.calls| <= 1 {
        ContinuationsKeepNewClaims(Rearmed(r), more);
        AtMostOneNewCall(s);
      }
    }
  }

  /** A manual recovery can end in a false safe failure if and only if a call that may have
      sent something came before it, or some sender still held its claim. */
  lemma FalseFailureExactlyWhen(start: State, labels: seq<Label>, r: State)
    requires Initial(start) && Execute(start, labels) == Some(r) && MayRearm(r.store)
    ensures (exists more, s :: Follows(r, more, s) && FailedFalsely(s))
       <==> !NothingStarted(r) || !NobodyHolds(r)
  {
    RunsKeepInvariants(start, labels);
    RearmedKeepsInvariants(start, labels, r);
    if !NothingStarted(r) || !NobodyHolds(r) {
      var more, s := FalseFailureFollows(r);
    } else {
      forall more, s | Follows(r, more, s) ensures !FailedFalsely(s) {
        ContinuationsKeepInvariants(Rearmed(r), more, TrustOnceRearmed(r));
      }
    }
  }

  /** After a manual recovery a run can be recorded as sent without a confirmed dispatch if
      and only if some sender still held its claim. */
  lemma LostConfirmationExactlyWhen(start: State, labels: seq<Label>, r: State)
    requires Initial(start) && Execute(start, labels) == Some(r) && MayRearm(r.store)
    ensures (exists more, s :: Follows(r, more, s) && SentUnconfirmed(s)) <==> !NobodyHolds(r)
  {
    RearmedKeepsInvariants(start, labels, r);
    if !NobodyHolds(r) {
      var more, s := LostConfirmationFollows(r);
    } else {
      forall more, s | Follows(r, more, s) ensures !SentUnconfirmed(s) {
        ContinuationsKeepInvariants(Rearmed(r), more, TrustOnceRearmed(r));
      }
    }
  }
}
