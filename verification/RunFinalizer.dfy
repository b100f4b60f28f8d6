/** What follows the finalization of a run: the candidate is marked and the reservation
    released, but only by its owner (apps/api/src/commercial-pipeline-run-finalizer.ts). */
module RunFinalizer {
  import opened Wrappers
  import opened DispatchStore

  /** The run of the dispatch; the execution id may be absent (legacy) or not selected. */
  datatype ExecutionLink = Legacy | Unlinked | LinkedTo(executionId: string)

  datatype FinalizedRun = FinalizedRun(id: string, execution: ExecutionLink)

  datatype Execution = Execution(id: string, commercialRunId: Option<string>)

  /** The candidate and campaign of a copy, and who holds the campaign's reservation. */
  datatype AttemptContext = AttemptContext(candidateId: string, campaignId: string, owner: Option<string>)

  datatype Dispatched = Dispatched(candidateId: string, campaignId: string)

  datatype Reservation = Reservation(campaignId: string, executionId: string)

  /** What the finalizer does to candidate and campaign. */
  datatype Act =
    | MarksDispatched
    | ResetsFailures(expected: Option<Reservation>)
    | Releases(reservation: Reservation)
    | MarksBlocked

  /** Everything the finalizer is answered, if it asks. `None` stands for an error, or for
      nothing found; the mark may answer nothing without an error. */
  datatype Answers = Answers(
    finalization: Option<FinalizationKind>,
    run: Option<FinalizedRun>,
    execution: Option<Execution>,
    context: Option<AttemptContext>,
    marked: Option<Dispatched>,
    markThrew: bool,
    reset: Option<string>)

  /** The run's execution is the one it names and names the run, and it holds the
      reservation of the copy's campaign. */
  predicate IsOwner(a: Answers) {
    && a.run.Some? && a.run.value.execution.LinkedTo?
    && var executionId := a.run.value.execution.executionId;
       && a.execution == Some(Execution(executionId, Some(a.run.value.id)))
       && a.context.Some? && a.context.value.owner == Some(executionId)
  }

  function Own(a: Answers): Reservation
    requires IsOwner(a)
  {
    Reservation(a.context.value.campaignId, a.run.value.execution.executionId)
  }

  /** The mark answered the candidate and the campaign of the copy. */
  predicate MarkAgrees(a: Answers) {
    a.context.Some? && a.marked == Some(Dispatched(a.context.value.candidateId, a.context.value.campaignId))
  }

  /** The reset answered the campaign of the copy. */
  predicate ResetAgrees(a: Answers) {
    a.context.Some? && a.reset == Some(a.context.value.campaignId)
  }

  /** What the finalizer must do, given what it is answered: after a send by the owner it marks
      the candidate, resets the failures if the mark agreed, and releases the reservation if
      the reset did too; after a send without execution it marks, and resets for nobody's
      reservation in particular unless the mark threw; after a failure it blocks; after an
      uncertain outcome it does nothing. */
  function ActsFor(a: Answers, hasCandidates: bool, hasReservations: bool): seq<Act> {
    if !hasCandidates || a.finalization.None? || a.finalization.value.KindAmbiguous? then []
    else if a.finalization.value.KindFailed? then [MarksBlocked]
    else if a.run.Some? && a.run.value.execution.Legacy? then
      [MarksDispatched] + if a.markThrew then [] else [ResetsFailures(None)]
    else if hasReservations && IsOwner(a) then
      [MarksDispatched]
      + (if MarkAgrees(a) then [ResetsFailures(Some(Own(a)))] else [])
      + (if MarkAgrees(a) && ResetAgrees(a) then [Releases(Own(a))] else [])
    else []
  }

  /** A reservation is released exactly when the run was sent, its execution is the owner,
      and the mark and the reset both answered the copy's candidate and campaign; and then
      it is the owner's own. */
  lemma ReleasedExactlyWhenEveryLinkAgrees(a: Answers, x: Reservation)
    ensures Releases(x) in ActsFor(a, true, true)
       <==> && a.finalization == Some(KindSent)
            && a.run.Some? && a.run.value.execution == LinkedTo(x.executionId)
            && a.execution.Some? && a.execution.value.id == x.executionId
            && a.execution.value.commercialRunId == Some(a.run.value.id)
            && a.context.Some? && a.context.value.owner == Some(x.executionId)
            && a.context.value.campaignId == x.campaignId
            && a.marked.Some? && a.marked.value.candidateId == a.context.value.candidateId
            && a.marked.value.campaignId == x.campaignId && a.reset == Some(x.campaignId)
  {
    var acts := ActsFor(a, true, true);
    var legacy := a.run.Some? && a.run.value.execution.Legacy?;
    if a.finalization == Some(KindSent) && IsOwner(a) && !legacy {
      assert Releases(x) in acts <==> MarkAgrees(a) && ResetAgrees(a) && x == Own(a) by {
        if MarkAgrees(a) && ResetAgrees(a) {
          assert acts == [MarksDispatched, ResetsFailures(Some(Own(a))), Releases(Own(a))];
        }
      }
    } else {
      assert Releases(x) !in acts;
    }
  }

  /** Nothing is touched after an uncertain outcome, a candidate is blocked exactly after a
      failure and marked as sent only after a send, never both; and failures are reset, and
      reservations released, only for the owner or a run without execution. */
  lemma ActsFitTheOutcome(a: Answers, hasReservations: bool)
    ensures var acts := ActsFor(a, true, hasReservations);
      && (MarksBlocked in acts <==> a.finalization == Some(KindFailed))
      && (MarksDispatched in acts ==> a.finalization == Some(KindSent))
      && (a.finalization in {None, Some(KindAmbiguous)} ==> acts == [])
      && (forall x | ResetsFailures(x) in acts || (x.Some? && Releases(x.value) in acts) ::
            if x.Some? then hasReservations && IsOwner(a) && x.value == Own(a)
            else a.run.Some? && a.run.value.execution.Legacy?)
  {
    var acts := ActsFor(a, true, hasReservations);
    if a.finalization == Some(KindFailed) {
      assert acts == [MarksBlocked];
    } else if a.finalization != Some(KindSent) {
      assert acts == [];
    }
  }

  class Finalizer {
    const hasCandidates: bool
    const hasReservations: bool
    ghost var acts: seq<Act>

    constructor (hasCandidates: bool, hasReservations: bool)
      ensures acts == [] && this.hasCandidates == hasCandidates && this.hasReservations == hasReservations
    {
      this.hasCandidates, this.hasReservations := hasCandidates, hasReservations;
      acts := [];
    }

    /** Does to candidate and campaign exactly what the answers call for. */
    method Finalize(a: Answers)
      requires acts == []
      modifies this`acts
      ensures acts == ActsFor(a, hasCandidates, hasReservations)
    {
      if a.finalization.None? || !hasCandidates {
        return;
      }
      match a.finalization.value {
        case KindAmbiguous =>
        case KindFailed =>
          acts := [MarksBlocked];
        case KindSent =>
          FinalizeSent(a);
      }
    }

    method FinalizeSent(a: Answers)
      requires acts == [] && a.finalization == Some(KindSent) && hasCandidates
      modifies this`acts
      ensures acts == ActsFor(a, hasCandidates, hasReservations)
    {
      if a.run.None? {
        return;
      }
      match a.run.value.execution {
        case Unlinked =>
        case Legacy =>
          acts := [MarksDispatched];
          if !a.markThrew {
            acts := acts + [ResetsFailures(None)];
          }
        case LinkedTo(executionId) =>
          FinalizeOwned(a, executionId);
      }
    }

    method FinalizeOwned(a: Answers, executionId: string)
      requires acts == [] && a.finalization == Some(KindSent) && hasCandidates
      requires a.run.Some? && a.run.value.execution == LinkedTo(executionId)
      modifies this`acts
      ensures acts == ActsFor(a, hasCandidates, hasReservations)
    {
      if !hasReservations {
        return;
      }
      if a.execution.None? || a.execution.value.id != executionId
         || a.execution.value.commercialRunId != Some(a.run.value.id) {
        return;
      }
      if a.context.None? || a.context.value.owner != Some(executionId) {
        return;
      }
      var context, own := a.context.value, Reservation(a.context.value.campaignId, executionId);
      acts := [MarksDispatched];
      if a.marked.None? || a.marked.value.candidateId != context.candidateId
         || a.marked.value.campaignId != context.campaignId {
        return;
      }
      acts := acts + [ResetsFailures(Some(own))];
      if a.reset != Some(context.campaignId) {
        return;
      }
      acts := acts + [Releases(own)];
    }
  }
}
