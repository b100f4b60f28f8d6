/** What finalizing makes of a run (apps/api/src/prisma-repositories.ts:4851-4983). */
module FinalizationLaws {
  import opened Wrappers
  import opened DispatchStore
  import opened DispatchProtocol

  /** The run is under way, sent, failed with nothing to investigate, or given up. */
  predicate IsShaped(run: PipelineRun) {
    || (run.status == RunStarted && run.finalStatus == FinalPending && !run.investigationRequired)
    || (run.status == RunCompleted && run.finalStatus == FinalSent && !run.investigationRequired)
    || (run.status == RunFailed && run.finalStatus == FinalFailed && !run.investigationRequired)
    || (run.status == RunFailed && run.finalStatus == FinalAmbiguous && run.investigationRequired)
  }

  ghost predicate RunIsShaped(s: State) {
    && s.store.run.confirmed && IsShaped(s.store.run)
    && (s.store.outbox.status.OutboxAmbiguous? ==> !s.store.run.status.RunStarted?)
  }

  lemma StepKeepsShape(s: State, l: Label)
    requires RunIsShaped(s) && Apply(s, l).Some?
    ensures RunIsShaped(Apply(s, l).value)
  {
  }

  /** In every run the stored run is confirmed and of one of these shapes, and a run whose
      outbox became ambiguous is no longer under way. */
  lemma {:induction false} RunsAreShaped(start: State, labels: seq<Label>)
    requires Initial(start) && Execute(start, labels).Some?
    ensures RunIsShaped(Execute(start, labels).value)
  {
    if labels != [] {
      RunsAreShaped(start, labels[..|labels| - 1]);
      StepKeepsShape(Execute(start, labels[..|labels| - 1]).value, labels[|labels| - 1]);
    }
  }

  /** A finalizer that nobody disturbs: it reads, and writes if there is something to write. */
  function Finalized(s: State, pid: nat): Option<State>
    requires IsNew(s, pid)
  {
    var read := Apply(s, FinalizerReads(pid));
    if read.None? then None
    else if FinalizerAt(read.value, pid) == Some(FinalizerDone) then read else Apply(read.value, FinalizerWrites(pid))
  }

  /** It settles the run: as sent exactly if the dispatch is confirmed or the run was sent
      already; otherwise as failed exactly if the dispatch failed or the run had failed with
      nothing to investigate; otherwise as given up, for investigation. It touches nothing
      else, and is done. */
  lemma FinalizerSettles(s: State, pid: nat)
    requires RunIsShaped(s) && IsNew(s, pid)
    ensures var after := Finalized(s, pid);
      && after.Some? && FinalizerAt(after.value, pid) == Some(FinalizerDone)
      && var run, run', d := s.store.run, after.value.store.run, s.store.dispatch;
         var sent := d.status in {Sent, Delivered, Read} || run.finalStatus == FinalSent;
         var failed := !sent && (d.status == Failed || (run.finalStatus == FinalFailed && !run.investigationRequired));
         && after.value.store == s.store.(run := run') && after.value.calls == s.calls
         && IsShaped(run') && run' == run.(status := run'.status, finalStatus := run'.finalStatus,
                                           investigationRequired := run'.investigationRequired,
                                           failureCode := run'.failureCode)
         && (run'.finalStatus == FinalSent <==> sent)
         && (run'.finalStatus == FinalFailed <==> failed)
         && (run'.finalStatus == FinalAmbiguous <==> !sent && !failed)
  {
  }

  /** So in every reachable state. */
  lemma EveryRunCanBeSettled(start: State, labels: seq<Label>, pid: nat)
    requires Initial(start) && Execute(start, labels).Some? && IsNew(Execute(start, labels).value, pid)
    ensures var s := Execute(start, labels).value;
      && Finalized(s, pid).Some?
      && var run' := Finalized(s, pid).value.store.run;
         && !run'.finalStatus.FinalPending?
         && (IsConfirmed(s.store.dispatch.status) ==> run'.status.RunCompleted? && run'.finalStatus.FinalSent?)
  {
    RunsAreShaped(start, labels);
    FinalizerSettles(Execute(start, labels).value, pid);
  }

  /** A finalizer's write goes through exactly if the run is confirmed and not settled
      better: sent always does; failed, if the run is under way or is to be investigated;
      given up, only if it is under way. */
  lemma WrittenExactlyWhen(s: Store, kind: FinalizationKind)
    requires IsShaped(s.run)
    ensures var (s', written) := WriteFinalization(s, kind);
      && (written <==> s.run.confirmed && match kind
                                          case KindSent => true
                                          case KindFailed => s.run.finalStatus in {FinalPending, FinalAmbiguous}
                                          case KindAmbiguous => s.run.finalStatus == FinalPending)
      && s'.dispatch == s.dispatch && s'.outbox == s.outbox && s'.queue == s.queue && s'.rearmed == s.rearmed
      && (!written ==> s' == s)
      && (written ==> IsShaped(s'.run) && s'.run.finalStatus == match kind
                                                                case KindSent => FinalSent
                                                                case KindFailed => FinalFailed
                                                                case KindAmbiguous => FinalAmbiguous)
  {
  }

  /** How well a run is settled. */
  function Settlement(run: PipelineRun): nat {
    match run.finalStatus
    case FinalPending => 0
    case FinalAmbiguous => 1
    case FinalFailed => 2
    case FinalSent => 3
  }

  /** Only a publisher that fails, or an investigation mark, ever settles a run worse than it
      was; nothing takes it back to pending. */
  lemma SettlementOnlyImproves(s: State, l: Label)
    requires RunIsShaped(s) && Apply(s, l).Some?
    ensures var s' := Apply(s, l).value;
      && (!l.PublisherFails? && !l.OperatorMarksInvestigation? ==> Settlement(s.store.run) <= Settlement(s'.store.run))
      && (s'.store.run.finalStatus.FinalPending? ==> s.store.run.finalStatus.FinalPending?)
  {
    if l.FinalizerWrites? && l.pid in s.procs && s.procs[l.pid].Finalizer? && s.procs[l.pid].finalizer.Writing? {
      WrittenExactlyWhen(s.store, s.procs[l.pid].finalizer.kind);
    }
  }

  /** A finalizer whose write did not go through reads once more, and only once. */
  lemma RefusedFinalizerReadsAgain(s: State, pid: nat)
    requires FinalizerAt(s, pid).Some? && FinalizerAt(s, pid).value.Writing?
    ensures var stage, after := FinalizerAt(s, pid).value, Apply(s, FinalizerWrites(pid));
      && after.Some?
      && FinalizerAt(after.value, pid)
         == Some(if !WriteFinalization(s.store, stage.kind).1 && stage.attempt != 1 then Resolving(1) else FinalizerDone)
  {
  }
}
