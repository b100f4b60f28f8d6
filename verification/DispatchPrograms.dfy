/** The publisher and the sender as they are written, step by step, each proved to be one
    process of the state machine whatever happens between its steps
    (apps/api/src/commercial-dispatch-outbox-publisher.ts:83-300,
     apps/api/src/sender-service.ts:98-490). */
module DispatchPrograms {
  import opened Wrappers
  import opened DispatchStore
  import opened DispatchProtocol
  import opened ClaimLaws

  predicate IsBy(l: Label, pid: nat) {
    match l
    case ProviderReports(_, _, _) => false
    case ConfirmationExpires => false
    case OperatorRearms => false
    case OperatorMarksInvestigation => false
    case JobIsDropped(_) => false
    case _ => l.pid == pid
  }

  lemma OthersLeaveProcess(s: State, l: Label, pid: nat)
    requires Apply(s, l).Some? && !IsBy(l, pid)
    ensures var s' := Apply(s, l).value;
            && (pid in s'.procs <==> pid in s.procs) && (pid in s.procs ==> s'.procs[pid] == s.procs[pid])
            && s'.store.dispatch.instanceName == s.store.dispatch.instanceName
  {
  }

  /** The calls one process made, and those of them that may have sent something. */
  datatype Tally = Tally(calls: nat, started: nat)

  function TallyOf(trace: seq<Label>, pid: nat): Tally {
    if trace == [] then Tally(0, 0)
    else
      var before, last := TallyOf(trace[..|trace| - 1], pid), trace[|trace| - 1];
      if last.SenderCalls? && last.pid == pid
      then Tally(before.calls + 1, before.started + if last.outcome.RejectedBeforeStart? then 0 else 1)
      else before
  }

  lemma TallyOfLonger(trace: seq<Label>, l: Label, pid: nat)
    ensures !l.SenderCalls? || l.pid != pid ==> TallyOf(trace + [l], pid) == TallyOf(trace, pid)
    ensures l.SenderCalls? && l.pid == pid ==>
              TallyOf(trace + [l], pid) == Tally(TallyOf(trace, pid).calls + 1,
                                                 TallyOf(trace, pid).started + if l.outcome.RejectedBeforeStart? then 0 else 1)
  {
    assert (trace + [l])[..|trace|] == trace;
  }

  /** The shared records, with the run that led to them. */
  class World {
    var state: State
    ghost const start: State
    ghost var trace: seq<Label>
    /** The records as each step found them. */
    ghost var met: set<Store>

    constructor (initial: State)
      ensures Valid() && state == start == initial && trace == [] && met == {}
    {
      state, start, trace, met := initial, initial, [], {};
    }

    ghost predicate Valid()
      reads this
    {
      Execute(start, trace) == Some(state)
    }

    /** One step of the machine. */
    method Take(l: Label)
      requires Valid() && Apply(state, l).Some?
      modifies this
      ensures Valid() && trace == old(trace) + [l] && met == old(met) + {old(state.store)}
      ensures Some(state) == Apply(old(state), l)
    {
      ghost var longer, s' := Extend(start, trace, state, l);
      met := met + {state.store};
      state := Apply(state, l).value;
      trace := trace + [l];
    }

    /** A step of a sender other than its call. */
    method TakeQuietly(l: Label, pid: nat)
      requires Valid() && Apply(state, l).Some? && !l.SenderCalls?
      modifies this
      ensures Valid() && old(trace) <= trace && met == old(met) + {old(state.store)}
      ensures TallyOf(trace, pid) == TallyOf(old(trace), pid)
      ensures Some(state) == Apply(old(state), l)
    {
      TallyOfLonger(trace, l, pid);
      Take(l);
    }

    /** Any number of steps by anyone but process `pid`. */
    method Meanwhile(pid: nat)
      requires Valid()
      modifies this
      ensures Valid() && old(trace) <= trace && old(met) <= met
      ensures TallyOf(trace, pid) == TallyOf(old(trace), pid)
      ensures pid in state.procs <==> pid in old(state.procs)
      ensures pid in state.procs ==> state.procs[pid] == old(state.procs[pid])
      ensures state.store.dispatch.instanceName == old(state.store.dispatch.instanceName)
    {
      var steps: nat := Arbitrary();
      for i := 0 to steps
        invariant Valid() && old(trace) <= trace && old(met) <= met
        invariant TallyOf(trace, pid) == TallyOf(old(trace), pid)
        invariant pid in state.procs <==> pid in old(state.procs)
        invariant pid in state.procs ==> state.procs[pid] == old(state.procs[pid])
        invariant state.store.dispatch.instanceName == old(state.store.dispatch.instanceName)
      {
        var l: Label := Arbitrary();
        if !IsBy(l, pid) && Apply(state, l).Some? {
          OthersLeaveProcess(state, l, pid);
          TallyOfLonger(trace, l, pid);
          Take(l);
        }
      }
    }
  }

  // ---------------------------------------------------------------------------
  // The publisher
  // ---------------------------------------------------------------------------

  method FailAmbiguous(w: World, pid: nat, failureCode: string) returns (outcome: Outcome)
    requires w.Valid() && PublisherAt(w.state, pid) == Some(Failing(failureCode))
    modifies w
    ensures w.Valid() && old(w.trace) <= w.trace
    ensures PublisherAt(w.state, pid) == Some(PublisherDone(outcome))
  {
    w.Meanwhile(pid);
    w.Take(PublisherFails(pid));
    return ThrewAmbiguous;
  }

  /** One call of `publish`, with anything at all happening between its reads and writes. */
  method Publish(w: World, pid: nat) returns (outcome: Outcome)
    requires w.Valid() && pid !in w.state.procs
    modifies w
    ensures w.Valid() && old(w.trace) <= w.trace
    ensures PublisherAt(w.state, pid) == Some(PublisherDone(outcome))
  {
    w.Meanwhile(pid);
    var context := FindPublicationContext(w.state.store);
    w.Take(PublisherReads(pid));
    var outbox := context.outbox;
    if outbox.status.OutboxAmbiguous? {
      return ThrewAmbiguous;
    }
    if !IdentitiesAreConsistent(context) {
      if IsConfirmed(context.dispatch.status) {
        return ThrewSentMetadataPending;
      }
      outcome := FailAmbiguous(w, pid, INCONSISTENT);
      return;
    }

    w.Meanwhile(pid);
    var readable: bool := Arbitrary();
    var existingJob := GetJob(w.state.store, outbox.jobId);
    w.Take(PublisherReadsJob(pid, readable));
    if !readable {
      outcome := FailAmbiguous(w, pid, UNCERTAIN);
      return;
    }
    outcome := PublishWithJob(w, pid, context, existingJob);
  }

  method PublishWithJob(w: World, pid: nat, context: Context, existingJob: Option<Job>) returns (outcome: Outcome)
    requires w.Valid() && PublisherAt(w.state, pid) == Some(AfterJob(context, existingJob))
    modifies w
    ensures w.Valid() && old(w.trace) <= w.trace
    ensures PublisherAt(w.state, pid) == Some(PublisherDone(outcome))
  {
    var outbox := context.outbox;
    if existingJob.Some? && !JobMatchesOutbox(existingJob.value, outbox) {
      if IsConfirmed(context.dispatch.status) {
        return ThrewSentMetadataPending;
      }
      outcome := FailAmbiguous(w, pid, INCONSISTENT);
      return;
    }
    if IsConfirmed(context.dispatch.status) {
      if outbox.status.OutboxPublished? && existingJob.Some? && context.run.jobId == Some(outbox.jobId) {
        return Returned(outbox);
      }
      return ThrewSentMetadataPending;
    }
    if outbox.status.OutboxPublished? && (existingJob.None? || context.run.jobId != Some(outbox.jobId)) {
      outcome := FailAmbiguous(w, pid, INCONSISTENT);
      return;
    }
    if outbox.status.OutboxPublished? {
      return Returned(outbox);
    }
    if !PendingRunIsSafe(context) {
      outcome := FailAmbiguous(w, pid, INCONSISTENT);
      return;
    }
    if !PendingDispatchIsSafe(context) {
      outcome := FailAmbiguous(w, pid, UNSAFE);
      return;
    }
    if existingJob.None? {
      var failed := EnqueueJob(w, pid, context);
      if failed.Some? {
        outcome := FailAmbiguous(w, pid, failed.value);
        return;
      }
    }
    outcome := RecordPublication(w, pid, context);
  }

  /** Enqueues; after an error, believes only a job it can read back. */
  method EnqueueJob(w: World, pid: nat, context: Context) returns (failed: Option<string>)
    requires w.Valid() && PublisherAt(w.state, pid) == Some(Enqueueing(context))
    modifies w
    ensures w.Valid() && old(w.trace) <= w.trace
    ensures PublisherAt(w.state, pid) == Some(if failed.Some? then Failing(failed.value) else Marking(context))
  {
    w.Meanwhile(pid);
    var effect: Effect := Arbitrary();
    w.Take(PublisherEnqueues(pid, effect));
    if effect.Succeeds? {
      return None;
    }
    w.Meanwhile(pid);
    var readable: bool := Arbitrary();
    var existingJob := if readable then GetJob(w.state.store, context.outbox.jobId) else None;
    w.Take(PublisherRereadsJob(pid, readable));
    if existingJob.None? {
      return Some(UNCERTAIN);
    }
    if !JobMatchesOutbox(existingJob.value, context.outbox) {
      return Some(INCONSISTENT);
    }
    return None;
  }

  method RecordPublication(w: World, pid: nat, context: Context) returns (outcome: Outcome)
    requires w.Valid() && PublisherAt(w.state, pid) == Some(Marking(context))
    modifies w
    ensures w.Valid() && old(w.trace) <= w.trace
    ensures PublisherAt(w.state, pid) == Some(PublisherDone(outcome))
  {
    var outbox := context.outbox;
    w.Meanwhile(pid);
    var at: int := Arbitrary();
    var published := MarkPublished(w.state.store, at).1;
    w.Take(PublisherMarks(pid, at));
    if published.Some? {
      return Returned(published.value);
    }
    w.Meanwhile(pid);
    var current := FindPublicationContext(w.state.store);
    w.Take(PublisherRechecks(pid));
    if && current.outbox.status.OutboxPublished?
       && current.outbox.commercialRunId == outbox.commercialRunId
       && current.outbox.dispatchId == outbox.dispatchId
       && current.outbox.jobId == outbox.jobId
       && current.run.id == outbox.commercialRunId
       && current.run.jobId == Some(outbox.jobId)
       && current.dispatch.id == outbox.dispatchId
    {
      return Returned(current.outbox);
    }
    if IsConfirmed(current.dispatch.status) {
      return ThrewSentMetadataPending;
    }
    outcome := FailAmbiguous(w, pid, INCONSISTENT);
  }

  // ---------------------------------------------------------------------------
  // The sender
  // ---------------------------------------------------------------------------

  datatype SendResult =
    | AlreadySent
    | NotPermitted
    | NotPrepared
    | RoutingMismatch
    | AlreadyClaimed
    | AbortedAfterClaim
    | BlockedBeforeRequest
    | WasSubmitted
    | DeliveryAmbiguous

  /** A result after which the provider may hold the message. */
  predicate MaySend(r: SendResult) {
    r.WasSubmitted? || r.DeliveryAmbiguous?
  }

  /** What each result says about the calls this sender made. */
  ghost predicate SentAsReported(before: Tally, after: Tally, result: SendResult) {
    && before.calls <= after.calls <= before.calls + 1
    && (!MaySend(result) ==> after.started == before.started)
    && (result.WasSubmitted? ==> after.started == before.started + 1)
    && (!MaySend(result) && !result.BlockedBeforeRequest? ==> after.calls == before.calls)
  }

  /** Where a dispatch goes: to a group, through the instance it was confirmed for or else the
      sender's own, among those assigned to the group when the claim looks. */
  datatype Destination = Destination(isGroup: bool, ownInstance: Option<string>, assignedInstances: set<string>)

  /** What the checks between the claim and the call find. */
  datatype PreCallCheck =
    | InstanceUnassigned
    | InstanceGone(isLifecycleError: bool)
    | FenceFails
    | FenceRefuses
    | Passes

  /** Everything the sender is answered: whether the message could be built and its relations
      and policy hold, what the checks before the call find, how the call ends, and whether
      what follows can be stored. */
  datatype SenderAnswers = SenderAnswers(prepared: bool, check: PreCallCheck, outcome: CallOutcome, persisted: bool)

  /** Why each result is given, by what was answered and whether the provider was called. */
  predicate IsExplained(a: SenderAnswers, called: bool, result: SendResult) {
    match result
    case WasSubmitted => called && a.outcome.Accepted? && a.persisted
    case BlockedBeforeRequest => a.persisted && if called then a.outcome.RejectedBeforeStart? else a.check.FenceRefuses?
    case AbortedAfterClaim =>
      !called && a.persisted && (a.check.InstanceUnassigned? || a.check == InstanceGone(true))
    case DeliveryAmbiguous =>
      if called then a.outcome.Unknown? || a.outcome.Accepted? || !a.persisted
      else a.check.FenceFails? || a.check == InstanceGone(false) || (!a.check.Passes? && !a.persisted)
    case NotPrepared => !called
    case RoutingMismatch => !called && a.prepared
    case AlreadyClaimed => !called && a.prepared
    case AlreadySent => !called
    case NotPermitted => !called
  }

  /** The provider is called at most once, only if everything before it was answered well,
      and for a group only through an instance that is still assigned to it. */
  ghost predicate CallIsFenced(a: SenderAnswers, instanceName: Option<string>, destination: Destination, called: bool) {
    called ==>
      && a.prepared && a.check.Passes?
      && (destination.isGroup ==> instanceName.Some? && instanceName.value in destination.assignedInstances)
  }

  /** One call of `sendDispatch`: it calls the provider at most once, every result but
      submitted and ambiguous is given only if nothing may have been sent, and each result is
      given only for its own reason. The refusals before the claim's success say what the
      dispatch was when it was looked at. */
  method SendDispatch(w: World, pid: nat, destination: Destination, answers: SenderAnswers)
    returns (result: SendResult, ghost looked: Store)
    requires w.Valid() && pid !in w.state.procs
    modifies w
    ensures w.Valid() && old(w.trace) <= w.trace && old(w.met) <= w.met
    ensures SentAsReported(TallyOf(old(w.trace), pid), TallyOf(w.trace, pid), result)
    ensures var instanceName, called := old(w.state.store.dispatch.instanceName),
                                        TallyOf(w.trace, pid) != TallyOf(old(w.trace), pid);
      && CallIsFenced(answers, instanceName, destination, called)
      && IsExplained(answers, called, result)
      && (destination.isGroup && (instanceName.None? || instanceName.value !in destination.assignedInstances) ==> !called && !MaySend(result))
      && (result.RoutingMismatch? ==> destination.isGroup && (instanceName.None? || instanceName.value !in destination.assignedInstances))
    ensures result.AlreadySent? || result.NotPermitted? || result.AlreadyClaimed? ==> looked in w.met
    ensures result.AlreadySent? || result.NotPermitted? ==> SenderAt(w.state, pid) == Some(SenderDone)
    ensures result.AlreadySent? ==> IsConfirmed(looked.dispatch.status)
    ensures result.NotPermitted? ==> !IsConfirmed(looked.dispatch.status) && !looked.dispatch.status.Pending?
    ensures result.AlreadyClaimed? ==> !looked.dispatch.status.Pending?
    ensures result.NotPrepared? ==>
              !answers.prepared
              || (destination.isGroup && old(w.state.store.dispatch.instanceName).None? && destination.ownInstance.None?)
  {
    w.Meanwhile(pid);
    var dispatch := w.state.store.dispatch;
    looked := w.state.store;
    w.TakeQuietly(SenderReads(pid), pid);
    if IsConfirmed(dispatch.status) {
      return AlreadySent, looked;
    }
    if !dispatch.status.Pending? {
      return NotPermitted, looked;
    }
    if !answers.prepared {
      return NotPrepared, looked;
    }
    var expectedInstance := if dispatch.instanceName.Some? then dispatch.instanceName else destination.ownInstance;
    if destination.isGroup && expectedInstance.None? {
      return NotPrepared, looked;
    }
    var routing := Routing(destination.isGroup, if expectedInstance.Some? then expectedInstance.value else "",
                           destination.assignedInstances);
    result, looked := ClaimAndSend(w, pid, routing, answers);
  }

  /** From the claim: refused unless the dispatch is pending and its routing holds. */
  method ClaimAndSend(w: World, pid: nat, routing: Routing, answers: SenderAnswers)
    returns (result: SendResult, ghost looked: Store)
    requires w.Valid() && SenderAt(w.state, pid) == Some(Preparing)
    modifies w
    ensures w.Valid() && old(w.trace) <= w.trace && old(w.met) <= w.met
    ensures SentAsReported(TallyOf(old(w.trace), pid), TallyOf(w.trace, pid), result)
    ensures looked in w.met && looked.dispatch.instanceName == old(w.state.store.dispatch.instanceName)
    ensures result.AlreadyClaimed? <==> !looked.dispatch.status.Pending?
    ensures result.RoutingMismatch? <==> looked.dispatch.status.Pending? && !RoutingHolds(looked.dispatch, routing)
    ensures !result.AlreadyClaimed? && !result.RoutingMismatch? ==>
              var called := TallyOf(w.trace, pid) != TallyOf(old(w.trace), pid);
              && (called <==> answers.check.Passes?)
              && IsExplained(answers, called, result)
              && (IsRefusalAfterClaim(result) || result.WasSubmitted?)
    ensures result.AlreadyClaimed? || result.RoutingMismatch? ==> TallyOf(w.trace, pid) == TallyOf(old(w.trace), pid)
  {
    w.Meanwhile(pid);
    looked := w.state.store;
    var claim := ClaimPendingForSending(w.state.store, routing).1;
    ClaimedExactlyWhen(w.state.store, routing);
    w.TakeQuietly(SenderClaims(pid, routing), pid);
    if claim.StickyInstanceMismatch? {
      return RoutingMismatch, looked;
    }
    if !claim.Claimed? {
      return AlreadyClaimed, looked;
    }
    result := SendClaimed(w, pid, answers);
  }

  /** The checks between the claim and the call; `None` exactly when the call may be made. */
  method CheckBeforeCall(w: World, pid: nat, answers: SenderAnswers) returns (refusal: Option<SendResult>)
    requires w.Valid() && SenderAt(w.state, pid).Some? && SenderAt(w.state, pid).value.Armed?
    modifies w
    ensures w.Valid() && old(w.trace) <= w.trace && old(w.met) <= w.met
    ensures TallyOf(w.trace, pid) == TallyOf(old(w.trace), pid)
    ensures refusal.None? <==> answers.check.Passes?
    ensures refusal.None? ==> SenderAt(w.state, pid).Some? && SenderAt(w.state, pid).value.Armed?
    ensures refusal.Some? ==> IsExplained(answers, false, refusal.value) && IsRefusalAfterClaim(refusal.value)
  {
    w.Meanwhile(pid);
    match answers.check {
      case InstanceUnassigned =>
        refusal := AbortClaimed(w, pid, answers, InstanceMismatch, true);
      case InstanceGone(isLifecycleError) =>
        refusal := AbortClaimed(w, pid, answers, InstanceInactive, isLifecycleError);
      case FenceFails =>
        refusal := Some(DeliveryAmbiguous);
      case FenceRefuses =>
        w.TakeQuietly(SenderIsRefused(pid), pid);
        var result := PersistSafeFailure(w, pid, answers);
        refusal := Some(result);
      case Passes =>
        refusal := None;
    }
  }

  predicate IsRefusalAfterClaim(r: SendResult) {
    r.AbortedAfterClaim? || r.BlockedBeforeRequest? || r.DeliveryAmbiguous?
  }

  /** The instance may not be used: the dispatch fails, if that can be stored. */
  method AbortClaimed(w: World, pid: nat, answers: SenderAnswers, reason: ErrorMessage, isLifecycleError: bool)
    returns (refusal: Option<SendResult>)
    requires w.Valid() && SenderAt(w.state, pid).Some? && SenderAt(w.state, pid).value.Armed?
    requires reason.InstanceMismatch? || reason.InstanceInactive?
    modifies w
    ensures w.Valid() && old(w.trace) <= w.trace && old(w.met) <= w.met
    ensures TallyOf(w.trace, pid) == TallyOf(old(w.trace), pid)
    ensures refusal == Some(if answers.persisted && isLifecycleError then AbortedAfterClaim else DeliveryAmbiguous)
    ensures answers.persisted ==>
              w.state.store.dispatch.status.Failed? && w.state.store.dispatch.errorMessage == Some(reason)
  {
    if !answers.persisted {
      return Some(DeliveryAmbiguous);
    }
    w.TakeQuietly(SenderAborts(pid, reason), pid);
    return Some(if isLifecycleError then AbortedAfterClaim else DeliveryAmbiguous);
  }

  /** From the claim on. */
  method SendClaimed(w: World, pid: nat, answers: SenderAnswers) returns (result: SendResult)
    requires w.Valid() && SenderAt(w.state, pid).Some? && SenderAt(w.state, pid).value.Armed?
    modifies w
    ensures w.Valid() && old(w.trace) <= w.trace && old(w.met) <= w.met
    ensures SentAsReported(TallyOf(old(w.trace), pid), TallyOf(w.trace, pid), result)
    ensures var called := TallyOf(w.trace, pid) != TallyOf(old(w.trace), pid);
      && (called <==> answers.check.Passes?)
      && IsExplained(answers, called, result)
    ensures IsRefusalAfterClaim(result) || result.WasSubmitted?
  {
    var refusal := CheckBeforeCall(w, pid, answers);
    if refusal.Some? {
      return refusal.value;
    }
    var outcome := answers.outcome;
    TallyOfLonger(w.trace, SenderCalls(pid, outcome), pid);
    w.Take(SenderCalls(pid, outcome));
    match outcome {
      case Unknown(_) =>
        result := DeliveryAmbiguous;
      case RejectedBeforeStart =>
        result := PersistSafeFailure(w, pid, answers);
      case Accepted(externalMessageId) =>
        result := PersistSubmission(w, pid, externalMessageId, answers);
    }
  }

  method PersistSubmission(w: World, pid: nat, externalMessageId: string, answers: SenderAnswers) returns (result: SendResult)
    requires w.Valid() && SenderAt(w.state, pid).Some?
    requires SenderAt(w.state, pid).value.Submitting?
    requires SenderAt(w.state, pid).value.externalMessageId == externalMessageId
    modifies w
    ensures w.Valid() && old(w.trace) <= w.trace && old(w.met) <= w.met
    ensures TallyOf(w.trace, pid) == TallyOf(old(w.trace), pid)
    ensures if result.WasSubmitted?
            then w.state.store.dispatch.status.Submitted?
                 && w.state.store.dispatch.externalMessageId == Some(externalMessageId)
                 && answers.persisted
            else result.DeliveryAmbiguous?
  {
    w.Meanwhile(pid);
    if !answers.persisted {
      return DeliveryAmbiguous;
    }
    var submitted := MarkSubmitted(w.state.store, externalMessageId).1;
    w.TakeQuietly(SenderSubmits(pid), pid);
    return if submitted then WasSubmitted else DeliveryAmbiguous;
  }

  method PersistSafeFailure(w: World, pid: nat, answers: SenderAnswers) returns (result: SendResult)
    requires w.Valid() && SenderAt(w.state, pid).Some? && SenderAt(w.state, pid).value.SafeFailing?
    modifies w
    ensures w.Valid() && old(w.trace) <= w.trace && old(w.met) <= w.met
    ensures TallyOf(w.trace, pid) == TallyOf(old(w.trace), pid)
    ensures result == if answers.persisted then BlockedBeforeRequest else DeliveryAmbiguous
    ensures result.BlockedBeforeRequest? ==>
              && w.state.store.dispatch.status.Failed?
              && w.state.store.dispatch.errorMessage == Some(SafePreExternalFailure)
  {
    w.Meanwhile(pid);
    if !answers.persisted {
      return DeliveryAmbiguous;
    }
    w.TakeQuietly(SenderMarksSafeFailure(pid), pid);
    return BlockedBeforeRequest;
  }
}
