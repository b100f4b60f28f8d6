/** One tick of the automation: what becomes of the reservation, of every prepared claim
    and of the handoff, on every path including errors
    (apps/api/src/commercial-automation-orchestrator.ts:312-1520).

    Every answer of a collaborator is arbitrary and may be an error. */
module AutomationTick {
  import opened Wrappers
  import opened TickAnswers

  const MAX_POLICY_REPLACEMENT_ATTEMPTS: nat := 4

  datatype Status = PreviewReady | Queued | Blocked | Failed | Ambiguous

  /** How a part of the tick ends: it goes on, it returned a finished execution, or it threw. */
  datatype Flow = Continue | Finished(status: Status) | Raised(code: Code)

  datatype HandoffState = NotAttempted | PrecommitRejected | HandoffCommitted | OutcomeUnknown

  datatype FinalizationState = NotFinalizing | ClaimFinalized | ClaimFinalizationUnknown

  /** What became of a prepared claim. */
  datatype Fate = Released | Invalidated | HandedOff | LeftUnknown

  datatype Trial = Chosen | PassedOver | NeedsSync

  datatype Replenishment = Replenishment(pagesUsed: nat, hasNextPage: bool)

  /** What the tick asks before it sends: each answer so far, refused once it was refused. */
  datatype Gates = Gates(
    opening: Option<bool>,
    slotDue: Option<bool>,
    reserved: Option<bool>,
    readiness: Option<bool>,
    lease: Option<bool>,
    candidate: Option<bool>,
    renewal: Option<bool>)
  {
    predicate NothingRefused() {
      && opening != Some(false) && slotDue != Some(false) && readiness != Some(false)
      && lease != Some(false) && candidate != Some(false) && renewal != Some(false)
    }

    /** The automation may run, the slot is due, and just before sending the policy allows
        the target and the execution is still owned. */
    predicate MaySend() {
      opening == slotDue == readiness == lease == Some(true)
    }
  }

  function Asked(before: Option<bool>, answer: bool): Option<bool> {
    Some(answer && before != Some(false))
  }

  lemma OneCode(s: seq<Code>, t: seq<Code>, code: Code)
    requires s + t == [code]
    ensures forall c :: c in s || c in t <==> c == code
  {
    assert |s| + |t| == |[code]|;
    if s == [] {
      assert s + t == t;
    } else {
      assert t == [] && s + t == s;
    }
  }

  class Tick {
    const sends: bool
    const hasPreparedInventory: bool
    const hasCandidateFlow: bool
    const hasConfirmPrepared: bool
    var confirmationAttempted: bool
    var reservationAcquired: bool
    var reservationReleaseAttempted: bool
    var preparedClaim: Option<nat>
    var claimsTaken: nat
    var preparedClaimFinalized: bool
    var handoff: HandoffState
    var finalization: FinalizationState
    var commercialRun: bool
    var candidatePrepared: bool
    var selectedTarget: Option<int>
    var replenishment: Option<Replenishment>
    var policyReplacementAttempts: nat
    var policyReplacementFailure: Option<Code>

    // What happened outside
    ghost var releaseCalls: nat
    ghost var lateReleases: nat
    /** An error answered by a release. */
    ghost var releaseError: Option<Code>
    /** The fate of each claim taken, in the order they were taken. */
    ghost var fates: seq<Fate>
    ghost var policyInvalidations: nat
    ghost var selectedPages: nat
    ghost var confirmCalls: nat
    ghost var confirmReturned: bool
    ghost var handoffPublished: bool
    /** The codes of the errors answered once a commit was made or possible: by the
        confirmation, and by the store when recording the execution. */
    ghost var confirmationCodes: seq<Code>
    ghost var recordingCodes: seq<Code>
    ghost var gates: Gates
    /** The targets the policy allowed. */
    ghost var readyTargets: set<int>
    /** The claims whose policy was found to hold, and those then offered to the confirmation. */
    ghost var policyHeld: set<nat>
    ghost var offered: set<nat>

    constructor (sends: bool, hasPreparedInventory: bool, hasCandidateFlow: bool, hasConfirmPrepared: bool)
      ensures Valid() && Fresh()
    {
      this.sends := sends;
      this.hasPreparedInventory := hasPreparedInventory;
      this.hasCandidateFlow := hasCandidateFlow;
      this.hasConfirmPrepared := hasConfirmPrepared;
      confirmationAttempted, reservationAcquired, reservationReleaseAttempted := false, false, false;
      preparedClaim, preparedClaimFinalized := None, false;
      handoff, finalization := NotAttempted, NotFinalizing;
      commercialRun, candidatePrepared, selectedTarget := false, false, None;
      replenishment := None;
      policyReplacementAttempts, policyReplacementFailure := 0, None;
      releaseCalls, lateReleases, releaseError, claimsTaken, fates := 0, 0, None, 0, [];
      policyInvalidations, selectedPages, confirmCalls := 0, 0, 0;
      confirmReturned, handoffPublished := false, false;
      confirmationCodes, recordingCodes := [], [];
      gates, readyTargets, policyHeld, offered := Gates(None, None, None, None, None, None, None), {}, {}, {};
    }

    ghost predicate Fresh()
      reads this
    {
      && !confirmationAttempted && !reservationAcquired && !reservationReleaseAttempted
      && preparedClaim.None? && !preparedClaimFinalized && handoff.NotAttempted? && finalization.NotFinalizing?
      && !candidatePrepared && selectedTarget.None? && replenishment.None?
      && policyReplacementAttempts == 0 && policyReplacementFailure.None? && policyInvalidations == 0
      && claimsTaken == 0 && confirmCalls == 0 && selectedPages == 0 && releaseCalls == 0
      && gates == Gates(None, None, None, None, None, None, None) && offered == {}
    }

    /** A commit happened or may have happened. */
    ghost predicate MayBeCommitted()
      reads this`handoff
    {
      handoff.HandoffCommitted? || handoff.OutcomeUnknown?
    }

    /** A claim is held whose fate is still open. */
    ghost predicate IsHeld()
      reads this`preparedClaim, this`confirmationAttempted, this`handoff, this`finalization, this`preparedClaimFinalized
    {
      && preparedClaim.Some?
      && !confirmationAttempted && !handoff.OutcomeUnknown? && !finalization.ClaimFinalizationUnknown?
      && !preparedClaimFinalized
    }

    /** Every claim taken has met its fate, but the one still held. */
    ghost predicate ClaimsAreTracked()
      reads this
    {
      && |fates| + (if IsHeld() then 1 else 0) == claimsTaken
      && (preparedClaim.Some? ==> claimsTaken == preparedClaim.value + 1 && !handoff.HandoffCommitted?)
    }

    ghost predicate Valid()
      reads this
    {
      && releaseCalls == (if reservationReleaseAttempted then 1 else 0) && lateReleases == 0
      && ClaimsAreTracked()
      && (claimsTaken > 0 ==> !reservationAcquired && hasPreparedInventory)
      && policyInvalidations <= MAX_POLICY_REPLACEMENT_ATTEMPTS
      && selectedPages <= PAGE_LIMIT
      && confirmCalls <= 1
      && (MayBeCommitted() ==> confirmationAttempted && !finalization.ClaimFinalizationUnknown? && policyReplacementFailure.None?)
      && (confirmationAttempted <==> MayBeCommitted() || confirmCalls == 1)
      && (handoffPublished ==> handoff.HandoffCommitted?)
      && (confirmReturned ==> confirmCalls == 1)
      && (!confirmationAttempted ==> confirmationCodes == recordingCodes == [])
      && (MayBeCommitted() ==> claimsTaken > 0 && claimsTaken - 1 in offered)
      && (confirmCalls == 1 ==> commercialRun && claimsTaken == 0 && !finalization.ClaimFinalizationUnknown?)
      && Gated()
    }

    /** Nothing is sent past a gate that was not asked, or that refused. */
    ghost predicate Gated()
      reads this`gates, this`selectedTarget, this`readyTargets, this`claimsTaken, this`reservationAcquired,
            this`confirmCalls, this`policyHeld, this`offered
    {
      && (selectedTarget.Some? ==> selectedTarget.value in readyTargets)
      && (claimsTaken > 0 || reservationAcquired ==>
            selectedTarget.Some? && gates.opening == gates.slotDue == Some(true))
      && (confirmCalls == 1 || offered != {} ==> selectedTarget.Some? && gates.MaySend() && gates.NothingRefused())
      && (confirmCalls == 1 ==> gates.candidate == gates.renewal == Some(true))
      && (reservationAcquired || confirmCalls == 1 ==> gates.reserved == Some(true))
      && offered <= policyHeld
    }

    /** Nothing was claimed or reserved. */
    ghost predicate Untouched()
      reads this`claimsTaken, this`reservationAcquired, this`releaseCalls
    {
      claimsTaken == 0 && !reservationAcquired && releaseCalls == 0
    }

    /** All claims have their fate. */
    ghost predicate AllSettled()
      reads this`fates, this`claimsTaken
    {
      |fates| == claimsTaken
    }

    // -------------------------------------------------------------------------
    // Ending the tick
    // -------------------------------------------------------------------------

    /** Calls the release at most once, and never once confirmation was attempted. */
    method ReleaseReservationBeforeConfirmation() returns (f: Flow)
      requires Valid()
      modifies this`reservationAcquired, this`reservationReleaseAttempted, this`releaseCalls, this`lateReleases, this`releaseError
      ensures Valid() && !f.Finished?
      ensures reservationAcquired ==> old(reservationAcquired)
      ensures !old(reservationAcquired) ==> releaseCalls == old(releaseCalls)
      ensures claimsTaken > 0 || confirmationAttempted ==> f.Continue?
      ensures releaseError == if f.Raised? then Some(f.code) else old(releaseError)
    {
      if !reservationAcquired || confirmationAttempted || reservationReleaseAttempted {
        return Continue;
      }
      reservationReleaseAttempted := true;
      releaseCalls := releaseCalls + 1;
      lateReleases := lateReleases + (if confirmationAttempted then 1 else 0);
      var release: Reply<bool> := Arbitrary();
      if release.Threw? {
        releaseError := Some(release.code);
        return Raised(release.code);
      }
      if release.value {
        reservationAcquired := false;
      }
      return Continue;
    }

    /** Gives back the claim that is still held, if there is one: it is released exactly if the
        store says so. */
    method ReleaseClaim() returns (f: Flow, ghost answer: Option<Reply<bool>>)
      requires Valid()
      modifies this`preparedClaim, this`preparedClaimFinalized, this`fates, this`releaseError
      ensures Valid() && AllSettled()
      ensures answer.Some? <==> old(IsHeld())
      ensures fates == old(fates) + if answer.None? then []
                                    else [if answer.value == Gave(true) then Fate.Released else Fate.LeftUnknown]
      ensures f == if answer.Some? && answer.value.Threw? then Raised(answer.value.code) else Continue
      ensures releaseError == if f.Raised? then Some(f.code) else old(releaseError)
    {
      answer := None;
      if preparedClaim.Some? && !confirmationAttempted && !handoff.HandoffCommitted? && !handoff.OutcomeUnknown?
         && !finalization.ClaimFinalizationUnknown? && !preparedClaimFinalized
      {
        preparedClaimFinalized := true;
        var released: Reply<bool> := Arbitrary();
        answer := Some(released);
        fates := fates + [if released == Gave(true) then Released else LeftUnknown];
        if released.Threw? {
          releaseError := Some(released.code);
          return Raised(released.code), answer;
        }
        preparedClaim := None;
      }
      return Continue, answer;
    }

    /** Gives back what is still held, then records the execution; an error of either ends
        it there. */
    method Finish(status: Status) returns (f: Flow)
      requires Valid()
      modifies this`reservationAcquired, this`reservationReleaseAttempted, this`releaseCalls, this`lateReleases,
               this`releaseError, this`preparedClaim, this`preparedClaimFinalized, this`fates, this`recordingCodes
      ensures Valid()
      ensures recordingCodes == old(recordingCodes) + if f.Raised? && confirmationAttempted then [f.code] else []
      ensures f == Finished(status) || f.Raised?
      ensures AllSettled()
      ensures fates == old(fates)
           || fates == old(fates) + [Fate.Released] || fates == old(fates) + [Fate.LeftUnknown]
      ensures !old(reservationAcquired) ==> !reservationAcquired && releaseCalls == old(releaseCalls)
      ensures releaseError != old(releaseError) ==> f.Raised?
    {
      f := ReleaseReservationBeforeConfirmation();
      if f.Raised? {
        return;
      }
      ghost var answer;
      f, answer := ReleaseClaim();
      if f.Raised? {
        return;
      }
      f := Record(status);
    }

    /** Records the execution, which may fail too. */
    method Record(status: Status) returns (f: Flow)
      requires Valid()
      modifies this`recordingCodes
      ensures Valid()
      ensures recordingCodes == old(recordingCodes) + if f.Raised? && confirmationAttempted then [f.code] else []
      ensures f == Finished(status) || f.Raised?
    {
      var recorded: Reply<bool> := Arbitrary();
      if recorded.Gave? {
        return Finished(status);
      }
      if confirmationAttempted {
        recordingCodes := recordingCodes + [recorded.code];
      }
      return Raised(recorded.code);
    }

    // -------------------------------------------------------------------------
    // Choosing what to send
    // -------------------------------------------------------------------------

    /** The automation may run, and nothing was chosen yet. */
    ghost predicate Opened()
      reads this
    {
      && Untouched() && preparedClaim.None? && !preparedClaimFinalized && selectedTarget.None? && replenishment.None?
      && selectedPages == 0 && offered == {} && confirmCalls == 0
      && gates == Gates(Some(true), None, None, None, None, None, None)
    }

    /** Nothing was confirmed yet, and an ending so far is neither queued nor ambiguous. */
    ghost predicate Early(f: Flow)
      reads this
    {
      && Valid() && !confirmationAttempted && handoff.NotAttempted? && finalization.NotFinalizing?
      && policyReplacementFailure.None? && policyReplacementAttempts == policyInvalidations == 0
      && offered == {} && confirmCalls == 0
      && (f.Continue? ==> preparedClaim.Some? ==> IsHeld())
      && (f.Finished? ==> AllSettled() && !f.status.Queued? && !f.status.Ambiguous?)
    }

    /** Whether the automation may run at all. */
    method CheckReadiness(readiness: Reply<bool>) returns (f: Flow)
      requires Early(Continue) && Fresh()
      modifies this
      ensures Early(f) && Untouched()
      ensures f.Continue? ==> Opened()
      ensures f.Finished? ==> f.status.Blocked?
      ensures f.Continue? <==> readiness == Gave(true)
    {
      if readiness.Threw? {
        return Raised(readiness.code);
      }
      gates := gates.(opening := Some(readiness.value));
      if !readiness.value {
        f := Finish(Blocked);
        return;
      }
      return Continue;
    }

    /** A lease renewal that may report that the execution is no longer owned. */
    method Checkpoint(renewal: Reply<bool>) returns (f: Flow)
      ensures f == if renewal.Threw? then Raised(renewal.code) else Continue
    {
      return if renewal.Threw? then Raised(renewal.code) else Continue;
    }

    /** Asks whether the target chosen may still be sent to, and whether the execution is
        still owned. */
    method AskBeforeSending(readiness: Reply<bool>, renewal: Reply<bool>) returns (r: Reply<bool>)
      requires Early(Continue) && gates.NothingRefused()
      modifies this`gates
      ensures Early(Continue)
      ensures r == Gave(true) ==> gates == old(gates).(readiness := Some(true), lease := Some(true))
      ensures r == Gave(true) <==> readiness == Gave(true) && renewal.Gave?
      ensures r == Gave(false) <==> readiness == Gave(false)
    {
      if readiness.Threw? {
        return readiness;
      }
      gates := gates.(readiness := Asked(gates.readiness, readiness.value));
      if !readiness.value {
        return Gave(false);
      }
      var checkpoint := Checkpoint(renewal);
      gates := gates.(lease := Asked(gates.lease, checkpoint.Continue?));
      return if checkpoint.Raised? then Threw(checkpoint.code) else Gave(true);
    }

    method CheckBeforeSending() returns (f: Flow)
      requires Early(Continue) && gates.NothingRefused()
      modifies this
      ensures Early(f)
      ensures f.Continue? ==> gates == old(gates).(readiness := Some(true), lease := Some(true))
      ensures f.Continue? ==> preparedClaim == old(preparedClaim)
      ensures f.Finished? ==> f.status.Blocked?
      ensures unchanged(this`claimsTaken, this`commercialRun, this`selectedTarget)
    {
      var readiness: Reply<bool> := Arbitrary();
      var renewal: Reply<bool> := Arbitrary();
      var asked := AskBeforeSending(readiness, renewal);
      f := Conclude(asked);
    }

    /** The first target that may be sent to; `Gave(false)` if there is none. The first `n`
        may not. */
    method ChooseTarget(targets: seq<int>, readiness: nat -> Reply<bool>) returns (r: Reply<bool>, ghost n: nat)
      requires Early(Continue) && selectedTarget.None? && claimsTaken == 0 && !reservationAcquired
      modifies this`selectedTarget, this`readyTargets
      ensures Early(Continue)
      ensures n <= |targets| && forall k: nat | k < n :: readiness(k) == Gave(false)
      ensures r == if n == |targets| then Gave(false) else readiness(n)
      ensures n < |targets| ==> readiness(n) != Gave(false)
      ensures selectedTarget == if r == Gave(true) then Some(targets[n]) else None
      ensures readyTargets == old(readyTargets) + if r == Gave(true) then {targets[n]} else {}
    {
      n := 0;
      for k := 0 to |targets|
        invariant Early(Continue) && selectedTarget.None? && n == k
        invariant readyTargets == old(readyTargets) && forall j: nat | j < n :: readiness(j) == Gave(false)
      {
        if readiness(k).Threw? {
          return Threw(readiness(k).code), n;
        }
        readyTargets := readyTargets + if readiness(k).value then {targets[k]} else {};
        if readiness(k).value {
          selectedTarget := Some(targets[k]);
          return Gave(true), n;
        }
        n := n + 1;
      }
      return Gave(false), n;
    }

    /** Goes on with what was selected, or ends the tick as blocked. */
    method Conclude(selected: Reply<bool>) returns (f: Flow)
      requires Early(Continue) && (preparedClaim.Some? ==> IsHeld())
      modifies this`reservationAcquired, this`reservationReleaseAttempted, this`releaseCalls, this`lateReleases,
               this`releaseError, this`preparedClaim, this`preparedClaimFinalized, this`fates, this`recordingCodes
      ensures Early(f)
      ensures f.Continue? <==> selected == Gave(true)
      ensures selected.Threw? ==> f == Raised(selected.code)
      ensures f.Finished? ==> selected.Gave? && !selected.value
      ensures f.Continue? ==> unchanged(this)
      ensures f.Finished? ==> f.status.Blocked?
      ensures old(Untouched()) ==> Untouched()
    {
      if selected.Threw? {
        return Raised(selected.code);
      }
      if selected.value {
        return Continue;
      }
      f := Finish(Blocked);
    }

    /** Takes a prepared message for the first target that may be sent to, if there is one. */
    method ClaimForTarget(targets: seq<int>, readiness: nat -> Reply<bool>, claim: Reply<bool>)
      returns (r: Reply<bool>, ghost n: nat)
      requires Early(Continue) && hasPreparedInventory && claimsTaken == 0 && !reservationAcquired
      requires selectedTarget.None? && !preparedClaimFinalized && gates.opening == gates.slotDue == Some(true)
      modifies this`selectedTarget, this`readyTargets, this`preparedClaim, this`claimsTaken
      ensures Early(Continue)
      ensures n <= |targets| && forall k: nat | k < n :: readiness(k) == Gave(false)
      ensures preparedClaim.Some? <==> n < |targets| && readiness(n) == Gave(true) && claim == Gave(true)
      ensures r == Gave(true) <==> preparedClaim.Some?
    {
      r, n := ChooseTarget(targets, readiness);
      if r != Gave(true) {
        return;
      }
      if claim == Gave(true) {
        preparedClaim := Some(claimsTaken);
        claimsTaken := claimsTaken + 1;
      }
      return claim, n;
    }

    method SelectPrepared(listed: Reply<seq<int>>, slotIsDue: bool, readiness: nat -> Reply<bool>, claim: Reply<bool>)
      returns (f: Flow)
      requires Early(Continue) && Opened() && hasPreparedInventory
      modifies this
      ensures Early(f)
      ensures f.Continue? ==> preparedClaim.Some? && gates == Gates(Some(true), Some(true), None, None, None, None, None)
      ensures f.Continue? ==> listed.Gave? && slotIsDue && claim == Gave(true)
      ensures listed.Gave? && slotIsDue && claim == Gave(true) && listed.value != [] && readiness(0) == Gave(true) ==>
                f.Continue?
      ensures f.Finished? ==> f.status.Blocked?
    {
      if listed.Threw? {
        return Raised(listed.code);
      }
      gates := gates.(slotDue := Some(slotIsDue));
      var claimed := Gave(false);
      ghost var n := 0;
      if slotIsDue {
        claimed, n := ClaimForTarget(listed.value, readiness, claim);
      }
      f := Conclude(claimed);
    }

    /** Reserves the campaign of a target; `Gave(false)` moves on to the next target. */
    method ReserveSelection(target: int, reservation: Reply<Reservation>) returns (r: Reply<bool>)
      requires Early(Continue) && claimsTaken == 0 && !reservationAcquired && selectedTarget.None?
      requires target in readyTargets && gates.opening == gates.slotDue == Some(true)
      modifies this`reservationAcquired, this`selectedTarget, this`gates
      ensures Early(Continue) && gates == old(gates).(reserved := gates.reserved)
      ensures r == if reservation.Threw? then Threw(reservation.code) else Gave(reservation.value.Reserved?)
      ensures selectedTarget == if r == Gave(true) then Some(target) else None
      ensures reservationAcquired == selectedTarget.Some?
    {
      if reservation.Threw? {
        return Threw(reservation.code);
      }
      gates := gates.(reserved := Some(reservation.value.Reserved?));
      if !reservation.value.Reserved? {
        return Gave(false);
      }
      reservationAcquired := true;
      selectedTarget := Some(target);
      return Gave(true);
    }

    /** One page of offers for the target at hand; the caller has page budget left. */
    method SyncPage(pagesUsed: nat, report: Reply<SyncReport>, renewal: Reply<bool>) returns (r: Reply<Replenishment>)
      requires Early(Continue) && selectedPages == pagesUsed < PAGE_LIMIT
      modifies this`selectedPages
      ensures Early(Continue) && selectedPages == pagesUsed + 1
      ensures r.Gave? <==> report.Gave? && renewal.Gave?
      ensures r.Gave? ==> r.value == Replenishment(pagesUsed + 1, report.value.hasNextPage)
    {
      selectedPages := selectedPages + 1;
      if report.Threw? {
        return Threw(report.code);
      }
      var checkpoint := Checkpoint(renewal);
      if checkpoint.Raised? {
        return Threw(checkpoint.code);
      }
      return Gave(Replenishment(pagesUsed + 1, report.value.hasNextPage));
    }

    /** Replenishes from what is stored, then looks for a candidate again. */
    method ReplenishLocally(a: Refresh) returns (r: Reply<Preflight>)
      ensures forall p :: r == Gave(p) <==> a.Gives(p)
    {
      if a.mined.Threw? {
        return Threw(a.mined.code);
      }
      var checkpoint := Checkpoint(a.lease);
      return if checkpoint.Raised? then Threw(checkpoint.code) else a.preflight;
    }

    /** Reads one page of offers for a target and looks again; `Gave(None)` if it leads on. */
    method SyncOnce(target: int, k: nat, a: SyncAnswers) returns (r: Reply<Option<bool>>)
      requires Early(Continue) && claimsTaken == 0 && !reservationAcquired && selectedTarget.None?
      requires target in readyTargets && gates.opening == gates.slotDue == Some(true)
      requires selectedPages == k < PAGE_LIMIT
      modifies this`reservationAcquired, this`selectedTarget, this`selectedPages, this`replenishment, this`gates
      ensures Early(Continue) && gates == old(gates).(reserved := gates.reserved) && selectedPages == k + 1
      ensures var page := a.pages(k);
        && (r == Gave(None) <==> page.LeadsOn() && k + 1 < PAGE_LIMIT)
        && (r == Gave(Some(true)) <==> page.IsRead() && page.refresh.Gives(Ready) && a.reservation == Gave(Reserved))
        && (r == Gave(Some(false))
            <==> page.IsRead()
                 && (|| (page.refresh.Gives(NotReady) && !(page.LeadsOn() && k + 1 < PAGE_LIMIT))
                     || (page.refresh.Gives(Ready) && a.reservation in {Gave(Ineligible), Gave(ReservationConflict)})))
        && (r == Gave(Some(true)) ==> replenishment == Some(Replenishment(k + 1, page.report.value.hasNextPage)))
      ensures r.Gave? && r.value.None? ==> gates == old(gates)
      ensures r != Gave(Some(true)) ==> replenishment == old(replenishment)
      ensures reservationAcquired == (r == Gave(Some(true)))
      ensures selectedTarget == if r == Gave(Some(true)) then Some(target) else None
    {
      var answers := a.pages(k);
      var page := SyncPage(k, answers.report, answers.lease);
      if page.Threw? {
        return Threw(page.code);
      }
      var preflight := ReplenishLocally(answers.refresh);
      if preflight.Threw? {
        return Threw(preflight.code);
      }
      assert answers.refresh.Gives(preflight.value);
      if preflight.value.Ready? {
        var reserved := ReserveSelection(target, a.reservation);
        if reserved == Gave(true) {
          replenishment := Some(page.value);
        }
        return if reserved.Threw? then Threw(reserved.code) else Gave(Some(reserved.value));
      }
      return Gave(if !page.value.hasNextPage || page.value.pagesUsed >= PAGE_LIMIT then Some(false) else None);
    }

    /** Pages of offers for one target until one no longer leads on, or the page limit is
        reached; what the last one found is reserved. */
    method SyncTarget(target: int, a: SyncAnswers) returns (r: Reply<bool>)
      requires Early(Continue) && claimsTaken == 0 && !reservationAcquired && selectedTarget.None?
      requires target in readyTargets && gates.opening == gates.slotDue == Some(true)
      modifies this`reservationAcquired, this`selectedTarget, this`selectedPages, this`replenishment, this`gates
      ensures Early(Continue) && gates == old(gates).(reserved := gates.reserved)
      ensures selectedPages == a.PagesRead(0)
      ensures r == Gave(true) <==> a.Reserves()
      ensures r == Gave(false) <==> a.PassesOver()
      ensures selectedTarget == if r == Gave(true) then Some(target) else None
      ensures reservationAcquired == (r == Gave(true))
      ensures if r == Gave(true) then replenishment == Some(Replenishment(selectedPages, a.Last().report.value.hasNextPage))
              else replenishment == old(replenishment)
    {
      selectedPages := 0;
      for syncCall := 0 to PAGE_LIMIT
        invariant Early(Continue) && !reservationAcquired && selectedTarget.None?
        invariant selectedPages == syncCall && replenishment == old(replenishment) && gates == old(gates)
        invariant syncCall < PAGE_LIMIT && a.PagesRead(0) == a.PagesRead(syncCall)
      {
        var synced := SyncOnce(target, syncCall, a);
        if synced.Threw? {
          return Threw(synced.code);
        }
        if synced.value.Some? {
          return Gave(synced.value.value);
        }
      }
      return Gave(false);
    }

    /** One target: whether it may be sent to, and has a candidate stored that can be
        reserved. A preview takes it as it is. */
    method TryTarget(target: int, a: TargetAnswers) returns (r: Reply<Trial>)
      requires Early(Continue) && claimsTaken == 0 && !reservationAcquired && selectedTarget.None?
      requires gates.opening == gates.slotDue == Some(true)
      modifies this`selectedTarget, this`reservationAcquired, this`readyTargets, this`gates
      ensures Early(Continue) && gates == old(gates).(reserved := gates.reserved)
      ensures readyTargets == old(readyTargets) + if a.readiness == Gave(true) then {target} else {}
      ensures r == Gave(Chosen) <==> a.Chooses(sends)
      ensures r == Gave(NeedsSync) <==> a.WaitsForSync(sends)
      ensures r == Gave(PassedOver) <==> a.PassesOver(sends)
      ensures selectedTarget == if r == Gave(Chosen) then Some(target) else None
      ensures reservationAcquired == (r == Gave(Chosen) && sends)
    {
      if a.readiness.Threw? {
        return Threw(a.readiness.code);
      }
      readyTargets := readyTargets + if a.readiness.value then {target} else {};
      if !a.readiness.value {
        return Gave(PassedOver);
      }
      if !sends {
        selectedTarget := Some(target);
        return Gave(Chosen);
      }
      var preflight := a.stored;
      if preflight.Gave? && !preflight.value.Ready? {
        preflight := ReplenishLocally(a.refresh);
      }
      if preflight.Threw? {
        return Threw(preflight.code);
      }
      if !preflight.value.Ready? {
        return Gave(NeedsSync);
      }
      var reserved := ReserveSelection(target, a.reservation);
      return if reserved.Threw? then Threw(reserved.code) else Gave(if reserved.value then Chosen else PassedOver);
    }

    /** Looks for a candidate among what is stored; collects the targets that had none. The
        first `n` targets are not chosen. */
    method SelectLocally(targets: seq<int>, answers: nat -> TargetAnswers)
      returns (r: Reply<bool>, needingSync: seq<int>, ghost n: nat)
      requires Early(Continue) && claimsTaken == 0 && !reservationAcquired && selectedTarget.None?
      requires gates.opening == gates.slotDue == Some(true)
      modifies this`selectedTarget, this`reservationAcquired, this`readyTargets, this`gates
      ensures Early(Continue) && gates == old(gates).(reserved := gates.reserved)
      ensures forall target | target in needingSync :: target in readyTargets
      ensures n <= |targets| && forall k: nat | k < n :: answers(k).PassesOver(sends) || answers(k).WaitsForSync(sends)
      ensures n < |targets| ==> !answers(n).PassesOver(sends) && !answers(n).WaitsForSync(sends)
      ensures r == Gave(true) <==> n < |targets| && answers(n).Chooses(sends)
      ensures r == Gave(false) <==> n == |targets|
      ensures r == Gave(true) && sends ==> gates.reserved == Some(true)
      ensures needingSync == WaitingAmong(targets, answers, sends, n)
      ensures selectedTarget == if r == Gave(true) then Some(targets[n]) else None
      ensures r == Gave(false) || !sends ==> !reservationAcquired
    {
      needingSync, n := [], 0;
      for k := 0 to |targets|
        invariant Early(Continue) && !reservationAcquired && selectedTarget.None? && n == k
        invariant gates == old(gates).(reserved := gates.reserved)
        invariant forall target | target in needingSync :: target in readyTargets
        invariant forall j: nat | j < n :: answers(j).PassesOver(sends) || answers(j).WaitsForSync(sends)
        invariant needingSync == WaitingAmong(targets, answers, sends, n)
      {
        var trial := TryTarget(targets[k], answers(k));
        if trial.Threw? {
          return Threw(trial.code), needingSync, n;
        }
        if trial.value.Chosen? {
          return Gave(true), needingSync, n;
        }
        if trial.value.NeedsSync? {
          needingSync := needingSync + [targets[k]];
        }
        n := n + 1;
      }
      return Gave(false), needingSync, n;
    }

    /** Offers are synchronised only for targets that had no candidate stored, one after the
        other; the first `n` are passed over. */
    method SelectBySync(needingSync: seq<int>, syncs: nat -> SyncAnswers) returns (r: Reply<bool>, ghost n: nat)
      requires Early(Continue) && claimsTaken == 0 && !reservationAcquired && selectedTarget.None? && replenishment.None?
      requires forall target | target in needingSync :: target in readyTargets
      requires gates.opening == gates.slotDue == Some(true)
      modifies this`reservationAcquired, this`selectedTarget, this`selectedPages, this`replenishment, this`gates
      ensures Early(Continue) && gates == old(gates).(reserved := gates.reserved)
      ensures n <= |needingSync| && forall k: nat | k < n :: syncs(k).PassesOver()
      ensures n < |needingSync| ==> !syncs(n).PassesOver()
      ensures r == Gave(true) <==> n < |needingSync| && syncs(n).Reserves()
      ensures r == Gave(false) <==> n == |needingSync|
      ensures r == Gave(true) ==> selectedTarget == Some(needingSync[n]) && gates.reserved == Some(true)
      ensures r == Gave(true) ==> replenishment.Some? && replenishment.value.pagesUsed == selectedPages
      ensures n == |needingSync| == 0 ==> selectedPages == old(selectedPages)
    {
      n := 0;
      for k := 0 to |needingSync|
        invariant Early(Continue) && !reservationAcquired && selectedTarget.None? && replenishment.None? && n == k
        invariant gates == old(gates).(reserved := gates.reserved)
        invariant forall j: nat | j < n :: syncs(j).PassesOver()
        invariant n == 0 ==> selectedPages == old(selectedPages)
      {
        r := SyncTarget(needingSync[k], syncs(k));
        if r.Threw? || r.value {
          return;
        }
        n := n + 1;
      }
      return Gave(false), n;
    }

    /** The pages already used for the target selected. */
    function PagesUsed(): nat
      reads this
    {
      if replenishment.Some? then replenishment.value.pagesUsed else 0
    }

    /** Reserves the first target that has a candidate stored or offered; a preview only
        chooses one. */
    method ReserveTarget(a: Selection) returns (r: Reply<bool>)
      requires Early(Continue) && claimsTaken == 0 && !reservationAcquired && selectedTarget.None?
      requires replenishment.None? && selectedPages == 0 && gates.opening == gates.slotDue == Some(true)
      requires a.listed.Gave?
      modifies this`selectedTarget, this`reservationAcquired, this`readyTargets, this`selectedPages, this`replenishment,
               this`gates
      ensures Early(Continue) && gates == old(gates).(reserved := gates.reserved) && (!sends ==> !reservationAcquired)
      ensures r == Gave(true) ==> selectedTarget.Some? && selectedPages == PagesUsed()
      ensures r == Gave(true) && sends ==> gates.reserved == Some(true)
      ensures r.Gave? && !r.value <==> a.PassesOverAll(sends)
    {
      var needingSync;
      ghost var n;
      r, needingSync, n := SelectLocally(a.listed.value, a.targets);
      if r == Gave(false) && sends {
        r, n := SelectBySync(needingSync, a.syncs);
      }
    }

    method SelectReserved(a: Selection) returns (f: Flow)
      requires Early(Continue) && Opened()
      modifies this
      ensures Early(f) && claimsTaken == 0
      ensures f.Continue? ==> selectedTarget.Some? && selectedPages == PagesUsed()
      ensures f.Continue? ==> gates == Gates(Some(true), Some(true), gates.reserved, None, None, None, None)
      ensures f.Continue? ==> a.IsOpen() && (sends ==> gates.reserved == Some(true))
      ensures f.Finished? ==> f.status.Blocked? && (!a.IsOpen() || a.PassesOverAll(sends))
      ensures !sends ==> Untouched()
    {
      var selected := Gave(false);
      if a.listed.Gave? {
        gates := gates.(slotDue := Some(a.slotIsDue));
        if a.slotIsDue && a.constraintMatches {
          selected := ReserveTarget(a);
        }
      }
      f := Conclude(selected);
    }

    // -------------------------------------------------------------------------
    // Preparing the reserved candidate
    // -------------------------------------------------------------------------

    /** `Gave(false)` when the candidate turned out exhausted. */
    method PrepareSelection(prepared: Reply<bool>) returns (r: Reply<bool>)
      ensures r == Gave(true) <==> prepared.Gave?
      ensures r == Gave(false) <==> prepared == Threw(NoEligibleCandidate)
      ensures r.Gave? <==> prepared.Gave? || prepared.code == NoEligibleCandidate
    {
      return if prepared == Threw(NoEligibleCandidate) then Gave(false)
             else if prepared.Threw? then prepared else Gave(true);
    }

    /** Mines stored offers, renews the reservation and looks again. `Gave(None)` stands
        for a reservation that changed hands. */
    method ReplenishReserved(a: ReplacementAnswers) returns (r: Reply<Option<bool>>)
      requires Early(Continue)
      modifies this`gates
      ensures Early(Continue) && gates == old(gates).(renewal := gates.renewal)
      ensures r == Gave(Some(true)) <==> a.Prepares()
      ensures r == Gave(Some(false)) <==> a.FindsNothing()
      ensures r == Gave(None) <==> a.Renews(false)
      ensures r.Gave? && r.value.Some? ==> a.Renews(true)
      ensures a.Renews(true) && old(gates.renewal) != Some(false) ==> gates.renewal != Some(false)
      ensures a.Renews(false) ==> gates.renewal == Some(false)
    {
      if a.mined.Threw? {
        return Threw(a.mined.code);
      }
      var checkpoint := Checkpoint(a.lease);
      if checkpoint.Raised? {
        return Threw(checkpoint.code);
      }
      if a.renewed.Threw? {
        return Threw(a.renewed.code);
      }
      gates := gates.(renewal := Asked(gates.renewal, a.renewed.value));
      if !a.renewed.value {
        return Gave(None);
      }
      if a.preflight.Threw? {
        return Threw(a.preflight.code);
      }
      if !a.preflight.value.Ready? {
        return Gave(Some(false));
      }
      var prepared := PrepareSelection(a.prepared);
      return if prepared.Threw? then Threw(prepared.code) else Gave(Some(prepared.value));
    }

    /** No further page may be read for the target selected. */
    ghost predicate PagesAreUsedUp()
      reads this
    {
      replenishment.Some? && (!replenishment.value.hasNextPage || replenishment.value.pagesUsed >= PAGE_LIMIT)
    }

    /** One more page of offers, and a replacement from what it brought. */
    method FulfilOnce(answers: FulfilmentPage) returns (r: Reply<Option<bool>>)
      requires Early(Continue) && selectedPages == PagesUsed() < PAGE_LIMIT && gates.NothingRefused()
      modifies this`selectedPages, this`replenishment, this`gates
      ensures Early(Continue) && gates == old(gates).(renewal := gates.renewal) && selectedPages == old(selectedPages) + 1
      ensures r.Gave? ==> answers.report.Gave? && answers.lease.Gave?
      ensures r.Gave? ==> replenishment == Some(Replenishment(selectedPages, answers.report.value.hasNextPage))
      ensures r == Gave(Some(true)) ==> answers.replacement.Prepares()
      ensures r == Gave(None) ==> answers.replacement.Renews(false)
      ensures r == Gave(Some(false)) ==> answers.replacement.FindsNothing()
      ensures answers.report.Gave? && answers.lease.Gave? ==>
                && (answers.replacement.Prepares() ==> r == Gave(Some(true)))
                && (answers.replacement.Renews(false) ==> r == Gave(None))
                && (answers.replacement.FindsNothing() ==> r == Gave(Some(false)))
      ensures r.Gave? && r.value.Some? ==> gates.NothingRefused()
    {
      var page := SyncPage(PagesUsed(), answers.report, answers.lease);
      if page.Threw? {
        return Threw(page.code);
      }
      replenishment := Some(page.value);
      r := ReplenishReserved(answers.replacement);
    }

    /** A page that was read and brought nothing. */
    ghost predicate BroughtNothing(page: FulfilmentPage) {
      page.report.Gave? && page.lease.Gave? && page.replacement.FindsNothing()
    }

    /** Offers, page by page, until a replacement is prepared, the catalogue ends or the
        pages of the selected target are used up. */
    method FulfilBySync(pages: nat -> FulfilmentPage) returns (r: Reply<Option<bool>>)
      requires Early(Continue) && claimsTaken == 0 && selectedPages == PagesUsed() && gates.NothingRefused()
      modifies this`selectedPages, this`replenishment, this`gates
      ensures Early(Continue) && gates == old(gates).(renewal := gates.renewal)
      ensures r.Gave? && r.value.Some? ==> gates.NothingRefused()
      ensures old(selectedPages) <= selectedPages && (old(PagesAreUsedUp()) ==> r == Gave(Some(false)))
      ensures forall k: nat | old(selectedPages) <= k < selectedPages - 1 :: BroughtNothing(pages(k))
      ensures r == Gave(Some(true)) ==> selectedPages > old(selectedPages) && pages(selectedPages - 1).replacement.Prepares()
      ensures r == Gave(None) ==> selectedPages > old(selectedPages) && pages(selectedPages - 1).replacement.Renews(false)
      ensures r == Gave(Some(false)) ==> PagesAreUsedUp()
    {
      while replenishment.None? || (replenishment.value.hasNextPage && replenishment.value.pagesUsed < PAGE_LIMIT)
        invariant Early(Continue) && selectedPages == PagesUsed() && old(selectedPages) <= selectedPages
        invariant gates == old(gates).(renewal := gates.renewal) && gates.NothingRefused()
        invariant old(PagesAreUsedUp()) ==> PagesAreUsedUp()
        invariant forall k: nat | old(selectedPages) <= k < selectedPages :: BroughtNothing(pages(k))
        decreases PAGE_LIMIT - PagesUsed()
      {
        r := FulfilOnce(pages(PagesUsed()));
        if r != Gave(Some(false)) {
          return;
        }
      }
      return Gave(Some(false));
    }

    /** The selected candidate, or a replacement for it within the same reservation: none
        exactly if nothing is found in what is stored, nor in any page that may be read. */
    method PrepareOrReplace(a: Preparation) returns (r: Reply<Option<bool>>)
      requires Early(Continue) && claimsTaken == 0 && selectedPages == PagesUsed() && gates.NothingRefused()
      modifies this`selectedPages, this`replenishment, this`gates
      ensures Early(Continue) && gates == old(gates).(renewal := gates.renewal)
      ensures r.Gave? && r.value.Some? ==> gates.NothingRefused()
      ensures a.selected.Gave? ==> r == Gave(Some(true))
      ensures a.selected.Threw? && a.selected.code != NoEligibleCandidate ==> r.Threw?
      ensures a.selected == Threw(NoEligibleCandidate) ==>
                && (a.stored.Prepares() ==> r == Gave(Some(true)))
                && (a.stored.Renews(false) ==> r == Gave(None))
                && (r == Gave(Some(false)) ==> a.stored.FindsNothing() && PagesAreUsedUp())
      ensures selectedPages > old(selectedPages) ==> a.selected == Threw(NoEligibleCandidate) && a.stored.FindsNothing()
    {
      var prepared := PrepareSelection(a.selected);
      r := if prepared.Threw? then Threw(prepared.code) else Gave(Some(prepared.value));
      if r == Gave(Some(false)) {
        r := ReplenishReserved(a.stored);
        if r == Gave(Some(false)) {
          r := FulfilBySync(a.pages);
        }
      }
    }

    method PrepareReserved() returns (f: Flow)
      requires Early(Continue) && claimsTaken == 0 && selectedPages == PagesUsed() && gates.NothingRefused()
      modifies this
      ensures Early(f) && claimsTaken == 0
      ensures f.Continue? ==> candidatePrepared && commercialRun && gates.NothingRefused()
      ensures f.Continue? ==> gates == old(gates).(renewal := gates.renewal)
      ensures f.Finished? ==> f.status.Blocked?
      ensures unchanged(this`selectedTarget)
    {
      var answers: Preparation := Arbitrary();
      var prepared := PrepareOrReplace(answers);
      var found := if prepared.Threw? then Threw(prepared.code) else Gave(prepared.value == Some(true));
      if found == Gave(true) {
        commercialRun, candidatePrepared := true, true;
      }
      f := Conclude(found);
    }

    // -------------------------------------------------------------------------
    // Confirming
    // -------------------------------------------------------------------------

    /** A claim is held, and nothing about it is settled or uncertain. */
    ghost predicate Holding()
      reads this
    {
      && Valid() && IsHeld()
      && !confirmationAttempted && !MayBeCommitted() && !finalization.ClaimFinalizationUnknown?
      && policyReplacementFailure.None?
      && policyInvalidations == policyReplacementAttempts < MAX_POLICY_REPLACEMENT_ATTEMPTS
      && gates.MaySend() && gates.NothingRefused()
    }

    /** The claim held is settled with a fate the store confirmed. */
    method Settle(fate: Fate)
      requires Valid() && IsHeld() && !MayBeCommitted() && policyReplacementFailure.None?
      modifies this`finalization, this`preparedClaimFinalized, this`preparedClaim, this`commercialRun, this`fates
      ensures Valid() && AllSettled() && preparedClaim.None? && finalization.ClaimFinalized?
      ensures fates == old(fates) + [fate]
    {
      fates := fates + [fate];
      preparedClaim, preparedClaimFinalized, finalization, commercialRun := None, true, ClaimFinalized, false;
    }

    /** The store did not confirm what became of the claim: it is left, and no other taken. */
    method LeaveUnsettled(answered: bool)
      requires Valid() && IsHeld() && !MayBeCommitted() && policyReplacementFailure.None?
      modifies this`finalization, this`preparedClaim, this`policyReplacementFailure, this`commercialRun, this`fates
      ensures Valid() && AllSettled() && finalization.ClaimFinalizationUnknown?
      ensures preparedClaim.None? == policyReplacementFailure.Some? == answered
      ensures fates == old(fates) + [LeftUnknown]
    {
      fates := fates + [LeftUnknown];
      finalization := ClaimFinalizationUnknown;
      if answered {
        preparedClaim, commercialRun, policyReplacementFailure := None, false, Some(FinalizationConflict);
      }
    }

    /** Gives up or invalidates the claim that was rejected before any commit. */
    method SettleRejectedClaim(reason: Code, finalized: Reply<bool>) returns (settled: bool)
      requires Holding()
      modifies this`finalization, this`preparedClaimFinalized, this`preparedClaim, this`policyReplacementFailure,
               this`commercialRun, this`fates, this`policyInvalidations
      ensures Valid() && AllSettled()
      ensures policyInvalidations == policyReplacementAttempts + if reason.NichePolicyChanged? then 1 else 0
      ensures fates == old(fates) + [if !settled then LeftUnknown
                                     else if reason.HandoffTransactionConflict? || reason.HandoffExecutionConflict? then Released
                                     else Invalidated]
      ensures if settled then preparedClaim.None? && finalization.ClaimFinalized? && policyReplacementFailure.None?
              else finalization.ClaimFinalizationUnknown? && (preparedClaim.None? <==> policyReplacementFailure.Some?)
      ensures settled <==> finalized == Gave(true)
      ensures preparedClaim.None? <==> finalized.Gave?
    {
      var releaseOnly := reason.HandoffTransactionConflict? || reason.HandoffExecutionConflict?;
      if reason.NichePolicyChanged? {
        policyInvalidations := policyInvalidations + 1;
      }
      settled := finalized == Gave(true);
      if settled {
        Settle(if releaseOnly then Released else Invalidated);
      } else {
        LeaveUnsettled(finalized.Gave?);
      }
    }

    /** Every claim so far is settled, and another may be taken. */
    ghost predicate MayClaimAgain()
      reads this
    {
      && Valid() && AllSettled() && hasPreparedInventory && !reservationAcquired
      && preparedClaim.None? && policyReplacementFailure.None? && !finalization.ClaimFinalizationUnknown?
      && !confirmationAttempted && selectedTarget.Some? && gates.MaySend() && gates.NothingRefused()
    }

    /** Another prepared message was taken. */
    method HoldNext()
      requires MayClaimAgain()
      requires policyInvalidations == policyReplacementAttempts < MAX_POLICY_REPLACEMENT_ATTEMPTS
      modifies this`preparedClaim, this`claimsTaken, this`preparedClaimFinalized, this`finalization, this`handoff
      ensures Holding() && claimsTaken == old(claimsTaken) + 1
    {
      preparedClaim := Some(claimsTaken);
      claimsTaken := claimsTaken + 1;
      preparedClaimFinalized, finalization, handoff := false, NotFinalizing, NotAttempted;
    }

    /** Takes another prepared message in place of one whose policy moved. */
    method TakeReplacement(replacement: Reply<bool>) returns (r: Reply<bool>)
      requires MayClaimAgain() && policyInvalidations == policyReplacementAttempts + 1
      modifies this`policyReplacementAttempts, this`policyReplacementFailure, this`preparedClaim, this`claimsTaken,
               this`preparedClaimFinalized, this`finalization, this`handoff
      ensures Valid()
      ensures r == Gave(true) ==> Holding() && policyReplacementAttempts == old(policyReplacementAttempts) + 1
      ensures r == Gave(false) ==> AllSettled() && policyReplacementFailure.Some?
      ensures r.Threw? ==> r.code == FinalizationUnknown && AllSettled() && finalization.ClaimFinalizationUnknown?
      ensures r == (if old(policyReplacementAttempts) + 1 >= MAX_POLICY_REPLACEMENT_ATTEMPTS then Gave(false)
                    else if replacement.Threw? then Threw(FinalizationUnknown) else Gave(replacement.value))
    {
      policyReplacementAttempts := policyReplacementAttempts + 1;
      if policyReplacementAttempts >= MAX_POLICY_REPLACEMENT_ATTEMPTS
         || (replacement.Gave? && !replacement.value) {
        policyReplacementFailure := Some(ReplacementUnavailable);
        return Gave(false);
      }
      if replacement.Threw? {
        finalization := ClaimFinalizationUnknown;
        return Threw(FinalizationUnknown);
      }
      HoldNext();
      return Gave(true);
    }

    /** After a rejection: settles the claim and, if only the niche policy moved, takes
        another one, a bounded number of times. */
    method FinalizePreparedPrecommit(reason: Code, finalized: Reply<bool>, replacement: Reply<bool>)
      returns (r: Reply<bool>)
      requires Holding()
      modifies this`finalization, this`preparedClaimFinalized, this`preparedClaim, this`policyReplacementFailure,
               this`commercialRun, this`fates, this`policyInvalidations, this`policyReplacementAttempts,
               this`claimsTaken, this`handoff
      ensures Valid()
      ensures r == Gave(true) ==> Holding() && policyReplacementAttempts == old(policyReplacementAttempts) + 1
      ensures r == Gave(false) ==> AllSettled() && policyReplacementFailure.Some?
      ensures r.Threw? ==> r.code == FinalizationUnknown && AllSettled() && finalization.ClaimFinalizationUnknown?
      ensures !MayBeCommitted()
      ensures finalized.Threw? ==> r.Threw?
      ensures finalized.Gave? && !(finalized.value && reason.NichePolicyChanged?) ==> r == Gave(false)
      ensures finalized.Gave? && finalized.value && reason.NichePolicyChanged? ==>
                r == (if old(policyReplacementAttempts) + 1 >= MAX_POLICY_REPLACEMENT_ATTEMPTS then Gave(false)
                      else if replacement.Threw? then Threw(FinalizationUnknown) else Gave(replacement.value))
    {
      var settled := SettleRejectedClaim(reason, finalized);
      if !settled {
        return if preparedClaim.Some? then Threw(FinalizationUnknown) else Gave(false);
      }
      if reason.NichePolicyChanged? {
        r := TakeReplacement(replacement);
        return;
      }
      policyReplacementFailure := Some(reason);
      return Gave(false);
    }

    /** The handoff was committed. */
    method Commit()
      requires Holding() && preparedClaim.value in offered
      modifies this`handoff, this`confirmationAttempted, this`commercialRun, this`preparedClaimFinalized,
               this`preparedClaim, this`fates
      ensures Valid() && handoff.HandoffCommitted? && confirmationCodes == recordingCodes == [] && !handoffPublished
      ensures fates == old(fates) + [HandedOff]
    {
      assert |fates| + 1 == claimsTaken && claimsTaken == preparedClaim.value + 1;
      ghost var settled := fates + [HandedOff];
      assert |settled| == claimsTaken;
      fates := settled;
      confirmationAttempted, handoff := true, HandoffCommitted;
      commercialRun, preparedClaimFinalized, preparedClaim := true, true, None;
    }

    /** Its publication may have failed. */
    ghost method NotePublication(published: bool, failureCode: Code)
      requires Valid() && handoff.HandoffCommitted? && confirmationCodes == []
      modifies this`handoffPublished, this`confirmationCodes
      ensures Valid() && handoffPublished == published
      ensures confirmationCodes == if published then [] else [failureCode]
    {
      handoffPublished, confirmationCodes := published, if published then [] else [failureCode];
    }

    /** Whether the handoff was committed is not known: the claim is left as it is. */
    method LeaveUnknown(code: Code)
      requires Holding() && preparedClaim.value in offered
      modifies this`handoff, this`confirmationAttempted, this`fates, this`confirmationCodes
      ensures Valid() && handoff.OutcomeUnknown? && confirmationCodes == [code] && recordingCodes == []
      ensures fates == old(fates) + [Fate.LeftUnknown]
    {
      fates := fates + [Fate.LeftUnknown];
      confirmationAttempted, handoff, confirmationCodes := true, OutcomeUnknown, [code];
    }

    /** Whether the handoff was published. */
    method CommitWith(published: bool, failureCode: Code) returns (r: Reply<Option<Code>>)
      requires Holding() && preparedClaim.value in offered
      modifies this`handoff, this`confirmationAttempted, this`commercialRun, this`preparedClaimFinalized,
               this`preparedClaim, this`fates, this`handoffPublished, this`confirmationCodes
      ensures Valid() && handoff.HandoffCommitted? && handoffPublished == published
      ensures fates == old(fates) + [HandedOff] && recordingCodes == []
      ensures r == if published then Gave(None) else Threw(failureCode)
      ensures confirmationCodes == if published then [] else [failureCode]
    {
      Commit();
      NotePublication(published, failureCode);
      return if published then Gave(None) else Threw(failureCode);
    }

    /** Confirms the claim held. `Gave(None)` when it was published; otherwise the reason it
        was rejected, or the error of an outcome that is not certain. */
    method ConfirmPrepared(outcome: Reply<PreparedOutcome>) returns (r: Reply<Option<Code>>)
      requires Holding() && preparedClaim.value in policyHeld
      modifies this`offered, this`handoff, this`confirmationAttempted, this`commercialRun, this`preparedClaimFinalized,
               this`preparedClaim, this`fates, this`handoffPublished, this`confirmationCodes
      ensures Valid()
      ensures r.Gave? && r.value.Some? ==> Holding() && fates == old(fates)
      ensures !(r.Gave? && r.value.Some?) ==>
                && MayBeCommitted() && recordingCodes == []
                && fates == old(fates) + [if handoff.HandoffCommitted? then HandedOff else Fate.LeftUnknown]
      ensures confirmationCodes == if r.Threw? then [r.code] else []
      ensures offered == old(offered) + {old(preparedClaim.value)}
      ensures handoff.HandoffCommitted? <==> outcome.Gave? && outcome.value.Committed?
      ensures handoff.HandoffCommitted? ==> handoffPublished == outcome.value.published
      ensures r == (if outcome.Threw? then Threw(outcome.code)
                    else match outcome.value
                         case Rejected(reason) => Gave(Some(reason))
                         case Unknown(failureCode) => Threw(failureCode)
                         case Committed(published, failureCode) => if published then Gave(None) else Threw(failureCode))
    {
      offered := offered + {preparedClaim.value};
      if outcome.Threw? {
        LeaveUnknown(outcome.code);
        return Threw(outcome.code);
      }
      match outcome.value {
        case Rejected(reason) =>
          handoff := PrecommitRejected;
          return Gave(Some(reason));
        case Unknown(failureCode) =>
          LeaveUnknown(failureCode);
          return Threw(failureCode);
        case Committed(published, failureCode) =>
          r := CommitWith(published, failureCode);
      }
    }

    /** One try of handing the claim off, after its policy was checked again: it is offered
        exactly if the policy holds and the confirmation can take it. */
    method HandOff(fence: Reply<bool>, outcome: Reply<PreparedOutcome>) returns (r: Reply<Option<Code>>)
      requires Holding()
      modifies this`offered, this`policyHeld, this`handoff, this`confirmationAttempted, this`commercialRun,
               this`preparedClaimFinalized, this`preparedClaim, this`fates, this`handoffPublished,
               this`confirmationCodes
      ensures Valid()
      ensures r.Gave? && r.value.Some? ==> Holding()
      ensures r.Gave? && r.value.None? ==> handoff.HandoffCommitted? && handoffPublished
      ensures confirmationCodes == (if r.Threw? && MayBeCommitted() then [r.code] else []) && recordingCodes == []
      ensures policyHeld == old(policyHeld) + if Holds(fence) then {old(preparedClaim.value)} else {}
      ensures offered == old(offered) + if Holds(fence) && hasConfirmPrepared then {old(preparedClaim.value)} else {}
      ensures !Holds(fence) || !hasConfirmPrepared ==>
                !MayBeCommitted() && (r.Gave? ==> r == Gave(RejectionOf(fence, outcome, hasConfirmPrepared)))
      ensures Holds(fence) && hasConfirmPrepared ==>
                && (r.Gave? && r.value.None? <==> outcome.Gave? && outcome.value.Committed? && outcome.value.published)
                && (r.Gave? && r.value.Some? <==> outcome.Gave? && outcome.value.Rejected?)
                && (r.Gave? && r.value.Some? ==> r.value == RejectionOf(fence, outcome, hasConfirmPrepared))
      ensures r.Gave? && r.value.Some? <==> RejectionOf(fence, outcome, hasConfirmPrepared).Some?
    {
      if fence.Threw? && !fence.code.NichePolicyChanged? {
        return Threw(fence.code);
      }
      if fence.Gave? && !fence.value {
        return Threw(OtherCode("COMMERCIAL_AUTOMATION_NICHE_POLICY_FENCE_MISSING"));
      }
      policyHeld := policyHeld + if Holds(fence) then {preparedClaim.value} else {};
      if fence.Gave? && hasConfirmPrepared {
        r := ConfirmPrepared(outcome);
        return;
      }
      handoff := PrecommitRejected;
      return Gave(Some(if fence.Threw? then NichePolicyChanged else HandoffUnavailable));
    }

    /** Hands the claim off, or settles it after a rejection: `Gave(None)` if another claim
        was taken in its place, otherwise whether it was published. */
    method HandOffOnce(a: HandoffAnswers) returns (r: Reply<Option<bool>>)
      requires Holding()
      modifies this`offered, this`policyHeld, this`handoff, this`confirmationAttempted, this`commercialRun,
               this`preparedClaimFinalized, this`preparedClaim, this`fates, this`handoffPublished,
               this`confirmationCodes, this`finalization, this`policyReplacementFailure, this`policyInvalidations,
               this`policyReplacementAttempts, this`claimsTaken
      ensures Valid()
      ensures r.Gave? && r.value.None? ==> Holding() && policyReplacementAttempts == old(policyReplacementAttempts) + 1
      ensures r == Gave(Some(true)) ==> handoff.HandoffCommitted? && handoffPublished
      ensures r == Gave(Some(false)) ==> AllSettled() && !MayBeCommitted()
      ensures r == Gave(Some(true)) ==>
                && hasConfirmPrepared && Holds(a.fence)
                && a.outcome.Gave? && a.outcome.value.Committed? && a.outcome.value.published
      ensures r.Gave? && r.value.None? ==>
                && RejectionOf(a.fence, a.outcome, hasConfirmPrepared) == Some(NichePolicyChanged)
                && a.finalized == Gave(true) && a.replacement == Gave(true)
      ensures Holds(a.fence) && hasConfirmPrepared && a.outcome.Gave? && a.outcome.value.Committed? && a.outcome.value.published ==>
                r == Gave(Some(true))
      ensures var rejection := RejectionOf(a.fence, a.outcome, hasConfirmPrepared);
              rejection.Some? ==>
                && (a.finalized.Threw? ==> r.Threw?)
                && (a.finalized.Gave? && !(a.finalized.value && rejection.value.NichePolicyChanged?) ==> r == Gave(Some(false)))
                && (a.finalized == Gave(true) && rejection.value.NichePolicyChanged? && a.replacement == Gave(true) ==>
                      old(policyReplacementAttempts) + 1 < MAX_POLICY_REPLACEMENT_ATTEMPTS ==> r.Gave? && r.value.None?)
      ensures MayBeCommitted() ==> confirmationCodes == (if r.Threw? then [r.code] else []) && recordingCodes == []
    {
      var handed := HandOff(a.fence, a.outcome);
      if handed.Threw? {
        return Threw(handed.code);
      }
      if handed.value.None? {
        return Gave(Some(true));
      }
      var replaced := FinalizePreparedPrecommit(handed.value.value, a.finalized, a.replacement);
      return if replaced.Threw? then Threw(replaced.code) else Gave(if replaced.value then None else Some(false));
    }

    /** Hands claims off until one is published or none is left. */
    method HandOffClaims() returns (r: Reply<bool>)
      requires Holding()
      modifies this`offered, this`policyHeld, this`handoff, this`confirmationAttempted, this`commercialRun,
               this`preparedClaimFinalized, this`preparedClaim, this`fates, this`handoffPublished,
               this`confirmationCodes, this`finalization, this`policyReplacementFailure, this`policyInvalidations,
               this`policyReplacementAttempts, this`claimsTaken
      ensures Valid()
      ensures r.Gave? && r.value ==> handoff.HandoffCommitted? && handoffPublished
      ensures r.Gave? && !r.value ==> AllSettled() && !MayBeCommitted()
      ensures MayBeCommitted() ==> confirmationCodes == (if r.Threw? then [r.code] else []) && recordingCodes == []
    {
      while true
        invariant Holding()
        decreases MAX_POLICY_REPLACEMENT_ATTEMPTS - policyReplacementAttempts
      {
        var answers: HandoffAnswers := Arbitrary();
        var handed := HandOffOnce(answers);
        if handed.Threw? {
          return Threw(handed.code);
        }
        if handed.value.Some? {
          return Gave(handed.value.value);
        }
      }
    }

    method ConfirmPreparedClaims() returns (f: Flow)
      requires Holding()
      modifies this
      ensures Valid()
      ensures f.Continue? ==> handoff.HandoffCommitted? && handoffPublished
      ensures f.Finished? ==> f.status.Blocked? && AllSettled() && !MayBeCommitted()
      ensures MayBeCommitted() ==> confirmationCodes == (if f.Raised? then [f.code] else []) && recordingCodes == []
      ensures gates == old(gates) && confirmCalls == 0
    {
      var handed := HandOffClaims();
      if handed.Threw? {
        return Raised(handed.code);
      }
      if handed.value {
        return Continue;
      }
      f := Finish(Blocked);
    }

    /** Checks the candidate again and renews the reservation; `Gave(false)` if another
        execution holds it. */
    method RenewReservation(revalidated: Reply<bool>, renewed: Reply<bool>) returns (r: Reply<bool>)
      requires Early(Continue) && gates.NothingRefused()
      modifies this`gates
      ensures Early(Continue)
      ensures r == Gave(true) ==> gates == old(gates).(candidate := Some(true), renewal := Some(true))
      ensures r == if revalidated.Threw? then revalidated else renewed
      ensures r == Gave(false) ==> gates.renewal == Some(false)
    {
      gates := gates.(candidate := Asked(gates.candidate, revalidated.Gave?));
      if revalidated.Threw? {
        return revalidated;
      }
      if renewed.Gave? {
        gates := gates.(renewal := Asked(gates.renewal, renewed.value));
      }
      return renewed;
    }

    /** Confirms the run of the reserved candidate. */
    method ConfirmRun() returns (f: Flow)
      requires Early(Continue) && claimsTaken == 0 && commercialRun
      requires selectedTarget.Some? && gates.reserved == Some(true)
      requires gates.MaySend() && gates.NothingRefused() && gates.candidate == gates.renewal == Some(true)
      modifies this`confirmationAttempted, this`confirmCalls, this`confirmReturned, this`confirmationCodes
      ensures Valid() && confirmCalls == 1
      ensures f.Continue? == confirmReturned && !f.Finished?
      ensures confirmationCodes == (if f.Raised? then [f.code] else []) && recordingCodes == []
    {
      confirmationAttempted := true;
      confirmCalls := confirmCalls + 1;
      var confirmed: Reply<bool> := Arbitrary();
      confirmReturned := confirmed.Gave?;
      if confirmed.Threw? {
        confirmationCodes := [confirmed.code];
        return Raised(confirmed.code);
      }
      return Continue;
    }

    /** The path without a prepared message: the candidate is checked again and the
        reservation renewed, then the run is confirmed; not if the renewal is refused. */
    method ConfirmReserved(revalidated: Reply<bool>, renewed: Reply<bool>) returns (f: Flow)
      requires Early(Continue) && claimsTaken == 0 && commercialRun && selectedTarget.Some?
      requires gates.reserved == Some(true) && gates.MaySend() && gates.NothingRefused()
      modifies this
      ensures Valid() && claimsTaken == 0
      ensures confirmationAttempted <==> confirmCalls == 1
      ensures confirmCalls == 1 ==> gates.candidate == gates.renewal == Some(true) && f.Continue? == confirmReturned
      ensures confirmCalls == 1 <==> revalidated.Gave? && renewed == Gave(true)
      ensures confirmCalls == 0 ==> !f.Continue?
      ensures f.Finished? ==> f.status.Blocked? && confirmCalls == 0
      ensures confirmationCodes + recordingCodes == if f.Raised? && confirmationAttempted then [f.code] else []
    {
      var kept := RenewReservation(revalidated, renewed);
      if kept.Threw? {
        return Raised(kept.code);
      }
      if !kept.value {
        f := Finish(Blocked);
        return;
      }
      f := ConfirmRun();
    }

    // -------------------------------------------------------------------------
    // The tick
    // -------------------------------------------------------------------------

    /** Everything a tick that sends must have. */
    predicate IsEquipped(officialProvider: bool, canFill: bool) {
      officialProvider && canFill && hasCandidateFlow
    }

    /** Chooses a target and something to send to it, once the automation may run. */
    method SelectOpened() returns (f: Flow)
      requires Early(Continue) && Opened() && hasCandidateFlow
      modifies this
      ensures Early(f)
      ensures f.Continue? ==> (preparedClaim.Some? && sends) || (claimsTaken == 0 && selectedPages == PagesUsed())
      ensures f.Continue? ==> gates == Gates(Some(true), Some(true), gates.reserved, None, None, None, None)
      ensures f.Continue? ==> selectedTarget.Some?
      ensures f.Continue? && sends && preparedClaim.None? ==> gates.reserved == Some(true)
      ensures f.Continue? ==> (preparedClaim.Some? <==> sends && hasPreparedInventory)
      ensures f.Finished? ==> f.status.Blocked?
      ensures !sends ==> Untouched()
    {
      if sends && hasPreparedInventory {
        var listed: Reply<seq<int>> := Arbitrary();
        var slotIsDue: bool := Arbitrary();
        var readiness: nat -> Reply<bool> := Arbitrary();
        var claim: Reply<bool> := Arbitrary();
        f := SelectPrepared(listed, slotIsDue, readiness, claim);
      } else {
        var answers: Selection := Arbitrary();
        f := SelectReserved(answers);
      }
    }

    /** Chooses a target and something to send to it. */
    method Select(officialProvider: bool, canFill: bool, readiness: Reply<bool>, renewal: Reply<bool>) returns (f: Flow)
      requires Early(Continue) && Fresh()
      modifies this
      ensures Early(f)
      ensures f.Continue? ==> (preparedClaim.Some? && sends) || (claimsTaken == 0 && selectedPages == PagesUsed())
      ensures f.Continue? ==> gates.NothingRefused() && gates.opening == Some(true)
      ensures f.Continue? ==> readiness == Gave(true) && renewal.Gave?
      ensures readiness == Gave(true) && renewal.Threw? && (!sends || (officialProvider && canFill)) ==> f == Raised(renewal.code)
      ensures f.Continue? && sends && preparedClaim.None? ==> gates.reserved == Some(true)
      ensures f.Continue? && sends ==> gates.slotDue == Some(true) && selectedTarget.Some? && IsEquipped(officialProvider, canFill)
      ensures f.Finished? ==> f.status.Blocked?
      ensures !sends || !IsEquipped(officialProvider, canFill) ==> Untouched()
    {
      f := CheckReadiness(readiness);
      if !f.Continue? {
        return;
      }
      var checkpoint := Checkpoint(renewal);
      if (!sends || (officialProvider && canFill)) && checkpoint.Raised? {
        return checkpoint;
      }
      if sends && (!officialProvider || !canFill || !hasCandidateFlow) {
        f := Finish(Blocked);
      } else if hasCandidateFlow {
        f := SelectOpened();
      }
    }

    /** A preview ends with a dry run. */
    method Preview(dryRun: Reply<bool>) returns (f: Flow)
      requires Early(Continue) && !sends
      modifies this
      ensures Early(f) && !f.Continue?
      ensures f.Finished? ==> f.status.PreviewReady?
      ensures dryRun.Threw? ==> f == Raised(dryRun.code)
      ensures unchanged(this`selectedTarget, this`gates)
      ensures old(Untouched()) ==> Untouched()
    {
      if dryRun.Threw? {
        return Raised(dryRun.code);
      }
      commercialRun := true;
      f := Finish(PreviewReady);
    }

    /** The reserved path needs a prepared candidate, the preview a dry run. */
    method Prepare(hasLegacyRun: bool) returns (f: Flow)
      requires Early(Continue) && (preparedClaim.Some? || (claimsTaken == 0 && selectedPages == PagesUsed()))
      requires preparedClaim.Some? ==> sends
      requires gates.NothingRefused() && gates.opening == Some(true)
      modifies this
      ensures Early(f)
      ensures f.Continue? ==> preparedClaim == old(preparedClaim)
      ensures old(preparedClaim).Some? ==> (f.Continue? <==> !hasLegacyRun)
      ensures f.Continue? ==> sends && gates.NothingRefused() && (preparedClaim.Some? || (claimsTaken == 0 && commercialRun))
      ensures f.Finished? ==> f.status.Blocked? || (f.status.PreviewReady? && !sends && gates.NothingRefused())
      ensures f.Continue? ==> gates == old(gates).(renewal := gates.renewal)
      ensures !sends && old(Untouched()) ==> Untouched()
      ensures unchanged(this`selectedTarget)
    {
      if !sends {
        var dryRun: Reply<bool> := Arbitrary();
        f := Preview(dryRun);
        return;
      }
      if preparedClaim.None? {
        f := PrepareReserved();
        return;
      }
      return if hasLegacyRun then Raised(OtherCode("COMMERCIAL_PREPARED_LEGACY_RUN_ID")) else Continue;
    }

    /** Hands off what was claimed or confirms what was reserved, and records it. */
    method Confirm() returns (f: Flow)
      requires Early(Continue) && sends && gates.MaySend() && gates.NothingRefused()
      requires preparedClaim.Some? || (claimsTaken == 0 && commercialRun && selectedTarget.Some? && gates.reserved == Some(true))
      modifies this
      ensures Valid() && !f.Continue?
      ensures f.Finished? ==> AllSettled() && (f.status.Blocked? || f.status.Queued?)
      ensures f.Finished? && confirmationAttempted ==> f.status.Queued? && (handoffPublished || confirmReturned)
      ensures f.Finished? && f.status.Queued? ==> confirmationAttempted
      ensures confirmationAttempted ==> confirmationCodes + recordingCodes == if f.Raised? then [f.code] else []
    {
      if preparedClaim.Some? {
        f := ConfirmPreparedClaims();
      } else {
        var revalidated: Reply<bool> := Arbitrary();
        var renewed: Reply<bool> := Arbitrary();
        f := ConfirmReserved(revalidated, renewed);
      }
      if f.Continue? {
        f := Finish(Queued);
      }
    }

    /** Everything that happens while errors are caught. */
    method Attempt(officialProvider: bool, canFill: bool) returns (f: Flow)
      requires Early(Continue) && Fresh()
      modifies this
      ensures Valid() && !f.Continue?
      ensures f.Finished? ==> AllSettled() && f.status in {Queued, Blocked, PreviewReady}
      ensures f.Finished? && confirmationAttempted ==> f.status.Queued? && (handoffPublished || confirmReturned)
      ensures f.Finished? && f.status.Queued? ==> confirmationAttempted
      ensures f.Finished? && f.status.PreviewReady? ==> !sends && gates.NothingRefused()
      ensures confirmationAttempted ==> confirmationCodes + recordingCodes == if f.Raised? then [f.code] else []
      ensures !sends || !IsEquipped(officialProvider, canFill) ==> Untouched() && !confirmationAttempted
    {
      var readiness: Reply<bool> := Arbitrary();
      var renewal: Reply<bool> := Arbitrary();
      f := Select(officialProvider, canFill, readiness, renewal);
      if f.Continue? {
        var hasLegacyRun: bool := Arbitrary();
        f := Prepare(hasLegacyRun);
      }
      if f.Continue? {
        f := CheckBeforeSending();
      }
      if f.Continue? {
        f := Confirm();
      }
    }

    /** The status recorded for an error: blocked if a claim is left unsettled, ambiguous if a
        handoff was or may have been committed, or a confirmation was begun whose run is not
        known to be certain; failed otherwise. */
    method StatusOfError(runIsCertain: Reply<bool>) returns (status: Status)
      requires Valid()
      ensures MayBeCommitted() ==> status.Ambiguous?
      ensures finalization.ClaimFinalizationUnknown? ==> status.Blocked?
      ensures !MayBeCommitted() && !finalization.ClaimFinalizationUnknown? ==>
                status == if confirmCalls == 1 && runIsCertain != Gave(true) then Ambiguous else Failed
    {
      if finalization.ClaimFinalizationUnknown? {
        return Blocked;
      }
      if handoff.HandoffCommitted? || handoff.OutcomeUnknown? {
        return Ambiguous;
      }
      if confirmationAttempted && commercialRun {
        if runIsCertain != Gave(true) {
          return Ambiguous;
        }
      }
      return Failed;
    }

    /** How a tick that attempted a confirmation ends: blocked exactly if an error answered
        by the confirmation, or on recording, carried the code of a renewal conflict. If not,
        queued or ambiguous; or failed, if nothing can have been handed off and the store shows
        for certain what became of the run. */
    ghost predicate EndsAsConfirmed(status: Status, runIsCertain: Reply<bool>)
      reads this
    {
      var conflict := RenewalConflict in confirmationCodes || RenewalConflict in recordingCodes;
      && (conflict <==> status.Blocked?)
      && (!conflict ==>
            || status.Queued?
            || (if !MayBeCommitted() && runIsCertain == Gave(true) then status.Failed? else status.Ambiguous?))
    }

    /** The error handler: ownership lost is passed on, a renewal conflict is recorded as
        blocked, and anything else by what may have been confirmed. */
    method HandleError(code: Code, runIsCertain: Reply<bool>) returns (end: Flow)
      requires Valid()
      requires confirmationAttempted ==> confirmationCodes + recordingCodes == [code]
      modifies this`reservationAcquired, this`reservationReleaseAttempted, this`releaseCalls, this`lateReleases, this`releaseError,
               this`preparedClaim, this`preparedClaimFinalized, this`fates, this`recordingCodes
      ensures Valid() && !end.Continue?
      ensures code.OwnershipLost? ==> end == Raised(code) && unchanged(this)
      ensures !code.OwnershipLost? ==> AllSettled()
      ensures end.Finished? && confirmationAttempted ==> EndsAsConfirmed(end.status, runIsCertain)
      ensures end.Finished? ==> !end.status.Queued? && !end.status.PreviewReady?
      ensures end.Finished? && !confirmationAttempted ==> !end.status.Ambiguous?
      ensures !old(reservationAcquired) ==> !reservationAcquired && releaseCalls == old(releaseCalls)
    {
      if confirmationAttempted {
        OneCode(confirmationCodes, recordingCodes, code);
      }
      if code.OwnershipLost? {
        return Raised(code);
      }
      var status := Blocked;
      if !code.RenewalConflict? {
        status := StatusOfError(runIsCertain);
      }
      end := Finish(status);
    }

    /** Nothing was confirmed or handed off past a gate: the tick was to send and could, the
        slot was due, the target chosen was allowed, the policy and the lease were found to hold
        just before; the campaign was reserved, the candidate held and the reservation was renewed, or the claim's own
        policy held. After a gate refused nothing is confirmed or handed off. */
    ghost predicate SentOnlyPastTheGates(officialProvider: bool, canFill: bool)
      reads this
    {
      && (confirmationAttempted <==> confirmCalls == 1 || MayBeCommitted())
      && (confirmationAttempted ==>
            && sends && officialProvider && canFill && hasCandidateFlow
            && gates.opening == gates.slotDue == gates.readiness == gates.lease == Some(true)
            && selectedTarget.Some? && selectedTarget.value in readyTargets)
      && (confirmCalls == 1 ==> gates.reserved == gates.candidate == gates.renewal == Some(true))
      && (MayBeCommitted() ==> claimsTaken > 0 && claimsTaken - 1 in offered)
      && offered <= policyHeld
      && (!gates.NothingRefused() ==> !confirmationAttempted && offered == {})
    }

    /** One tick. The reservation is released at most once and never after confirmation
        was attempted. Every claim meets exactly one fate, unless ownership was lost while
        the last was held. Nothing is confirmed or handed off past a gate, and a gate that
        refused ends the tick blocked or failed. A preview, or a tick that lacks what it needs
        to send, claims and reserves nothing. */
    method ExecuteTick(officialProvider: bool, canFill: bool, runIsCertain: Reply<bool>) returns (end: Flow)
      requires Valid() && Fresh()
      modifies this
      ensures releaseCalls <= 1 && lateReleases == 0
      ensures |fates| <= claimsTaken <= |fates| + 1
      ensures |fates| < claimsTaken ==> end == Raised(OwnershipLost)
      ensures policyInvalidations <= MAX_POLICY_REPLACEMENT_ATTEMPTS && selectedPages <= PAGE_LIMIT && confirmCalls <= 1
      ensures end.Finished? && confirmationAttempted ==> EndsAsConfirmed(end.status, runIsCertain)
      ensures end.Finished? && !confirmationAttempted ==> end.status in {Blocked, PreviewReady, Failed}
      ensures end.Finished? && end.status.Queued? ==> handoffPublished || confirmReturned
      ensures end.Finished? && end.status.PreviewReady? ==> !sends && gates.NothingRefused()
      ensures SentOnlyPastTheGates(officialProvider, canFill)
      ensures !sends || !officialProvider || !canFill || !hasCandidateFlow ==> claimsTaken == 0 && releaseCalls == 0
      ensures !end.Continue?
    {
      end := Attempt(officialProvider, canFill);
      if end.Raised? {
        end := HandleError(end.code, runIsCertain);
      }
    }
  }
}
