/** What a tick is answered while it selects and prepares something to send
    (apps/api/src/commercial-automation-orchestrator.ts:470-1110). */
module TickAnswers {
  import opened Wrappers

  const PAGE_LIMIT: nat := 3

  datatype Code =
    | OwnershipLost
    | RenewalConflict
    | NichePolicyChanged
    | NoEligibleCandidate
    | HandoffUnavailable
    | HandoffTransactionConflict
    | HandoffExecutionConflict
    | FinalizationUnknown
    | FinalizationConflict
    | ReplacementUnavailable
    | OtherCode(text: string)

  datatype Reply<T> = Gave(value: T) | Threw(code: Code)

  datatype Preflight = Ready | NotReady

  datatype Reservation = Reserved | Ineligible | ReservationConflict

  datatype SyncReport = SyncReport(hasNextPage: bool)

  /** Looking again after mining what is stored: the lease is renewed in between. */
  datatype Refresh = Refresh(mined: Reply<bool>, lease: Reply<bool>, preflight: Reply<Preflight>) {
    predicate Gives(p: Preflight) {
      mined.Gave? && lease.Gave? && preflight == Gave(p)
    }
  }

  /** About one target: whether it may be sent to, whether a candidate is stored, or found
      when looking again, and whether the campaign could be reserved. */
  datatype TargetAnswers = TargetAnswers(
    readiness: Reply<bool>,
    stored: Reply<Preflight>,
    refresh: Refresh,
    reservation: Reply<Reservation>)
  {
    predicate FindsCandidate() {
      stored == Gave(Ready) || (stored == Gave(NotReady) && refresh.Gives(Ready))
    }

    predicate Chooses(sends: bool) {
      readiness == Gave(true) && (sends ==> FindsCandidate() && reservation == Gave(Reserved))
    }

    predicate WaitsForSync(sends: bool) {
      readiness == Gave(true) && sends && stored == Gave(NotReady) && refresh.Gives(NotReady)
    }

    predicate PassesOver(sends: bool) {
      || readiness == Gave(false)
      || (readiness == Gave(true) && sends && FindsCandidate()
          && reservation in {Gave(Ineligible), Gave(ReservationConflict)})
    }
  }

  /** The targets among the first `n` whose offers have to be synchronised. */
  function WaitingAmong(targets: seq<int>, answers: nat -> TargetAnswers, sends: bool, n: nat): (waiting: seq<int>)
    requires n <= |targets|
  {
    if n == 0 then []
    else WaitingAmong(targets, answers, sends, n - 1) + if answers(n - 1).WaitsForSync(sends) then [targets[n - 1]] else []
  }

  /** About one page of offers: what it reported, whether the lease was renewed, and what
      looking again found. */
  datatype PageAnswers = PageAnswers(report: Reply<SyncReport>, lease: Reply<bool>, refresh: Refresh) {
    predicate IsRead() {
      report.Gave? && lease.Gave?
    }

    predicate LeadsOn() {
      IsRead() && refresh.Gives(NotReady) && report.value.hasNextPage
    }
  }

  datatype SyncAnswers = SyncAnswers(pages: nat -> PageAnswers, reservation: Reply<Reservation>) {
    /** How many pages are read, the first `k` of them having led on. */
    function PagesRead(k: nat): (n: nat)
      ensures k < n <= Max(k + 1, PAGE_LIMIT)
      ensures forall j: nat | k <= j < n - 1 :: pages(j).LeadsOn()
      ensures n < PAGE_LIMIT ==> !pages(n - 1).LeadsOn()
      decreases PAGE_LIMIT - k
    {
      if k + 1 >= PAGE_LIMIT || !pages(k).LeadsOn() then k + 1 else PagesRead(k + 1)
    }

    function Last(): PageAnswers {
      pages(PagesRead(0) - 1)
    }

    predicate Reserves() {
      Last().IsRead() && Last().refresh.Gives(Ready) && reservation == Gave(Reserved)
    }

    predicate PassesOver() {
      && Last().IsRead()
      && (|| Last().refresh.Gives(NotReady)
          || (Last().refresh.Gives(Ready) && reservation in {Gave(Ineligible), Gave(ReservationConflict)}))
    }
  }

  /** Everything about selecting without a prepared message. */
  datatype Selection = Selection(
    listed: Reply<seq<int>>,
    slotIsDue: bool,
    constraintMatches: bool,
    targets: nat -> TargetAnswers,
    syncs: nat -> SyncAnswers)
  {
    predicate IsOpen() {
      listed.Gave? && slotIsDue && constraintMatches
    }

    /** Every target is passed over, at once or after its offers were synchronised. */
    ghost predicate PassesOverAll(sends: bool)
      requires listed.Gave?
    {
      && (forall k: nat | k < |listed.value| :: targets(k).PassesOver(sends) || targets(k).WaitsForSync(sends))
      && (sends ==> forall k: nat | k < |WaitingAmong(listed.value, targets, sends, |listed.value|)| :: syncs(k).PassesOver())
    }
  }

  /** About replacing a candidate within its reservation: mining what is stored, the lease,
      the renewal of the reservation, looking again, and preparing what is found. */
  datatype ReplacementAnswers = ReplacementAnswers(
    mined: Reply<bool>,
    lease: Reply<bool>,
    renewed: Reply<bool>,
    preflight: Reply<Preflight>,
    prepared: Reply<bool>)
  {
    predicate Renews(kept: bool) {
      mined.Gave? && lease.Gave? && renewed == Gave(kept)
    }

    predicate Prepares() {
      Renews(true) && preflight == Gave(Ready) && prepared.Gave?
    }

    predicate FindsNothing() {
      Renews(true) && (preflight == Gave(NotReady) || (preflight == Gave(Ready) && prepared == Threw(NoEligibleCandidate)))
    }
  }

  datatype FulfilmentPage = FulfilmentPage(report: Reply<SyncReport>, lease: Reply<bool>, replacement: ReplacementAnswers)

  /** Everything about preparing: the selected candidate, a replacement from what is stored,
      and replacements from offers page by page. */
  datatype Preparation = Preparation(
    selected: Reply<bool>,
    stored: ReplacementAnswers,
    pages: nat -> FulfilmentPage)

  /** How the confirmation of a prepared claim ended. */
  datatype PreparedOutcome =
    | Rejected(reason: Code)
    | Unknown(failureCode: Code)
    | Committed(published: bool, failureCode: Code)

  /** About one claim: whether its policy holds, how its confirmation ended, and, after a
      rejection, whether the store settled it and had another. */
  datatype HandoffAnswers = HandoffAnswers(
    fence: Reply<bool>,
    outcome: Reply<PreparedOutcome>,
    finalized: Reply<bool>,
    replacement: Reply<bool>)

  predicate Holds(fence: Reply<bool>) {
    fence.Gave? && fence.value
  }

  /** Why a claim is rejected before any commit, if it is: its policy moved, the confirmation
      cannot take it, or refused it. */
  function RejectionOf(fence: Reply<bool>, outcome: Reply<PreparedOutcome>, canConfirm: bool): Option<Code> {
    if fence.Threw? then if fence.code.NichePolicyChanged? then Some(NichePolicyChanged) else None
    else if !fence.value then None
    else if !canConfirm then Some(HandoffUnavailable)
    else if outcome.Gave? && outcome.value.Rejected? then Some(outcome.value.reason) else None
  }
}
