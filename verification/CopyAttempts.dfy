/** The attempts to generate a copy: who may call the paid provider, and what an attempt
    once ended can still become
    (apps/api/src/commercial-promotion-copy-generation-service.ts:643-1200,
     apps/api/src/prisma-repositories.ts:3964-4700). */
module CopyAttempts {
  import opened Wrappers

  datatype AttemptStatus = Started | Succeeded | Failed | Ambiguous

  /** The input of a generation; the fingerprint is a hash of it and of the configuration. */
  datatype Key = Key(candidateId: string, snapshotId: string, fingerprint: string)

  datatype Attempt = Attempt(
    candidateId: string,
    snapshotId: string,
    status: AttemptStatus,
    failureCode: Option<string>,
    copyId: Option<int>)

  /** Attempts and copies, both unique by fingerprint. */
  datatype Store = Store(attempts: map<string, Attempt>, copies: map<string, int>)

  predicate IsOf(a: Attempt, key: Key) {
    a.candidateId == key.candidateId && a.snapshotId == key.snapshotId
  }

  predicate IsTerminalFailure(status: AttemptStatus) {
    status.Failed? || status.Ambiguous?
  }

  /** Some attempt at this candidate's snapshot is running or has failed. */
  predicate IsBlocked(s: Store, key: Key) {
    exists f :: f in s.attempts && IsOf(s.attempts[f], key) && !s.attempts[f].status.Succeeded?
  }

  predicate HasTerminalAttempt(s: Store, key: Key) {
    exists f :: f in s.attempts && IsOf(s.attempts[f], key) && IsTerminalFailure(s.attempts[f].status)
  }

  datatype ClaimResult = Claimed | AlreadyExists | Refused

  /** Inserts a started attempt unless one exists or the snapshot is blocked. */
  function Claim(s: Store, key: Key, contextHolds: bool): (r: (Store, ClaimResult)) {
    if !contextHolds || IsBlocked(s, key) then (s, Refused)
    else if key.fingerprint in s.attempts then (s, AlreadyExists)
    else
      (s.(attempts := s.attempts[key.fingerprint := Attempt(key.candidateId, key.snapshotId, Started, None, None)]), Claimed)
  }

  predicate IsRunning(s: Store, key: Key) {
    && key.fingerprint in s.attempts
    && IsOf(s.attempts[key.fingerprint], key)
    && s.attempts[key.fingerprint].status.Started?
  }

  function Ended(s: Store, fingerprint: string, status: AttemptStatus, code: Option<string>, copyId: Option<int>): Store
    requires fingerprint in s.attempts
  {
    var a := s.attempts[fingerprint];
    s.(attempts := s.attempts[fingerprint := a.(status := status, failureCode := code, copyId := copyId)])
  }

  /** Ends a running attempt as failed, or confirms that it ended so. The boolean is false
      on a conflict. */
  function MarkTerminal(s: Store, key: Key, status: AttemptStatus, code: string): (r: (Store, bool))
    requires IsTerminalFailure(status)
  {
    if key.fingerprint !in s.attempts || !IsOf(s.attempts[key.fingerprint], key) then (s, false)
    else
      var a := s.attempts[key.fingerprint];
      if a.status.Started? then (Ended(s, key.fingerprint, status, Some(code), None), true)
      else (s, a.status == status && a.failureCode == Some(code))
  }

  /** Ends a running attempt with its copy. An attempt whose context or copy changed fails
      instead; one no longer running is left alone. */
  function Complete(s: Store, key: Key, contextHolds: bool, copyId: int): (r: (Store, bool)) {
    if key.fingerprint !in s.attempts || !s.attempts[key.fingerprint].status.Started? then (s, false)
    else if !contextHolds || !IsOf(s.attempts[key.fingerprint], key) then
      (Ended(s, key.fingerprint, Failed, Some("COMMERCIAL_AI_COPY_CONFIGURATION_CHANGED"), None), false)
    else if key.fingerprint in s.copies && s.copies[key.fingerprint] != copyId then
      (Ended(s, key.fingerprint, Failed, Some("COMMERCIAL_AI_COPY_CACHE_INCONSISTENT"), None), false)
    else
      (Ended(s, key.fingerprint, Succeeded, None, Some(copyId)).(copies := s.copies[key.fingerprint := copyId]), true)
  }

  /** The deterministic copy ends a running attempt too, and fails none. */
  function CompleteFallback(s: Store, key: Key, contextHolds: bool, copyId: int): (r: (Store, bool)) {
    if !contextHolds || !IsRunning(s, key) then (s, false)
    else if key.fingerprint in s.copies && s.copies[key.fingerprint] != copyId then (s, false)
    else
      (Ended(s, key.fingerprint, Succeeded, None, Some(copyId)).(copies := s.copies[key.fingerprint := copyId]), true)
  }

  // ---------------------------------------------------------------------------
  // The machine
  // ---------------------------------------------------------------------------

  /** Where one call of `generate` stands. `Armed`, `FallingBack`, `Terminalizing` and
      `Completing` come after winning the claim. */
  datatype Stage =
    | Claiming(key: Key, providerReady: bool)
    | Armed(key: Key)
    | FallingBack(key: Key, status: AttemptStatus, code: string)
    | Terminalizing(key: Key, status: AttemptStatus, code: string)
    | Completing(key: Key)
    | Rechecking(key: Key)
    | Repairing(key: Key)
    | Done

  /** What the provider answered and what checking and assembling it gave. */
  datatype ProviderOutcome =
    | ProviderFailed(ambiguous: bool)
    | OutputInvalid
    | AssemblyFailed(fallsBack: bool)
    | Produced

  datatype Call = Call(pid: nat, key: Key)

  datatype State = State(store: Store, procs: map<nat, Stage>, winners: map<string, nat>, calls: seq<Call>)

  datatype Effect = Commits | RollsBack | CommitsThenThrows

  datatype Label =
    | Begins(pid: nat, key: Key, providerReady: bool, cached: bool, historical: bool)
    | Claims(pid: nat, contextHolds: bool)
    | Classifies(pid: nat)
    | HookFails(pid: nat)
    | Calls(pid: nat, outcome: ProviderOutcome)
    | FallsBack(pid: nat, usable: bool, contextHolds: bool, copyId: int, commits: bool)
    | Terminalizes(pid: nat, commits: bool)
    | Completes(pid: nat, contextHolds: bool, copyId: int, effect: Effect)
    | Rechecks(pid: nat, proved: bool)
    | Crashes(pid: nat)

  const NOT_CONFIGURED: string := "COMMERCIAL_AI_COPY_PROVIDER_NOT_CONFIGURED"
  const PROVIDER_FAILED: string := "COMMERCIAL_AI_COPY_PROVIDER_RESULT_AMBIGUOUS"
  const OUTPUT_INVALID: string := "COMMERCIAL_AI_COPY_OUTPUT_INVALID"
  const PERSISTENCE_AMBIGUOUS: string := "COMMERCIAL_AI_COPY_PERSISTENCE_AMBIGUOUS"

  function Moves(s: State, pid: nat, store: Store, stage: Stage): State {
    s.(store := store, procs := s.procs[pid := stage])
  }

  function AfterCall(key: Key, outcome: ProviderOutcome): Stage {
    match outcome
    case ProviderFailed(ambiguous) => FallingBack(key, if ambiguous then Ambiguous else Failed, PROVIDER_FAILED)
    case OutputInvalid => FallingBack(key, Failed, OUTPUT_INVALID)
    case AssemblyFailed(fallsBack) =>
      if fallsBack then FallingBack(key, Failed, OUTPUT_INVALID) else Terminalizing(key, Failed, OUTPUT_INVALID)
    case Produced => Completing(key)
  }

  function StepOf(s: State, l: Label, stage: Stage): Option<State>
    requires !l.Begins? && !l.Crashes?
  {
    var store := s.store;
    match l
    case Claims(pid, contextHolds) =>
      if !stage.Claiming? then None
      else
        var (store', result) := Claim(store, stage.key, contextHolds);
        var next :=
          match result
          case Refused => Done
          case AlreadyExists => Repairing(stage.key)
          case Claimed => if stage.providerReady then Armed(stage.key) else FallingBack(stage.key, Failed, NOT_CONFIGURED);
        var s' := Moves(s, pid, store', next);
        Some(if result.Claimed? then s'.(winners := s.winners[stage.key.fingerprint := pid]) else s')
    // an attempt found failed is confirmed as it is; anything else is only reported
    case Classifies(pid) =>
      if !stage.Repairing? then None
      else
        var f := stage.key.fingerprint;
        var repairs := f in store.attempts && IsTerminalFailure(store.attempts[f].status) && store.attempts[f].failureCode.Some?;
        Some(Moves(s, pid,
                   if repairs then MarkTerminal(store, stage.key, store.attempts[f].status, store.attempts[f].failureCode.value).0
                   else store,
                   Done))
    case HookFails(pid) =>
      if !stage.Armed? then None else Some(Moves(s, pid, store, FallingBack(stage.key, Ambiguous, PROVIDER_FAILED)))
    case Calls(pid, outcome) =>
      if !stage.Armed? then None
      else Some(Moves(s, pid, store, AfterCall(stage.key, outcome)).(calls := s.calls + [Call(pid, stage.key)]))
    case FallsBack(pid, usable, contextHolds, copyId, commits) =>
      if !stage.FallingBack? then None
      else if !usable then Some(Moves(s, pid, store, Terminalizing(stage.key, stage.status, stage.code)))
      else Some(Moves(s, pid, if commits then CompleteFallback(store, stage.key, contextHolds, copyId).0 else store, Done))
    case Terminalizes(pid, commits) =>
      if !stage.Terminalizing? || !IsTerminalFailure(stage.status) then None
      else Some(Moves(s, pid, if commits then MarkTerminal(store, stage.key, stage.status, stage.code).0 else store, Done))
    case Completes(pid, contextHolds, copyId, effect) =>
      if !stage.Completing? then None
      else Some(Moves(s, pid,
                      if effect.RollsBack? then store else Complete(store, stage.key, contextHolds, copyId).0,
                      if effect.Commits? then Done else Rechecking(stage.key)))
    case Rechecks(pid, proved) =>
      if !stage.Rechecking? then None
      else Some(Moves(s, pid, store,
                      if proved then Done else Terminalizing(stage.key, Ambiguous, PERSISTENCE_AMBIGUOUS)))
  }

  function Apply(s: State, l: Label): Option<State> {
    if l.Begins? then
      if l.pid in s.procs then None
      else if HasTerminalAttempt(s.store, l.key) then Some(Moves(s, l.pid, s.store, Repairing(l.key)))
      else if l.cached || (l.providerReady && l.historical) then Some(Moves(s, l.pid, s.store, Done))
      else Some(Moves(s, l.pid, s.store, Claiming(l.key, l.providerReady)))
    else if l.pid !in s.procs then None
    else if l.Crashes? then Some(Moves(s, l.pid, s.store, Done))
    else StepOf(s, l, s.procs[l.pid])
  }

  function Execute(s: State, labels: seq<Label>): Option<State> {
    if labels == [] then Some(s)
    else
      var before := Execute(s, labels[..|labels| - 1]);
      if before.None? then None else Apply(before.value, labels[|labels| - 1])
  }

  // ---------------------------------------------------------------------------
  // What every state keeps
  // ---------------------------------------------------------------------------

  /** The stage comes after winning the claim of its fingerprint. */
  predicate HasWon(stage: Stage) {
    stage.Armed? || stage.FallingBack? || stage.Terminalizing? || stage.Completing? || stage.Rechecking?
  }

  predicate IsArmed(s: State, pid: nat) {
    pid in s.procs && s.procs[pid].Armed?
  }

  predicate MayStillEnd(s: State, pid: nat) {
    pid in s.procs && (s.procs[pid].Armed? || s.procs[pid].FallingBack?)
  }

  ghost predicate WasCalled(s: State, fingerprint: string) {
    exists k :: 0 <= k < |s.calls| && s.calls[k].key.fingerprint == fingerprint
  }

  /** Each fingerprint has one winner, which alone goes on with it. */
  ghost predicate WinnersHold(s: State) {
    && (forall f | f in s.winners :: f in s.store.attempts)
    && (forall pid | pid in s.procs && HasWon(s.procs[pid]) ::
          s.procs[pid].key.fingerprint in s.winners && s.winners[s.procs[pid].key.fingerprint] == pid)
    && (forall pid | MayStillEnd(s, pid) :: IsRunning(s.store, s.procs[pid].key))
  }

  /** Every call was made by a winner, once. */
  ghost predicate CallsAreUnique(s: State) {
    && (forall k | 0 <= k < |s.calls| ::
          s.calls[k].key.fingerprint in s.winners && s.winners[s.calls[k].key.fingerprint] == s.calls[k].pid)
    && (forall j, k | 0 <= j < k < |s.calls| :: s.calls[j].key.fingerprint != s.calls[k].key.fingerprint)
    && (forall pid | IsArmed(s, pid) :: !WasCalled(s, s.procs[pid].key.fingerprint))
  }

  /** A snapshot of a candidate has at most one attempt that did not succeed. */
  ghost predicate AtMostOneOpen(store: Store) {
    forall f, g | f in store.attempts && g in store.attempts
      && store.attempts[f].candidateId == store.attempts[g].candidateId
      && store.attempts[f].snapshotId == store.attempts[g].snapshotId
      && !store.attempts[f].status.Succeeded? && !store.attempts[g].status.Succeeded? :: f == g
  }

  /** A copy is recorded exactly with success. */
  ghost predicate CopiesMatch(store: Store) {
    forall f | f in store.attempts ::
      && (store.attempts[f].status.Succeeded? <==> store.attempts[f].copyId.Some?)
      && (store.attempts[f].copyId.Some? ==> f in store.copies && store.copies[f] == store.attempts[f].copyId.value)
  }

  ghost predicate Inv(s: State) {
    WinnersHold(s) && CallsAreUnique(s) && AtMostOneOpen(s.store) && CopiesMatch(s.store)
  }

  /** What is stored may grow, but an attempt that ended does not change. */
  ghost predicate KeepsEnded(store: Store, store': Store) {
    forall f | f in store.attempts ::
      && f in store'.attempts
      && store'.attempts[f].candidateId == store.attempts[f].candidateId
      && store'.attempts[f].snapshotId == store.attempts[f].snapshotId
      && (!store.attempts[f].status.Started? ==> store'.attempts[f] == store.attempts[f])
  }

  lemma StepKeepsEnded(s: State, l: Label)
    requires Apply(s, l).Some?
    ensures KeepsEnded(s.store, Apply(s, l).value.store)
  {
  }

  lemma StepKeepsStore(s: State, l: Label)
    requires AtMostOneOpen(s.store) && CopiesMatch(s.store) && Apply(s, l).Some?
    ensures AtMostOneOpen(Apply(s, l).value.store) && CopiesMatch(Apply(s, l).value.store)
  {
  }

  /** Only the winner of a fingerprint ends its attempt. */
  lemma OnlyWinnersEnd(s: State, l: Label)
    requires WinnersHold(s) && Apply(s, l).Some?
    ensures forall f | f in s.store.attempts && s.store.attempts[f].status.Started?
              && !(f in s.winners && s.winners[f] == l.pid) ::
              Apply(s, l).value.store.attempts[f] == s.store.attempts[f]
  {
  }

  lemma ClaimKeepsWinners(s: State, l: Label)
    requires WinnersHold(s) && CallsAreUnique(s) && Apply(s, l).Some? && l.Claims?
    ensures WinnersHold(Apply(s, l).value) && CallsAreUnique(Apply(s, l).value)
  {
    var s' := Apply(s, l).value;
    var f := s.procs[l.pid].key.fingerprint;
    assert s'.calls == s.calls;
    assert forall k | 0 <= k < |s.calls| :: s.calls[k].key.fingerprint in s.winners;
    if f !in s.store.attempts {
      assert !WasCalled(s', f);
    }
  }

  lemma CallKeepsWinners(s: State, l: Label)
    requires WinnersHold(s) && CallsAreUnique(s) && Apply(s, l).Some? && l.Calls?
    ensures WinnersHold(Apply(s, l).value) && CallsAreUnique(Apply(s, l).value)
  {
    var s' := Apply(s, l).value;
    var f := s.procs[l.pid].key.fingerprint;
    assert IsArmed(s, l.pid) && !WasCalled(s, f) && MayStillEnd(s, l.pid);
    assert forall g | WasCalled(s', g) :: WasCalled(s, g) || g == f;
    forall pid | IsArmed(s', pid) ensures !WasCalled(s', s'.procs[pid].key.fingerprint) {
      assert IsArmed(s, pid) && pid != l.pid;
    }
    forall pid | MayStillEnd(s', pid) ensures IsRunning(s'.store, s'.procs[pid].key) {
      assert MayStillEnd(s, pid);
    }
  }

  /** A step of one process that claims nothing and calls nobody. */
  ghost predicate OnlyMovesOn(s: State, s': State, mover: nat) {
    && s'.calls == s.calls && s'.winners == s.winners
    && (forall pid | pid in s'.procs && HasWon(s'.procs[pid]) ::
          pid in s.procs && HasWon(s.procs[pid]) && s.procs[pid].key == s'.procs[pid].key)
    && (forall pid | IsArmed(s', pid) :: IsArmed(s, pid))
    && (forall pid | MayStillEnd(s', pid) :: MayStillEnd(s, pid) && (pid == mover ==> s'.store == s.store))
  }

  ghost predicate OnlyEndsOwn(s: State, s': State, mover: nat) {
    && KeepsEnded(s.store, s'.store)
    && forall f | f in s.store.attempts && s.store.attempts[f].status.Started?
         && !(f in s.winners && s.winners[f] == mover) :: s'.store.attempts[f] == s.store.attempts[f]
  }

  lemma OthersOnlyMoveOn(s: State, l: Label)
    requires Apply(s, l).Some? && !l.Claims? && !l.Calls?
    ensures OnlyMovesOn(s, Apply(s, l).value, l.pid)
  {
  }

  lemma AdvancingKeepsWinners(s: State, s': State, mover: nat)
    requires WinnersHold(s) && CallsAreUnique(s) && OnlyMovesOn(s, s', mover) && OnlyEndsOwn(s, s', mover)
    ensures WinnersHold(s') && CallsAreUnique(s')
  {
    assert forall g | WasCalled(s', g) :: WasCalled(s, g);
    forall pid | MayStillEnd(s', pid) ensures IsRunning(s'.store, s'.procs[pid].key) {
      assert MayStillEnd(s, pid);
    }
  }

  lemma StepKeepsInv(s: State, l: Label)
    requires Inv(s) && Apply(s, l).Some?
    ensures Inv(Apply(s, l).value)
  {
    StepKeepsStore(s, l);
    if l.Claims? {
      ClaimKeepsWinners(s, l);
    } else if l.Calls? {
      CallKeepsWinners(s, l);
    } else {
      OthersOnlyMoveOn(s, l);
      StepKeepsEnded(s, l);
      OnlyWinnersEnd(s, l);
      AdvancingKeepsWinners(s, Apply(s, l).value, l.pid);
    }
  }

  // ---------------------------------------------------------------------------
  // Over whole runs
  // ---------------------------------------------------------------------------

  /** Attempts and copies as earlier runs left them; no process yet. */
  ghost predicate Initial(s: State) {
    s.procs == map[] && s.winners == map[] && s.calls == [] && AtMostOneOpen(s.store) && CopiesMatch(s.store)
  }

  lemma {:induction false} RunsKeepInv(start: State, labels: seq<Label>)
    requires Initial(start) && Execute(start, labels).Some?
    ensures Inv(Execute(start, labels).value)
  {
    if labels != [] {
      RunsKeepInv(start, labels[..|labels| - 1]);
      StepKeepsInv(Execute(start, labels[..|labels| - 1]).value, labels[|labels| - 1]);
    }
  }

  /** Over any interleaving of generations the provider is called at most once for each
      fingerprint, and only by the process that won its claim. */
  lemma OneCallPerFingerprint(start: State, labels: seq<Label>)
    requires Initial(start) && Execute(start, labels).Some?
    ensures var s := Execute(start, labels).value;
      && (forall j, k | 0 <= j < k < |s.calls| :: s.calls[j].key.fingerprint != s.calls[k].key.fingerprint)
      && (forall k | 0 <= k < |s.calls| ::
            s.calls[k].key.fingerprint in s.winners && s.winners[s.calls[k].key.fingerprint] == s.calls[k].pid)
  {
    RunsKeepInv(start, labels);
  }

  /** An attempt that ended is never reopened or changed. */
  lemma {:induction false} EndedForGood(start: State, labels: seq<Label>, k: nat, fingerprint: string)
    requires Execute(start, labels).Some? && k <= |labels| && Execute(start, labels[..k]).Some?
    requires fingerprint in Execute(start, labels[..k]).value.store.attempts
    requires !Execute(start, labels[..k]).value.store.attempts[fingerprint].status.Started?
    ensures fingerprint in Execute(start, labels).value.store.attempts
    ensures Execute(start, labels).value.store.attempts[fingerprint]
         == Execute(start, labels[..k]).value.store.attempts[fingerprint]
    decreases |labels|
  {
    if k == |labels| {
      assert labels[..k] == labels;
    } else {
      var before := labels[..|labels| - 1];
      assert before[..k] == labels[..k];
      EndedForGood(start, before, k, fingerprint);
      StepKeepsEnded(Execute(start, before).value, labels[|labels| - 1]);
    }
  }

  /** A call needs a running attempt, the only one of its snapshot that has not succeeded. */
  lemma NoCallAfterFailure(s: State, l: Label)
    requires Inv(s) && Apply(s, l).Some? && l.Calls?
    ensures !HasTerminalAttempt(s.store, s.procs[l.pid].key)
  {
    assert MayStillEnd(s, l.pid);
  }

  /** Once an attempt at a snapshot failed or became ambiguous, the provider is never
      called for that snapshot again, under any fingerprint. */
  lemma {:induction false} FailedSnapshotIsNeverPaidAgain(start: State, labels: seq<Label>, k: nat, key: Key)
    requires Initial(start) && Execute(start, labels).Some? && k <= |labels| && Execute(start, labels[..k]).Some?
    requires HasTerminalAttempt(Execute(start, labels[..k]).value.store, key)
    ensures HasTerminalAttempt(Execute(start, labels).value.store, key)
    ensures var calls, earlier := Execute(start, labels).value.calls, Execute(start, labels[..k]).value.calls;
      && earlier <= calls
      && forall c | |earlier| <= c < |calls| ::
           !(calls[c].key.candidateId == key.candidateId && calls[c].key.snapshotId == key.snapshotId)
    decreases |labels|
  {
    if k == |labels| {
      assert labels[..k] == labels;
    } else {
      var before, last := labels[..|labels| - 1], labels[|labels| - 1];
      assert before[..k] == labels[..k];
      FailedSnapshotIsNeverPaidAgain(start, before, k, key);
      RunsKeepInv(start, before);
      var s := Execute(start, before).value;
      StepKeepsEnded(s, last);
      if last.Calls? {
        NoCallAfterFailure(s, last);
      }
    }
  }
}
