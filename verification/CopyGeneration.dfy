/** One call of `generate`, step by step, as a process of the attempts machine
    (apps/api/src/commercial-promotion-copy-generation-service.ts:717-1200). */
module CopyGeneration {
  import opened Wrappers
  import opened CopyAttempts

  function CallsBy(calls: seq<Call>, pid: nat): nat {
    if calls == [] then 0
    else CallsBy(calls[..|calls| - 1], pid) + if calls[|calls| - 1].pid == pid then 1 else 0
  }

  /** A step makes a call only for the process that takes it, and one at most. */
  lemma StepCalls(s: State, l: Label, pid: nat)
    requires Apply(s, l).Some?
    ensures CallsBy(Apply(s, l).value.calls, pid)
         == CallsBy(s.calls, pid) + if l.Calls? && l.pid == pid then 1 else 0
  {
    if l.Calls? {
      var c := Call(l.pid, s.procs[l.pid].key);
      assert Apply(s, l).value.calls == s.calls + [c];
      assert (s.calls + [c])[..|s.calls|] == s.calls;
    }
  }

  class Ledger {
    var state: State
    ghost const start: State
    ghost var trace: seq<Label>

    constructor (initial: State)
      ensures Valid() && state == start == initial && trace == []
    {
      state, start, trace := initial, initial, [];
    }

    ghost predicate Valid()
      reads this
    {
      Execute(start, trace) == Some(state)
    }

    /** One step of the machine. */
    method Take(l: Label, ghost pid: nat)
      requires Valid() && Apply(state, l).Some?
      modifies this
      ensures Valid() && trace == old(trace) + [l] && Some(state) == Apply(old(state), l)
      ensures CallsBy(state.calls, pid) == old(CallsBy(state.calls, pid)) + if l.Calls? && l.pid == pid then 1 else 0
    {
      StepCalls(state, l, pid);
      assert (trace + [l])[..|trace|] == trace;
      state := Apply(state, l).value;
      trace := trace + [l];
    }

    /** Any number of steps of other generations. */
    method Meanwhile(pid: nat)
      requires Valid()
      modifies this
      ensures Valid() && old(trace) <= trace
      ensures pid in state.procs <==> pid in old(state.procs)
      ensures pid in state.procs ==> state.procs[pid] == old(state.procs[pid])
      ensures CallsBy(state.calls, pid) == old(CallsBy(state.calls, pid))
    {
      var steps: nat := Arbitrary();
      for i := 0 to steps
        invariant Valid() && old(trace) <= trace
        invariant pid in state.procs <==> pid in old(state.procs)
        invariant pid in state.procs ==> state.procs[pid] == old(state.procs[pid])
        invariant CallsBy(state.calls, pid) == old(CallsBy(state.calls, pid))
      {
        var l: Label := Arbitrary();
        if l.pid != pid && Apply(state, l).Some? {
          Take(l, pid);
        }
      }
    }
  }

  datatype Result = Copied(copyId: int) | Proved | FromCache | Rejected | NoCopy

  /** What is recorded when a copy is returned as new. */
  ghost predicate IsRecorded(s: State, key: Key, copyId: int) {
    && key.fingerprint in s.store.attempts
    && s.store.attempts[key.fingerprint].status.Succeeded?
    && s.store.attempts[key.fingerprint].copyId == Some(copyId)
  }

  predicate IsFinished(s: State, pid: nat) {
    pid in s.procs && s.procs[pid].Done?
  }

  /** One call of `generate`, to its end: at most one paid call, none without winning the claim, and
      a new copy is returned only once its attempt is recorded as succeeded with it. */
  method Generate(w: Ledger, pid: nat, key: Key, providerReady: bool) returns (result: Result)
    requires w.Valid() && pid !in w.state.procs
    modifies w
    ensures w.Valid() && old(w.trace) <= w.trace && IsFinished(w.state, pid)
    ensures CallsBy(w.state.calls, pid) <= old(CallsBy(w.state.calls, pid)) + 1
    ensures !providerReady || result.Rejected? || result.FromCache? ==>
              CallsBy(w.state.calls, pid) == old(CallsBy(w.state.calls, pid))
    ensures result.Copied? ==> IsRecorded(w.state, key, result.copyId)
  {
    w.Meanwhile(pid);
    var cached: bool := Arbitrary();
    var historical: bool := Arbitrary();
    w.Take(Begins(pid, key, providerReady, cached, historical), pid);
    if w.state.procs[pid].Repairing? {
      result := RejectExisting(w, pid, key);
      return;
    }
    if w.state.procs[pid].Done? {
      return if cached then FromCache else Rejected;
    }
    w.Meanwhile(pid);
    var contextHolds: bool := Arbitrary();
    var claim := Claim(w.state.store, key, contextHolds).1;
    w.Take(Claims(pid, contextHolds), pid);
    match claim {
      case Refused =>
        return Rejected;
      case AlreadyExists =>
        result := RejectExisting(w, pid, key);
      case Claimed =>
        if !providerReady {
          result := FallBack(w, pid, key, CopyAttempts.Failed, NOT_CONFIGURED);
          return;
        }
        result := CallProvider(w, pid, key);
    }
  }

  /** An attempt exists: a failed one is confirmed, a copy may be reused, nothing is called. */
  method RejectExisting(w: Ledger, pid: nat, key: Key) returns (result: Result)
    requires w.Valid() && pid in w.state.procs && w.state.procs[pid] == Repairing(key)
    modifies w
    ensures w.Valid() && old(w.trace) <= w.trace && IsFinished(w.state, pid)
    ensures CallsBy(w.state.calls, pid) == old(CallsBy(w.state.calls, pid))
    ensures result.Rejected? || result.FromCache?
  {
    w.Meanwhile(pid);
    var attempts := w.state.store.attempts;
    var reusable: bool := Arbitrary();
    w.Take(Classifies(pid), pid);
    return if reusable && key.fingerprint in attempts && attempts[key.fingerprint].status.Succeeded? then FromCache
           else Rejected;
  }

  method CallProvider(w: Ledger, pid: nat, key: Key) returns (result: Result)
    requires w.Valid() && pid in w.state.procs && w.state.procs[pid] == Armed(key)
    modifies w
    ensures w.Valid() && old(w.trace) <= w.trace && IsFinished(w.state, pid)
    ensures CallsBy(w.state.calls, pid) <= old(CallsBy(w.state.calls, pid)) + 1
    ensures result.Copied? ==> IsRecorded(w.state, key, result.copyId)
    ensures !result.Rejected? && !result.FromCache?
  {
    w.Meanwhile(pid);
    var hookFails: bool := Arbitrary();
    if hookFails {
      w.Take(HookFails(pid), pid);
      result := FallBack(w, pid, key, CopyAttempts.Ambiguous, PROVIDER_FAILED);
      return;
    }
    var outcome: ProviderOutcome := Arbitrary();
    w.Take(Calls(pid, outcome), pid);
    match outcome {
      case ProviderFailed(ambiguous) =>
        result := FallBack(w, pid, key, if ambiguous then CopyAttempts.Ambiguous else CopyAttempts.Failed, PROVIDER_FAILED);
      case OutputInvalid =>
        result := FallBack(w, pid, key, CopyAttempts.Failed, OUTPUT_INVALID);
      case AssemblyFailed(fallsBack) =>
        if fallsBack {
          result := FallBack(w, pid, key, CopyAttempts.Failed, OUTPUT_INVALID);
        } else {
          TerminalFailure(w, pid, key, CopyAttempts.Failed, OUTPUT_INVALID);
          return NoCopy;
        }
      case Produced =>
        result := Persist(w, pid, key);
    }
  }

  /** Records the failure; a conflict or an error changes nothing. */
  method TerminalFailure(w: Ledger, pid: nat, key: Key, status: AttemptStatus, code: string)
    requires w.Valid() && pid in w.state.procs && w.state.procs[pid] == Terminalizing(key, status, code)
    requires IsTerminalFailure(status)
    modifies w
    ensures w.Valid() && old(w.trace) <= w.trace && IsFinished(w.state, pid)
    ensures CallsBy(w.state.calls, pid) == old(CallsBy(w.state.calls, pid))
  {
    w.Meanwhile(pid);
    var commits: bool := Arbitrary();
    w.Take(Terminalizes(pid, commits), pid);
  }

  /** The deterministic copy, after the provider was not usable. */
  method FallBack(w: Ledger, pid: nat, key: Key, status: AttemptStatus, code: string) returns (result: Result)
    requires w.Valid() && pid in w.state.procs && w.state.procs[pid] == FallingBack(key, status, code)
    requires IsTerminalFailure(status)
    modifies w
    ensures w.Valid() && old(w.trace) <= w.trace && IsFinished(w.state, pid)
    ensures CallsBy(w.state.calls, pid) == old(CallsBy(w.state.calls, pid))
    ensures (result.Copied? && IsRecorded(w.state, key, result.copyId)) || result.NoCopy?
  {
    w.Meanwhile(pid);
    var usable: bool := Arbitrary();
    var contextHolds: bool := Arbitrary();
    var copyId: int := Arbitrary();
    var commits: bool := Arbitrary();
    var completed := CompleteFallback(w.state.store, key, contextHolds, copyId).1;
    w.Take(FallsBack(pid, usable, contextHolds, copyId, commits), pid);
    if !usable {
      TerminalFailure(w, pid, key, status, code);
      return NoCopy;
    }
    return if commits && completed then Copied(copyId) else NoCopy;
  }

  /** Persists the provider's copy; after an error, believes only what it can read back. */
  method Persist(w: Ledger, pid: nat, key: Key) returns (result: Result)
    requires w.Valid() && pid in w.state.procs && w.state.procs[pid] == Completing(key)
    modifies w
    ensures w.Valid() && old(w.trace) <= w.trace && IsFinished(w.state, pid)
    ensures CallsBy(w.state.calls, pid) == old(CallsBy(w.state.calls, pid))
    ensures result.Copied? ==> IsRecorded(w.state, key, result.copyId)
    ensures !result.Rejected? && !result.FromCache?
  {
    w.Meanwhile(pid);
    var contextHolds: bool := Arbitrary();
    var copyId: int := Arbitrary();
    var effect: Effect := Arbitrary();
    var completed := Complete(w.state.store, key, contextHolds, copyId).1;
    w.Take(Completes(pid, contextHolds, copyId, effect), pid);
    if effect.Commits? {
      return if completed then Copied(copyId) else NoCopy;
    }
    w.Meanwhile(pid);
    var attempts := w.state.store.attempts;
    var linked: bool := Arbitrary();
    var proved := linked && key.fingerprint in attempts && attempts[key.fingerprint].status.Succeeded?;
    w.Take(Rechecks(pid, proved), pid);
    if proved {
      return Proved;
    }
    TerminalFailure(w, pid, key, CopyAttempts.Ambiguous, PERSISTENCE_AMBIGUOUS);
    return NoCopy;
  }
}
