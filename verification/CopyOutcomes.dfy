/** What each outcome of a generation leaves recorded, when nothing else fails
    (apps/api/src/commercial-promotion-copy-generation-service.ts:835-1200). */
module CopyOutcomes {
  import opened Wrappers
  import opened CopyAttempts

  lemma OneMore(s: State, labels: seq<Label>, l: Label)
    ensures Execute(s, labels + [l])
         == if Execute(s, labels).None? then None else Apply(Execute(s, labels).value, l)
  {
    assert (labels + [l])[..|labels|] == labels;
  }

  /** One, two or three steps. */
  lemma Steps(s: State, a: Label, b: Label, c: Label)
    ensures Execute(s, [a]) == Apply(s, a)
    ensures Execute(s, [a, b]) == if Apply(s, a).None? then None else Apply(Apply(s, a).value, b)
    ensures Execute(s, [a, b, c])
         == if Execute(s, [a, b]).None? then None else Apply(Execute(s, [a, b]).value, c)
  {
    OneMore(s, [], a);
    OneMore(s, [a], b);
    OneMore(s, [a, b], c);
    assert [] + [a] == [a] && [a] + [b] == [a, b] && [a, b] + [c] == [a, b, c];
  }

  lemma TwoSteps(s: State, a: Label, b: Label)
    ensures Execute(s, [a, b]) == if Apply(s, a).None? then None else Apply(Apply(s, a).value, b)
  {
    Steps(s, a, b, b);
  }

  /** The attempt of `key` has ended so. */
  predicate IsEnded(s: State, key: Key, status: AttemptStatus, code: Option<string>, copyId: Option<int>) {
    && key.fingerprint in s.store.attempts
    && s.store.attempts[key.fingerprint] == Attempt(key.candidateId, key.snapshotId, status, code, copyId)
  }

  predicate IsStored(s: State, key: Key, copyId: int) {
    key.fingerprint in s.store.copies && s.store.copies[key.fingerprint] == copyId
  }

  /** Without a deterministic copy, a failure is recorded as it is, if it can be. */
  lemma FailureIsRecorded(s: State, pid: nat, key: Key, status: AttemptStatus, code: string, commits: bool)
    requires pid in s.procs && s.procs[pid] == FallingBack(key, status, code)
    requires IsTerminalFailure(status) && IsRunning(s.store, key) && s.store.attempts[key.fingerprint].copyId.None?
    ensures var fallen := Apply(s, FallsBack(pid, false, false, 0, false));
      && fallen.Some? && fallen.value.store == s.store && fallen.value.calls == s.calls
      && var after := Apply(fallen.value, Terminalizes(pid, commits));
         && after.Some? && after.value.calls == s.calls
         && (if commits then IsEnded(after.value, key, status, Some(code), None) else after.value.store == s.store)
  {
    var fallen := Apply(s, FallsBack(pid, false, false, 0, false)).value;
    assert fallen.procs[pid] == Terminalizing(key, status, code);
  }

  /** What is recorded of a call that gave no copy and left no deterministic one either:
      ambiguous exactly if the provider may have produced something that was not seen. */
  lemma FailedCallIsRecorded(s: State, pid: nat, outcome: ProviderOutcome)
    requires Inv(s) && IsArmed(s, pid) && !outcome.Produced?
    ensures var key := s.procs[pid].key;
      var after := if outcome == AssemblyFailed(false)
                   then Execute(s, [Calls(pid, outcome), Terminalizes(pid, true)])
                   else Execute(s, [Calls(pid, outcome), FallsBack(pid, false, false, 0, false), Terminalizes(pid, true)]);
      && after.Some? && after.value.calls == s.calls + [Call(pid, key)]
      && (outcome == ProviderFailed(true) ==> IsEnded(after.value, key, Ambiguous, Some(PROVIDER_FAILED), None))
      && (outcome == ProviderFailed(false) ==> IsEnded(after.value, key, Failed, Some(PROVIDER_FAILED), None))
      && (outcome.OutputInvalid? || outcome.AssemblyFailed? ==> IsEnded(after.value, key, Failed, Some(OUTPUT_INVALID), None))
  {
    Steps(s, Calls(pid, outcome), if outcome == AssemblyFailed(false) then Terminalizes(pid, true)
                                  else FallsBack(pid, false, false, 0, false), Terminalizes(pid, true));
    assert MayStillEnd(s, pid);
    var called := Apply(s, Calls(pid, outcome)).value;
    assert called.store == s.store;
    if called.procs[pid].FallingBack? {
      FailureIsRecorded(called, pid, called.procs[pid].key, called.procs[pid].status, called.procs[pid].code, true);
    }
  }

  /** An error before the call leaves it ambiguous, although nothing was paid. */
  lemma FailedHookIsAmbiguous(s: State, pid: nat)
    requires Inv(s) && IsArmed(s, pid)
    ensures var after := Execute(s, [HookFails(pid), FallsBack(pid, false, false, 0, false), Terminalizes(pid, true)]);
      && after.Some? && after.value.calls == s.calls
      && IsEnded(after.value, s.procs[pid].key, Ambiguous, Some(PROVIDER_FAILED), None)
  {
    var key := s.procs[pid].key;
    Steps(s, HookFails(pid), FallsBack(pid, false, false, 0, false), Terminalizes(pid, true));
    assert MayStillEnd(s, pid);
    FailureIsRecorded(Apply(s, HookFails(pid)).value, pid, key, Ambiguous, PROVIDER_FAILED, true);
  }

  /** A deterministic copy that can be used ends the attempt as succeeded after any failed
      call, unless it cannot be stored, another copy is, or the context changed; then it stays running. */
  lemma FallbackIsRecorded(s: State, pid: nat, outcome: ProviderOutcome, contextHolds: bool, copyId: int, commits: bool)
    requires Inv(s) && IsArmed(s, pid) && !outcome.Produced? && outcome != AssemblyFailed(false)
    ensures var key, after := s.procs[pid].key,
                              Execute(s, [Calls(pid, outcome), FallsBack(pid, true, contextHolds, copyId, commits)]);
      && after.Some? && after.value.procs[pid].Done?
      && (if commits && contextHolds && (key.fingerprint in s.store.copies ==> s.store.copies[key.fingerprint] == copyId)
          then IsEnded(after.value, key, Succeeded, None, Some(copyId)) && IsStored(after.value, key, copyId)
          else after.value.store == s.store)
  {
    TwoSteps(s, Calls(pid, outcome), FallsBack(pid, true, contextHolds, copyId, commits));
    assert MayStillEnd(s, pid);
  }

  /** A copy the provider produced is stored next. */
  lemma ProducedCopyIsCompleted(s: State, pid: nat)
    requires Inv(s) && IsArmed(s, pid)
    ensures var key, called := s.procs[pid].key, Apply(s, Calls(pid, Produced));
      && called.Some? && called.value.store == s.store && called.value.calls == s.calls + [Call(pid, key)]
      && called.value.procs[pid] == Completing(key) && IsRunning(s.store, key)
  {
    assert MayStillEnd(s, pid);
  }

  /** It ends the running attempt as succeeded, unless the context changed or another copy is
      stored; then the attempt fails, with that code. A write that is rolled back changes
      nothing, and after an error the attempt is looked at again. */
  lemma ProducedCopyIsRecorded(s: State, pid: nat, contextHolds: bool, copyId: int, effect: Effect)
    requires pid in s.procs && s.procs[pid].Completing? && IsRunning(s.store, s.procs[pid].key)
    ensures var key, after := s.procs[pid].key, Apply(s, Completes(pid, contextHolds, copyId, effect));
      && after.Some? && after.value.procs[pid] == (if effect.Commits? then Done else Rechecking(key))
      && (if effect.RollsBack? then after.value.store == s.store
          else if !contextHolds then
            IsEnded(after.value, key, Failed, Some("COMMERCIAL_AI_COPY_CONFIGURATION_CHANGED"), None)
          else if key.fingerprint in s.store.copies && s.store.copies[key.fingerprint] != copyId then
            IsEnded(after.value, key, Failed, Some("COMMERCIAL_AI_COPY_CACHE_INCONSISTENT"), None)
          else
            IsEnded(after.value, key, Succeeded, None, Some(copyId)) && IsStored(after.value, key, copyId))
  {
  }

  /** When looking again proves nothing, the attempt ends as ambiguous if it still runs, and is
      left as it is if it ended. */
  lemma UnprovedCopyIsAmbiguous(s: State, pid: nat)
    requires pid in s.procs && s.procs[pid].Rechecking?
    requires s.procs[pid].key.fingerprint in s.store.attempts
    requires IsOf(s.store.attempts[s.procs[pid].key.fingerprint], s.procs[pid].key)
    ensures var key, after := s.procs[pid].key, Execute(s, [Rechecks(pid, false), Terminalizes(pid, true)]);
      && after.Some? && after.value.procs[pid].Done?
      && if s.store.attempts[key.fingerprint].status.Started?
         then IsEnded(after.value, key, Ambiguous, Some(PERSISTENCE_AMBIGUOUS), None)
         else after.value.store == s.store
  {
    TwoSteps(s, Rechecks(pid, false), Terminalizes(pid, true));
    assert Apply(s, Rechecks(pid, false)).value.store == s.store;
  }

  /** Who begins: a snapshot with an ended attempt is only looked up again; a cached copy is
      given at once, and so is an earlier one if the provider could be asked; otherwise the
      claim is tried, and won exactly if the context holds, the snapshot has no attempt
      that runs or failed, and the fingerprint has none at all. */
  lemma ClaimWonExactlyWhen(s: State, pid: nat, key: Key, providerReady: bool, cached: bool, historical: bool,
                            contextHolds: bool)
    requires pid !in s.procs
    ensures var begun := Execute(s, [Begins(pid, key, providerReady, cached, historical)]);
      && begun.Some? && begun.value.store == s.store
      && (begun.value.procs[pid].Claiming?
          <==> && !cached && !(providerReady && historical)
               && forall f | f in s.store.attempts && IsOf(s.store.attempts[f], key) ::
                    !s.store.attempts[f].status.Failed? && !s.store.attempts[f].status.Ambiguous?)
      && (begun.value.procs[pid].Claiming? ==>
            var claimed := Execute(s, [Begins(pid, key, providerReady, cached, historical), Claims(pid, contextHolds)]);
            && claimed.Some?
            && (claimed.value.procs[pid] in {Armed(key), FallingBack(key, Failed, NOT_CONFIGURED)}
                <==> && contextHolds && key.fingerprint !in s.store.attempts
                     && forall f | f in s.store.attempts && IsOf(s.store.attempts[f], key) ::
                          s.store.attempts[f].status.Succeeded?)
            && (claimed.value.procs[pid].Armed? ==> providerReady))
  {
    Steps(s, Begins(pid, key, providerReady, cached, historical), Claims(pid, contextHolds), Crashes(pid));
  }

  /** A generation that has begun does not begin again. */
  lemma BeginsOnce(s: State, pid: nat, key: Key)
    ensures forall ready, cached, historical :: Apply(s, Begins(pid, key, ready, cached, historical)).Some? <==> pid !in s.procs
  {
  }
}
