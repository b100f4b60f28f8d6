/** The plan of a day: from targets to slots
    (apps/api/src/commercial-automation-scheduler-planner.ts:291-472). */
module DayPlan {
  import opened Wrappers
  import opened LocalClock
  import opened Arithmetic
  import opened SlotSearch
  import opened SlotPlanner
  import Sorting

  datatype Plan = Plan(slots: seq<Slot>, skippedTargets: seq<string>)

  // ---------------------------------------------------------------------------
  // Targets
  // ---------------------------------------------------------------------------

  function KeyOrder(i: Input): (Target, Target) -> bool {
    (x: Target, y: Target) => i.collation(x.Key()) <= i.collation(y.Key())
  }

  /** Where the grid of a target starts: its first usable minute of the local day, or the
      start of the day. `None` stands for the error raised when a window never opens. */
  function AnchorOf(i: Input, t: Target, dayStart: int, dayEnd: int): Option<int> {
    var search := NextValidSlot(i.ScheduleWindow(), t.TargetWindow(i.schedule), dayStart, dayEnd);
    match search
    case Found(at) => Some(at)
    case NoSlot => Some(dayStart)
    case OpeningNotFound => None
  }

  function StateOf(i: Input, t: Target, anchor: int): TargetState {
    TargetState(t, Grid(i.ScheduleWindow(), t.TargetWindow(i.schedule), anchor, t.IntervalMinutes(i.schedule)),
                i.Quota(t), i.Base(t))
  }

  /** The targets that can be planned, in order, ready for the round robin. */
  ghost function StatesOf(i: Input, dayStart: int, dayEnd: int, targets: seq<Target>): Option<seq<TargetState>> {
    if targets == [] then Some([])
    else
      var before, t := StatesOf(i, dayStart, dayEnd, targets[..|targets| - 1]), targets[|targets| - 1];
      if before.None? || !i.Plannable(t) then before
      else
        var anchor := AnchorOf(i, t, dayStart, dayEnd);
        if anchor.None? then None else Some(before.value + [StateOf(i, t, anchor.value)])
  }

  ghost function Unplannable(i: Input, targets: seq<Target>): seq<string> {
    if targets == [] then []
    else
      var t := targets[|targets| - 1];
      Unplannable(i, targets[..|targets| - 1]) + if i.Plannable(t) then [] else [t.campaignId]
  }

  /** A state was made from a target of the input that may be planned. */
  ghost predicate IsStateOf(i: Input, dayStart: int, dayEnd: int, st: TargetState) {
    && st.target in i.targets
    && i.Plannable(st.target)
    && AnchorOf(i, st.target, dayStart, dayEnd).Some?
    && st == StateOf(i, st.target, AnchorOf(i, st.target, dayStart, dayEnd).value)
  }

  lemma {:induction false} StatesComeFromTargets(i: Input, dayStart: int, dayEnd: int, targets: seq<Target>)
    requires StatesOf(i, dayStart, dayEnd, targets).Some?
    requires forall t | t in targets :: t in i.targets
    ensures forall st | st in StatesOf(i, dayStart, dayEnd, targets).value ::
              IsStateOf(i, dayStart, dayEnd, st) && st.Valid()
  {
    if targets != [] {
      assert targets == targets[..|targets| - 1] + [targets[|targets| - 1]];
      StatesComeFromTargets(i, dayStart, dayEnd, targets[..|targets| - 1]);
    }
  }

  lemma {:induction false} StatesNeedOpenings(i: Input, dayStart: int, dayEnd: int, targets: seq<Target>)
    requires StatesOf(i, dayStart, dayEnd, targets).None?
    ensures !OpensWithin72Hours(i.ScheduleWindow())
         || exists t :: t in targets && !OpensWithin72Hours(t.TargetWindow(i.schedule))
  {
    if targets != [] {
      assert targets == targets[..|targets| - 1] + [targets[|targets| - 1]];
      var t := targets[|targets| - 1];
      if StatesOf(i, dayStart, dayEnd, targets[..|targets| - 1]).None? {
        StatesNeedOpenings(i, dayStart, dayEnd, targets[..|targets| - 1]);
      } else {
        NextValidSlotExact(i.ScheduleWindow(), t.TargetWindow(i.schedule), dayStart, dayEnd);
      }
    }
  }

  method BuildStates(i: Input, dayStart: int, dayEnd: int, targets: seq<Target>)
    returns (states: Option<seq<TargetState>>, skipped: seq<string>)
    ensures states == StatesOf(i, dayStart, dayEnd, targets)
    ensures states.Some? ==> skipped == Unplannable(i, targets)
  {
    var built := [];
    skipped := [];
    for k := 0 to |targets|
      invariant StatesOf(i, dayStart, dayEnd, targets[..k]) == Some(built)
      invariant skipped == Unplannable(i, targets[..k])
    {
      var t := targets[k];
      assert targets[..k + 1][..k] == targets[..k];
      if !i.Plannable(t) {
        skipped := skipped + [t.campaignId];
        continue;
      }
      var anchor := FindNextValidSlot(i.ScheduleWindow(), t.TargetWindow(i.schedule), dayStart, dayEnd);
      if anchor.OpeningNotFound? {
        StatesStayNone(i, dayStart, dayEnd, targets, k + 1);
        return None, skipped;
      }
      built := built + [StateOf(i, t, if anchor.Found? then anchor.at else dayStart)];
    }
    assert targets[..|targets|] == targets;
    return Some(built), skipped;
  }

  lemma {:induction false} StatesStayNone(i: Input, dayStart: int, dayEnd: int, targets: seq<Target>, k: nat)
    requires k <= |targets| && StatesOf(i, dayStart, dayEnd, targets[..k]).None?
    ensures StatesOf(i, dayStart, dayEnd, targets).None?
    decreases |targets|
  {
    if k == |targets| {
      assert targets[..k] == targets;
    } else {
      assert targets[..|targets| - 1][..k] == targets[..k];
      StatesStayNone(i, dayStart, dayEnd, targets[..|targets| - 1], k);
    }
  }

  // ---------------------------------------------------------------------------
  // The plan
  // ---------------------------------------------------------------------------

  function SlotOrder(i: Input): (Candidate, Candidate) -> bool {
    (x: Candidate, y: Candidate) =>
      || x.scheduledFor < y.scheduledFor
      || (x.scheduledFor == y.scheduledFor
          && (|| i.collation(x.target.Key()) < i.collation(y.target.Key())
              || (i.collation(x.target.Key()) == i.collation(y.target.Key()) && x.slotIndex <= y.slotIndex)))
  }

  function SlotOf(i: Input, c: Candidate): Slot {
    Slot(SlotKey(i.schedule.scheduleRevision, c.target.Key(), c.instanceName, c.scheduledFor),
         c.scheduledFor,
         Max(0, c.scheduledFor - i.now),
         c.target.campaignId,
         c.target.groupId,
         c.target.logicalGroupFingerprint,
         c.instanceName,
         i.schedule.scheduleRevision,
         c.target.assignmentRevision)
  }

  function SlotsOf(i: Input, cs: seq<Candidate>): seq<Slot> {
    seq(|cs|, k requires 0 <= k < |cs| => SlotOf(i, cs[k]))
  }

  function HorizonEnd(i: Input, dayEnd: int): int {
    Min(dayEnd, i.now + i.horizonMinutes * MINUTE)
  }

  /** The run of the round robin behind a plan. */
  datatype Planning = Planning(states: seq<TargetState>, round: Round, passes: nat, turns: nat)

  /** `plan` came out of the run `p`, for the local day [dayStart, dayEnd). */
  ghost predicate IsPlanOf(i: Input, dayStart: int, dayEnd: int, plan: Plan, p: Planning) {
    var targets := Sorting.Sort(KeyOrder(i), i.targets);
    && StatesOf(i, dayStart, dayEnd, targets) == Some(p.states)
    && IsRun(i, HorizonEnd(i, dayEnd), p)
    && plan.slots == SlotsOf(i, Sorting.Sort(SlotOrder(i), p.round.candidates))
    && plan.skippedTargets == Unplannable(i, targets) + p.round.skipped
  }

  ghost predicate IsRun(i: Input, horizon: int, p: Planning) {
    && Consistent(p.states, i.now, horizon, i.schedule.staggerMinutes, i.GlobalRemaining(), p.round)
    && (|p.round.candidates| < i.GlobalRemaining() ==> forall s | 0 <= s < |p.states| :: p.round.remaining[s] == 0)
    && Greedy(p.states, i.now, horizon, i.schedule.staggerMinutes, p.round.placed)
    && p.turns <= |p.states| && TookTurns(p.round, p.passes, p.turns)
  }

  /** Sorting and the final slice lose nothing. `None` stands for the error raised when
      some window never opens. */
  method PlanCommercialTargetSlots(i: Input) returns (plan: Option<Plan>, ghost p: Planning)
    requires HasLocalDay(i.schedule.clock, i.now)
    ensures plan.Some? ==>
              forall lo, hi | IsLocalDay(i.schedule.clock, i.now, lo, hi) :: IsPlanOf(i, lo, hi, plan.value, p)
    ensures plan.None? ==>
              || !OpensWithin72Hours(i.ScheduleWindow())
              || exists t :: t in i.targets && !OpensWithin72Hours(t.TargetWindow(i.schedule))
  {
    p := Planning([], Round([], [], 0, [], [], []), 0, 0);
    var dayStart, dayEnd := GetLocalDayRange(i.schedule.clock, i.now);
    var orderedTargets := Sorting.Sort(KeyOrder(i), i.targets);
    Sorting.SameElements(orderedTargets, i.targets);
    var states, skipped := BuildStates(i, dayStart, dayEnd, orderedTargets);
    if states.None? {
      StatesNeedOpenings(i, dayStart, dayEnd, orderedTargets);
      return None, p;
    }
    StatesComeFromTargets(i, dayStart, dayEnd, orderedTargets);
    var globalRemaining := i.GlobalRemaining();
    var r, passes, turns := RoundRobin(states.value, i.now, HorizonEnd(i, dayEnd), i.schedule.staggerMinutes, globalRemaining);
    p := Planning(states.value, r, passes, turns);
    assert IsRun(i, HorizonEnd(i, dayEnd), p);
    var sorted := Sorting.Sort(SlotOrder(i), r.candidates);
    Sorting.SameElements(sorted, r.candidates);
    var kept := sorted[..Min(|sorted|, globalRemaining)];
    assert kept == sorted;
    plan := Some(Plan(SlotsOf(i, kept), skipped + r.skipped));
    forall lo, hi | IsLocalDay(i.schedule.clock, i.now, lo, hi)
      ensures IsPlanOf(i, lo, hi, plan.value, p)
    {
      LocalDayUnique(i.schedule.clock, i.now, i.now, dayStart, dayEnd, lo, hi);
    }
  }
}
