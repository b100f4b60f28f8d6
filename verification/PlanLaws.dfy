/** What every plan of a day satisfies
    (apps/api/src/commercial-automation-scheduler-planner.ts:193-472). */
module PlanLaws {
  import opened Wrappers
  import opened LocalClock
  import opened Arithmetic
  import opened SlotSearch
  import opened SlotPlanner
  import opened DayPlan
  import Sorting

  // ---------------------------------------------------------------------------
  // From placements to slots
  // ---------------------------------------------------------------------------

  ghost predicate IsEmitted(states: seq<TargetState>, placed: seq<Placement>, c: Candidate, j: nat)
    requires ValidPlacements(states, placed)
  {
    && j < |placed|
    && var st := states[placed[j].state];
       c == CandidateOf(st, placed[j].at) && st.target.InstanceMaySend(c.instanceName)
  }

  lemma {:induction false} EmittedAreAllowed(states: seq<TargetState>, placed: seq<Placement>)
    requires ValidPlacements(states, placed)
    ensures forall c | c in Emitted(states, placed) :: exists j: nat :: IsEmitted(states, placed, c, j)
  {
    if placed != [] {
      var n := |placed| - 1;
      EmittedAreAllowed(states, placed[..n]);
      forall c | c in Emitted(states, placed) ensures exists j: nat :: IsEmitted(states, placed, c, j) {
        if c in Emitted(states, placed[..n]) {
          var j: nat :| IsEmitted(states, placed[..n], c, j);
          assert IsEmitted(states, placed, c, j);
        } else {
          assert IsEmitted(states, placed, c, n);
        }
      }
    }
  }

  lemma {:induction false} PlacementInTimes(placed: seq<Placement>, j: nat)
    requires j < |placed|
    ensures placed[j].at in TimesOf(placed, placed[j].state)
  {
    var n := |placed| - 1;
    if j < n {
      PlacementInTimes(placed[..n], j);
    }
  }

  lemma SlotComesFromCandidate(i: Input, cs: seq<Candidate>, x: Slot) returns (c: Candidate)
    requires x in SlotsOf(i, Sorting.Sort(SlotOrder(i), cs))
    ensures c in cs && x == SlotOf(i, c)
  {
    var sorted := Sorting.Sort(SlotOrder(i), cs);
    var k :| 0 <= k < |sorted| && SlotsOf(i, sorted)[k] == x;
    c := sorted[k];
    Sorting.SameElements(sorted, cs);
  }

  /** A slot of the plan comes from one placement of the run. */
  lemma SlotComesFromPlacement(i: Input, dayStart: int, dayEnd: int, plan: Plan, p: Planning, x: Slot)
    returns (c: Candidate, j: nat)
    requires IsPlanOf(i, dayStart, dayEnd, plan, p) && x in plan.slots
    ensures x == SlotOf(i, c)
    ensures IsEmitted(p.states, p.round.placed, c, j)
    ensures p.states[p.round.placed[j].state] in p.states
    ensures c.scheduledFor in TimesOf(p.round.placed, p.round.placed[j].state)
  {
    c := SlotComesFromCandidate(i, p.round.candidates, x);
    EmittedAreAllowed(p.states, p.round.placed);
    j :| IsEmitted(p.states, p.round.placed, c, j);
    PlacementInTimes(p.round.placed, j);
  }

  lemma StatesAreOfTargets(i: Input, dayStart: int, dayEnd: int, plan: Plan, p: Planning)
    requires IsPlanOf(i, dayStart, dayEnd, plan, p)
    ensures forall st | st in p.states :: IsStateOf(i, dayStart, dayEnd, st) && st.Valid()
  {
    var targets := Sorting.Sort(KeyOrder(i), i.targets);
    Sorting.SameElements(targets, i.targets);
    StatesComeFromTargets(i, dayStart, dayEnd, targets);
  }

  // ---------------------------------------------------------------------------
  // Soundness
  // ---------------------------------------------------------------------------

  /** The target can be sent to, and something is left of its quotas. */
  ghost predicate HasRoom(i: Input, t: Target) {
    && t.active && t.available && t.instanceActive
    && t.groupSentToday < t.dailyLimit && t.groupSentToday < i.schedule.dailyGroupLimit
    && (i.maxSlotsPerTarget.Some? ==> 0 < i.maxSlotsPerTarget.value)
    && (t.orderedInstanceNames != [] || (t.instanceName.Some? && t.instanceName.value != ""))
  }

  /** Inside the hours of the schedule and those of the target, which are the schedule's
      where the target has none of its own. */
  ghost predicate IsInHours(i: Input, t: Target, at: int) {
    && Window(i.schedule.clock, i.schedule.allowedStart, i.schedule.allowedEnd).Inside(at)
    && Window(if t.clock.Some? then t.clock.value else i.schedule.clock,
              if t.allowedStart.Some? then t.allowedStart.value else i.schedule.allowedStart,
              if t.allowedEnd.Some? then t.allowedEnd.value else i.schedule.allowedEnd).Inside(at)
  }

  /** The interval of the target is its cadence, of 15 minutes if it has none, or the
      schedule's minimum, whichever is more; and never less than a minute. */
  ghost predicate IsInterval(i: Input, t: Target, minutes: int) {
    var cadence := if t.cadenceMinutes.Some? then t.cadenceMinutes.value else 15;
    && 1 <= minutes && cadence <= minutes && i.schedule.minimumIntervalMinutes <= minutes
    && minutes in {1, cadence, i.schedule.minimumIntervalMinutes}
  }

  /** Not before now, nor before an interval has passed since its last message, nor before it
      is eligible; and not after the day or the time looked ahead. */
  ghost predicate IsInTime(i: Input, dayEnd: int, t: Target, minutes: int, at: int) {
    && i.now <= at <= dayEnd && at <= i.now + i.horizonMinutes * MINUTE
    && (t.lastSentAt.Some? ==> t.lastSentAt.value + minutes * MINUTE <= at)
    && (t.nextEligibleAt.Some? ==> t.nextEligibleAt.value <= at)
  }

  /** What the planner computes of the input is what the input says. */
  lemma InputIsTakenAsSaid(i: Input, dayEnd: int, t: Target, at: int)
    ensures i.Plannable(t) <==> HasRoom(i, t)
    ensures i.ScheduleWindow().Inside(at) && t.TargetWindow(i.schedule).Inside(at) <==> IsInHours(i, t, at)
    ensures IsInterval(i, t, t.IntervalMinutes(i.schedule))
    ensures i.Base(t) <= at <= HorizonEnd(i, dayEnd) <==> IsInTime(i, dayEnd, t, t.IntervalMinutes(i.schedule), at)
  {
  }

  /** Likewise the quotas: `n` more messages fit in them, or do not. */
  lemma QuotasAreTakenAsSaid(i: Input, t: Target, n: int)
    requires 0 < n
    ensures n <= i.Quota(t)
       <==> && t.groupSentToday + n <= t.dailyLimit && t.groupSentToday + n <= i.schedule.dailyGroupLimit
            && (i.maxSlotsPerTarget.Some? ==> n <= i.maxSlotsPerTarget.value)
    ensures n <= i.GlobalRemaining() <==> i.globalSentToday + n <= i.schedule.dailyGlobalLimit
  {
  }

  /** `x` is a slot the target may be given. */
  ghost predicate IsSoundFor(i: Input, dayStart: int, dayEnd: int, x: Slot, t: Target) {
    && t in i.targets && HasRoom(i, t)
    && AnchorOf(i, t, dayStart, dayEnd).Some?
    && var grid := StateOf(i, t, AnchorOf(i, t, dayStart, dayEnd).value).grid;
       var at := x.scheduledFor;
       // a point of the grid, inside both windows
       && at == grid.Point(grid.SlotIndex(at)) && IsInterval(i, t, grid.intervalMinutes)
       && IsInHours(i, t, at)
       // not too early and not too late
       && IsInTime(i, dayEnd, t, grid.intervalMinutes, at)
       // for the instance whose turn it is, which may send
       && x.instanceName == t.Names()[grid.SlotIndex(at) % |t.Names()|]
       && x.instanceName in (if t.orderedInstanceNames != [] then t.orderedInstanceNames else [t.instanceName.value])
       && (if t.instanceActiveByName.Some?
           then x.instanceName in t.instanceActiveByName.value && t.instanceActiveByName.value[x.instanceName]
           else t.instanceName == Some(x.instanceName))
       && x.slotKey == SlotKey(i.schedule.scheduleRevision, t.Key(), x.instanceName, at)
       && i.now + x.delayMs == at && x.scheduleRevision == i.schedule.scheduleRevision
       && x.campaignId == t.campaignId && x.groupId == t.groupId
       && x.logicalGroupFingerprint == t.logicalGroupFingerprint && x.assignmentRevision == t.assignmentRevision
  }

  /** The grid of a target starts at its first minute of the local day that is in hours, or
      with the day if it has none. */
  lemma GridStartsAtFirstOpening(i: Input, dayStart: int, dayEnd: int, t: Target)
    requires AnchorOf(i, t, dayStart, dayEnd).Some? && dayEnd < dayStart + SEARCH_ATTEMPTS * MINUTE
    ensures var anchor := AnchorOf(i, t, dayStart, dayEnd).value;
      || (&& dayStart <= anchor <= dayEnd && anchor % MINUTE == 0 && IsInHours(i, t, anchor)
          && forall u | dayStart <= u < anchor && u % MINUTE == 0 :: !IsInHours(i, t, u))
      || (anchor == dayStart && forall u | dayStart <= u <= dayEnd && u % MINUTE == 0 :: !IsInHours(i, t, u))
  {
    NextValidSlotExact(i.ScheduleWindow(), t.TargetWindow(i.schedule), dayStart, dayEnd);
    forall u ensures IsInHours(i, t, u) <==> InsideBoth(i.ScheduleWindow(), t.TargetWindow(i.schedule), u) {
      InputIsTakenAsSaid(i, dayEnd, t, u);
    }
  }

  lemma PlanIsSound(i: Input, dayStart: int, dayEnd: int, plan: Plan, p: Planning, x: Slot)
    requires IsPlanOf(i, dayStart, dayEnd, plan, p) && x in plan.slots
    ensures exists t :: IsSoundFor(i, dayStart, dayEnd, x, t)
  {
    var c, j := SlotComesFromPlacement(i, dayStart, dayEnd, plan, p, x);
    StatesAreOfTargets(i, dayStart, dayEnd, plan, p);
    var s := p.round.placed[j].state;
    var st := p.states[s];
    assert SlotsAreSound(st, HorizonEnd(i, dayEnd), TimesOf(p.round.placed, s));
    InputIsTakenAsSaid(i, dayEnd, st.target, x.scheduledFor);
    assert IsSoundFor(i, dayStart, dayEnd, x, st.target);
  }

  lemma {:induction false} TimesMoveOn(st: TargetState, horizon: int, times: seq<int>, j: nat, k: nat)
    requires SlotsAreSound(st, horizon, times) && j < k < |times|
    ensures times[j] + st.grid.Step() <= times[k]
    decreases k
  {
    if j < k - 1 {
      TimesMoveOn(st, horizon, times, j, k - 1);
    }
  }

  /** Two slots of one target are a positive number of its intervals apart. */
  lemma SameTargetApart(st: TargetState, horizon: int, times: seq<int>, j: nat, k: nat)
    requires SlotsAreSound(st, horizon, times) && j < k < |times|
    ensures exists m: nat :: m > 0 && times[k] - times[j] == m * st.grid.Step()
  {
    var g := st.grid;
    TimesMoveOn(st, horizon, times, j, k);
    var a, b := g.SlotIndex(times[j]), g.SlotIndex(times[k]);
    if b <= a {
      PointIsMonotone(g, b, a);
    } else {
      PointIsMonotone(g, a, b);
      assert (b - a) > 0 && times[k] - times[j] == (b - a) * g.Step();
    }
  }

  /** Every target of every plan keeps that distance. */
  lemma PlanKeepsIntervals(i: Input, dayStart: int, dayEnd: int, plan: Plan, p: Planning, s: nat, j: nat, k: nat)
    requires IsPlanOf(i, dayStart, dayEnd, plan, p)
    requires s < |p.states| && j < k < |TimesOf(p.round.placed, s)|
    ensures var times := TimesOf(p.round.placed, s);
            forall minutes | IsInterval(i, p.states[s].target, minutes) ::
              exists m: nat :: m > 0 && times[k] - times[j] == m * (minutes * MINUTE)
  {
    StatesAreOfTargets(i, dayStart, dayEnd, plan, p);
    assert p.states[s] in p.states;
    SameTargetApart(p.states[s], HorizonEnd(i, dayEnd), TimesOf(p.round.placed, s), j, k);
    InputIsTakenAsSaid(i, dayEnd, p.states[s].target, 0);
    assert forall minutes | IsInterval(i, p.states[s].target, minutes) :: minutes == p.states[s].grid.intervalMinutes;
  }

  // ---------------------------------------------------------------------------
  // Stagger
  // ---------------------------------------------------------------------------

  ghost predicate CandidatesSpread(cs: seq<Candidate>, gap: int) {
    forall j, k | 0 <= j < k < |cs| :: cs[j].scheduledFor + gap <= cs[k].scheduledFor
  }

  lemma {:induction false} EmittedAreSpread(states: seq<TargetState>, placed: seq<Placement>, gap: int)
    requires ValidPlacements(states, placed) && Spread(placed, gap)
    ensures CandidatesSpread(Emitted(states, placed), gap)
  {
    if placed != [] {
      var n := |placed| - 1;
      var before := Emitted(states, placed[..n]);
      EmittedAreSpread(states, placed[..n], gap);
      EmittedAreAllowed(states, placed[..n]);
      forall c | c in before ensures c.scheduledFor + gap <= placed[n].at {
        var j: nat :| IsEmitted(states, placed[..n], c, j);
      }
    }
  }

  /** With a stagger, slots come out of the round robin in order already. */
  lemma SpreadIsSorted(i: Input, cs: seq<Candidate>, gap: int)
    requires CandidatesSpread(cs, gap) && 0 < gap
    ensures Sorting.Sort(SlotOrder(i), cs) == cs
  {
    var le := SlotOrder(i);
    Sorting.SortSorts(le, cs);
    assert Sorting.TieFree(le, cs) by {
      forall j, k | 0 <= j < |cs| && 0 <= k < |cs| && le(cs[j], cs[k]) && le(cs[k], cs[j])
        ensures cs[j] == cs[k]
      {
      }
    }
    Sorting.SortedOrderIsUnique(le, cs, Sorting.Sort(le, cs));
  }

  /** With a stagger, any two slots of a plan are at least that far apart. */
  lemma PlanIsSpread(i: Input, dayStart: int, dayEnd: int, plan: Plan, p: Planning, j: nat, k: nat)
    requires IsPlanOf(i, dayStart, dayEnd, plan, p) && i.schedule.staggerMinutes > 0
    requires j < k < |plan.slots|
    ensures plan.slots[j].scheduledFor + i.schedule.staggerMinutes * MINUTE <= plan.slots[k].scheduledFor
  {
    var gap := i.schedule.staggerMinutes * MINUTE;
    EmittedAreSpread(p.states, p.round.placed, gap);
    SpreadIsSorted(i, p.round.candidates, gap);
  }

  // ---------------------------------------------------------------------------
  // Completeness and turns
  // ---------------------------------------------------------------------------

  /** The target was given as many slots as are left of its quotas. */
  ghost predicate IsFull(i: Input, t: Target, given: nat) {
    && t.groupSentToday + given <= t.dailyLimit && t.groupSentToday + given <= i.schedule.dailyGroupLimit
    && (i.maxSlotsPerTarget.Some? ==> given <= i.maxSlotsPerTarget.value)
    && (|| t.groupSentToday + given == t.dailyLimit || t.groupSentToday + given == i.schedule.dailyGroupLimit
        || i.maxSlotsPerTarget == Some(given))
  }

  /** No point of the target's grid is left: each that is in hours and in time comes before
      an interval has passed since its last slot, or before the stagger after the last slot
      of all. */
  ghost predicate NoPointIsLeft(i: Input, dayEnd: int, st: TargetState, times: seq<int>, placed: seq<Placement>) {
    var t, minutes, stagger := st.target, st.grid.intervalMinutes, i.schedule.staggerMinutes;
    IsInterval(i, t, minutes)
    && forall k: nat ::
         var at := st.grid.Point(k);
         IsInHours(i, t, at) && IsInTime(i, dayEnd, t, minutes, at) ==>
           || (times != [] && at < times[|times| - 1] + minutes * MINUTE)
           || (stagger > 0 && placed != [] && at < placed[|placed| - 1].at + stagger * MINUTE)
  }

  lemma NothingUsableIsLeft(i: Input, dayEnd: int, st: TargetState, times: seq<int>, placed: seq<Placement>, cursor: int)
    requires st.grid.schedule == i.ScheduleWindow() && st.grid.target == st.target.TargetWindow(i.schedule)
    requires st.grid.intervalMinutes == st.target.IntervalMinutes(i.schedule) && st.base == i.Base(st.target)
    requires cursor == CursorAfter(i.now, i.schedule.staggerMinutes, placed)
    requires NoneLeft(st.grid, SearchFrom(NextBase(st, times), cursor, i.schedule.staggerMinutes), HorizonEnd(i, dayEnd))
    ensures NoPointIsLeft(i, dayEnd, st, times, placed)
  {
    var t, minutes, stagger := st.target, st.grid.intervalMinutes, i.schedule.staggerMinutes;
    InputIsTakenAsSaid(i, dayEnd, t, 0);
    forall k: nat | IsInHours(i, t, st.grid.Point(k)) && IsInTime(i, dayEnd, t, minutes, st.grid.Point(k))
      ensures || (times != [] && st.grid.Point(k) < times[|times| - 1] + minutes * MINUTE)
              || (stagger > 0 && placed != [] && st.grid.Point(k) < placed[|placed| - 1].at + stagger * MINUTE)
    {
      InputIsTakenAsSaid(i, dayEnd, t, st.grid.Point(k));
      assert st.grid.Usable(st.grid.Point(k));
    }
  }

  /** A plan that stops short of the global limit has given every target all that is left of
      its quotas, or no point is left for it: the attempt cap never decides this when the
      local day, or the time looked ahead, is shorter than 48 hours. */
  lemma PlanIsComplete(i: Input, dayStart: int, dayEnd: int, plan: Plan, p: Planning, s: nat)
    requires IsPlanOf(i, dayStart, dayEnd, plan, p)
    requires i.globalSentToday + |plan.slots| < i.schedule.dailyGlobalLimit && s < |p.states|
    requires dayEnd < i.now + SEARCH_ATTEMPTS * MINUTE || i.horizonMinutes < SEARCH_ATTEMPTS
    ensures var st, times := p.states[s], TimesOf(p.round.placed, s);
            || IsFull(i, st.target, |times|)
            || NoPointIsLeft(i, dayEnd, st, times, p.round.placed)
  {
    var st, times := p.states[s], TimesOf(p.round.placed, s);
    QuotasAreTakenAsSaid(i, st.target, |plan.slots| + 1);
    QuotaOrNothing(i, dayStart, dayEnd, plan, p, s);
    StatesAreOfTargets(i, dayStart, dayEnd, plan, p);
    assert st in p.states;
    if |times| != i.Quota(st.target) {
      NothingUsableIsLeft(i, dayEnd, st, times, p.round.placed, p.round.cursor);
    }
  }

  lemma QuotaOrNothing(i: Input, dayStart: int, dayEnd: int, plan: Plan, p: Planning, s: nat)
    requires IsPlanOf(i, dayStart, dayEnd, plan, p)
    requires |plan.slots| < i.GlobalRemaining() && s < |p.states|
    requires HorizonEnd(i, dayEnd) < i.now + SEARCH_ATTEMPTS * MINUTE
    ensures var st, times := p.states[s], TimesOf(p.round.placed, s);
            || |times| == i.Quota(st.target)
            || NoneLeft(st.grid, SearchFrom(NextBase(st, times), p.round.cursor, i.schedule.staggerMinutes),
                        HorizonEnd(i, dayEnd))
  {
    var sorted := Sorting.Sort(SlotOrder(i), p.round.candidates);
    Sorting.SameElements(sorted, p.round.candidates);
    StatesAreOfTargets(i, dayStart, dayEnd, plan, p);
    assert p.states[s] in p.states;
    assert BookOf(p.states[s], TimesOf(p.round.placed, s), p.round.remaining[s], p.round.nextBase[s], p.round.cursor,
                  HorizonEnd(i, dayEnd), i.schedule.staggerMinutes);
  }

  /** Slots come in the order of their instants. */
  lemma PlanIsSorted(i: Input, dayStart: int, dayEnd: int, plan: Plan, p: Planning, j: nat, k: nat)
    requires IsPlanOf(i, dayStart, dayEnd, plan, p) && j < k < |plan.slots|
    ensures plan.slots[j].scheduledFor <= plan.slots[k].scheduledFor
    ensures plan.slots[j].scheduledFor == plan.slots[k].scheduledFor ==>
              i.collation(plan.slots[j].slotKey.target) <= i.collation(plan.slots[k].slotKey.target)
  {
    Sorting.SortSorts(SlotOrder(i), p.round.candidates);
  }

  /** The points of a target's grid that may be posted at, from its base to the last of `times`. */
  ghost predicate TakesEvery(st: TargetState, times: seq<int>) {
    forall at :: at in times
      <==> st.grid.IsSlot(at) && st.base <= at && times != [] && at <= times[|times| - 1]
  }

  /** Between a slot and the first one after its interval there is no other. */
  lemma NothingBetween(g: Grid, last: int, next: int, horizon: int, at: int)
    requires g.IsSlot(last) && g.IsSlot(at) && NextGridSlot(g, last + g.Step(), horizon) == Some(next)
    ensures last < at ==> next <= at
  {
    NextGridSlotExact(g, last + g.Step(), horizon);
    var j, k := g.SlotIndex(last), g.SlotIndex(at);
    if last < at {
      if k <= j {
        PointIsMonotone(g, k, j);
      } else {
        PointIsMonotone(g, j, k);
        assert !(last + g.Step() <= g.Point(k) < next);
      }
    }
  }

  lemma {:induction false} FirstSlotsTakeEvery(st: TargetState, horizon: int, n: nat)
    ensures TakesEvery(st, FirstSlots(st, horizon, n))
  {
    if n > 0 {
      FirstSlotsTakeEvery(st, horizon, n - 1);
      var before := FirstSlots(st, horizon, n - 1);
      var next := NextGridSlot(st.grid, NextBase(st, before), horizon);
      if next.Some? {
        OneMoreTakesEvery(st, horizon, before, next.value);
      }
    }
  }

  lemma OneMoreTakesEvery(st: TargetState, horizon: int, before: seq<int>, next: int)
    requires TakesEvery(st, before) && NextGridSlot(st.grid, NextBase(st, before), horizon) == Some(next)
    ensures TakesEvery(st, before + [next])
  {
    NextGridSlotExact(st.grid, NextBase(st, before), horizon);
    assert before != [] ==> before[|before| - 1] in before;
    forall at ensures at in before + [next] <==> st.grid.IsSlot(at) && st.base <= at <= next {
      if st.grid.IsSlot(at) {
        if before == [] {
          assert !(st.base <= st.grid.Point(st.grid.SlotIndex(at)) < next);
        } else {
          NothingBetween(st.grid, before[|before| - 1], next, horizon, at);
        }
      }
    }
  }

  /** Without a stagger every target gets its own first slots, whatever the other targets
      are: every point of its grid that may be posted at, from its base to the last it is
      given. It is given as many as its quota, or as there are, when the global quota is not
      used up. */
  lemma UnstaggeredPlanTakesFirstSlots(i: Input, dayStart: int, dayEnd: int, plan: Plan, p: Planning, s: nat)
    requires IsPlanOf(i, dayStart, dayEnd, plan, p)
    requires i.schedule.staggerMinutes <= 0 && s < |p.states|
    ensures var st, times, horizon := p.states[s], TimesOf(p.round.placed, s), HorizonEnd(i, dayEnd);
            && times == FirstSlots(st, horizon, |times|)
            && TakesEvery(st, times)
            && (|plan.slots| < i.GlobalRemaining() ==>
                  |times| == i.Quota(st.target) || NextGridSlot(st.grid, NextBase(st, times), horizon).None?)
  {
    var sorted := Sorting.Sort(SlotOrder(i), p.round.candidates);
    Sorting.SameElements(sorted, p.round.candidates);
    StatesAreOfTargets(i, dayStart, dayEnd, plan, p);
    assert p.states[s] in p.states;
    assert BookOf(p.states[s], TimesOf(p.round.placed, s), p.round.remaining[s], p.round.nextBase[s], p.round.cursor,
                  HorizonEnd(i, dayEnd), i.schedule.staggerMinutes);
    FirstSlotsTakeEvery(p.states[s], HorizonEnd(i, dayEnd), |TimesOf(p.round.placed, s)|);
  }

  lemma {:induction false} PlacedIsEmitted(states: seq<TargetState>, placed: seq<Placement>, s: nat, at: int)
    requires ValidPlacements(states, placed) && s < |states| && at in TimesOf(placed, s)
    requires states[s].target.InstanceMaySend(states[s].InstanceAt(at))
    ensures CandidateOf(states[s], at) in Emitted(states, placed)
  {
    var n := |placed| - 1;
    if at in TimesOf(placed[..n], s) {
      PlacedIsEmitted(states, placed[..n], s, at);
    }
  }

  /** A slot considered for an instance that may send is a slot of the plan. */
  lemma ConsideredIsPlanned(i: Input, dayStart: int, dayEnd: int, plan: Plan, p: Planning, s: nat, at: int)
    returns (k: nat)
    requires IsPlanOf(i, dayStart, dayEnd, plan, p) && s < |p.states| && at in TimesOf(p.round.placed, s)
    requires p.states[s].target.Names() != []
    requires p.states[s].target.InstanceMaySend(p.states[s].InstanceAt(at))
    ensures k < |plan.slots| && plan.slots[k] == SlotOf(i, CandidateOf(p.states[s], at))
  {
    PlacedIsEmitted(p.states, p.round.placed, s, at);
    var c := CandidateOf(p.states[s], at);
    var sorted := Sorting.Sort(SlotOrder(i), p.round.candidates);
    Sorting.SameElements(sorted, p.round.candidates);
    k :| 0 <= k < |sorted| && sorted[k] == c;
  }

  lemma {:induction false} GreedyAt(states: seq<TargetState>, now: int, horizon: int, staggerMinutes: int,
                                    placed: seq<Placement>, j: nat)
    requires Greedy(states, now, horizon, staggerMinutes, placed) && j < |placed|
    ensures placed[j].state < |states|
    ensures var s := placed[j].state;
            NextGridSlot(states[s].grid,
                         SearchFrom(NextBase(states[s], TimesOf(placed[..j], s)),
                                    CursorAfter(now, staggerMinutes, placed[..j]), staggerMinutes),
                         horizon) == Some(placed[j].at)
  {
    var n := |placed| - 1;
    if j < n {
      GreedyAt(states, now, horizon, staggerMinutes, placed[..n], j);
      assert placed[..n][..j] == placed[..j];
    }
  }

  /** No slot could have come earlier: each one considered was the first usable point of
      its target from where the slots before it, and the stagger, let it start. */
  lemma PlacementsAreEarliest(i: Input, dayStart: int, dayEnd: int, plan: Plan, p: Planning, j: nat)
    requires IsPlanOf(i, dayStart, dayEnd, plan, p) && j < |p.round.placed|
    ensures var s, before := p.round.placed[j].state, p.round.placed[..j];
            var from := SearchFrom(NextBase(p.states[s], TimesOf(before, s)),
                                   CursorAfter(i.now, i.schedule.staggerMinutes, before), i.schedule.staggerMinutes);
            IsFirstSlot(p.states[s].grid, from, HorizonEnd(i, dayEnd), p.round.placed[j].at)
  {
    GreedyAt(p.states, i.now, HorizonEnd(i, dayEnd), i.schedule.staggerMinutes, p.round.placed, j);
    var s, before := p.round.placed[j].state, p.round.placed[..j];
    NextGridSlotExact(p.states[s].grid,
                      SearchFrom(NextBase(p.states[s], TimesOf(before, s)),
                                 CursorAfter(i.now, i.schedule.staggerMinutes, before), i.schedule.staggerMinutes),
                      HorizonEnd(i, dayEnd));
  }

  /** No target gets ahead: one with quota left has had at most one slot fewer than any
      other, and none fewer than a target after it. */
  lemma TargetsTakeTurns(i: Input, dayStart: int, dayEnd: int, plan: Plan, p: Planning, s: nat, q: nat)
    requires IsPlanOf(i, dayStart, dayEnd, plan, p)
    requires s < |p.states| && q < |p.states| && p.round.remaining[q] != 0
    ensures |TimesOf(p.round.placed, s)| <= |TimesOf(p.round.placed, q)| + 1
    ensures q < s ==> |TimesOf(p.round.placed, s)| <= |TimesOf(p.round.placed, q)|
  {
  }

  // ---------------------------------------------------------------------------
  // Planning again
  // ---------------------------------------------------------------------------

  /** Targets with the same key have kept the settings their grid depends on. */
  ghost predicate SettingsUnchanged(i: Input, i': Input) {
    && i.schedule == i'.schedule
    && forall t, t' | t in i.targets && t' in i'.targets && t.Key() == t'.Key() ::
         t.TargetWindow(i.schedule) == t'.TargetWindow(i'.schedule)
         && t.IntervalMinutes(i.schedule) == t'.IntervalMinutes(i'.schedule)
  }

  /** Two plans made in the same local day that place a target at the same instant
      choose the same instance and the same job, whatever was sent in between. */
  lemma SameInstantSameJob(i: Input, i': Input, dayStart: int, dayEnd: int, plan: Plan, plan': Plan,
                           p: Planning, p': Planning, x: Slot, x': Slot)
    requires IsPlanOf(i, dayStart, dayEnd, plan, p) && x in plan.slots
    requires IsPlanOf(i', dayStart, dayEnd, plan', p') && x' in plan'.slots
    requires SettingsUnchanged(i, i')
    requires x.slotKey.target == x'.slotKey.target && x.scheduledFor == x'.scheduledFor
    ensures x.instanceName == x'.instanceName && x.slotKey == x'.slotKey
  {
    PlanIsSound(i, dayStart, dayEnd, plan, p, x);
    PlanIsSound(i', dayStart, dayEnd, plan', p', x');
    var t :| IsSoundFor(i, dayStart, dayEnd, x, t);
    var t' :| IsSoundFor(i', dayStart, dayEnd, x', t');
    assert t.Names() == t'.Names();
  }

  /** A run's states after planning again at a later instant: only the base moves. */
  lemma {:induction false} StatesWhenLater(i: Input, i': Input, dayStart: int, dayEnd: int, targets: seq<Target>)
    requires i' == i.(now := i'.now)
    ensures StatesOf(i, dayStart, dayEnd, targets).Some? <==> StatesOf(i', dayStart, dayEnd, targets).Some?
    ensures StatesOf(i, dayStart, dayEnd, targets).Some? ==>
              var states, states' := StatesOf(i, dayStart, dayEnd, targets).value,
                                     StatesOf(i', dayStart, dayEnd, targets).value;
              && |states| == |states'|
              && forall s | 0 <= s < |states| :: states'[s] == states[s].(base := i'.Base(states[s].target))
                                              && states[s].base == i.Base(states[s].target)
  {
    if targets != [] {
      StatesWhenLater(i, i', dayStart, dayEnd, targets[..|targets| - 1]);
    }
  }

  lemma FirstSlotFromLater(g: Grid, from: int, from': int, horizon: int, horizon': int)
    requires NextGridSlot(g, from, horizon).Some?
    requires from <= from' <= NextGridSlot(g, from, horizon).value && horizon <= horizon'
    requires horizon' < from' + SEARCH_ATTEMPTS * MINUTE
    ensures NextGridSlot(g, from', horizon') == NextGridSlot(g, from, horizon)
  {
    var at := NextGridSlot(g, from, horizon).value;
    NextGridSlotExact(g, from, horizon);
    NextGridSlotExact(g, from', horizon');
    assert IsFirstSlot(g, from', horizon', at);
    assert g.Usable(g.Point(g.SlotIndex(at)));
    if NextGridSlot(g, from', horizon').Some? {
      FirstSlotUnique(g, from', horizon', at, NextGridSlot(g, from', horizon').value);
    }
  }

  lemma {:induction false} FirstOfFirstSlots(st: TargetState, horizon: int, n: nat)
    requires FirstSlots(st, horizon, n) != []
    ensures NextGridSlot(st.grid, st.base, horizon) == Some(FirstSlots(st, horizon, n)[0])
  {
    if n > 1 && FirstSlots(st, horizon, n - 1) != [] {
      FirstOfFirstSlots(st, horizon, n - 1);
    }
  }

  /** Without a stagger, what a target gets first is its first slot, if it gets any; and
      with global quota to spare it gets it. */
  lemma FirstTime(i: Input, dayStart: int, dayEnd: int, plan: Plan, p: Planning, s: nat)
    requires IsPlanOf(i, dayStart, dayEnd, plan, p)
    requires i.schedule.staggerMinutes <= 0 && s < |p.states|
    ensures var st, times := p.states[s], TimesOf(p.round.placed, s);
            var first := NextGridSlot(st.grid, st.base, HorizonEnd(i, dayEnd));
            && (times != [] ==> first == Some(times[0]))
            && (first.Some? && |plan.slots| < i.GlobalRemaining() ==> times != [])
  {
    UnstaggeredPlanTakesFirstSlots(i, dayStart, dayEnd, plan, p, s);
    StatesAreOfTargets(i, dayStart, dayEnd, plan, p);
    assert p.states[s] in p.states;
    if TimesOf(p.round.placed, s) != [] {
      FirstOfFirstSlots(p.states[s], HorizonEnd(i, dayEnd), |TimesOf(p.round.placed, s)|);
    }
  }

  /** A later plan has the same targets in the same order, with later bases. */
  lemma StatesOfLaterPlan(i: Input, i': Input, dayStart: int, dayEnd: int, plan: Plan, plan': Plan,
                          p: Planning, p': Planning)
    requires IsPlanOf(i, dayStart, dayEnd, plan, p) && IsPlanOf(i', dayStart, dayEnd, plan', p')
    requires i' == i.(now := i'.now)
    ensures |p.states| == |p'.states|
    ensures forall s | 0 <= s < |p.states| :: p'.states[s] == p.states[s].(base := i'.Base(p.states[s].target))
                                           && p.states[s].base == i.Base(p.states[s].target)
  {
    assert KeyOrder(i) == KeyOrder(i');
    StatesWhenLater(i, i', dayStart, dayEnd, Sorting.Sort(KeyOrder(i), i.targets));
  }

  lemma FirstSlotWhenLater(i: Input, i': Input, dayEnd: int, st: TargetState, st': TargetState, at: int)
    requires i' == i.(now := i'.now) && HorizonEnd(i, dayEnd) < i.now + SEARCH_ATTEMPTS * MINUTE
    requires st.base == i.Base(st.target) && st' == st.(base := i'.Base(st.target))
    requires NextGridSlot(st.grid, st.base, HorizonEnd(i, dayEnd)) == Some(at)
    requires i.now <= i'.now <= at
    ensures NextGridSlot(st'.grid, st'.base, HorizonEnd(i', dayEnd)) == Some(at)
  {
    NextGridSlotExact(st.grid, st.base, HorizonEnd(i, dayEnd));
    FirstSlotFromLater(st.grid, st.base, st'.base, HorizonEnd(i, dayEnd), HorizonEnd(i', dayEnd));
  }

  /** Without a stagger and with global quota to spare, planning again at any later
      instant up to a target's first slot considers that same slot first. */
  lemma ReplanConsidersFirstSlot(i: Input, i': Input, dayStart: int, dayEnd: int, plan: Plan, plan': Plan,
                                 p: Planning, p': Planning, s: nat)
    requires IsPlanOf(i, dayStart, dayEnd, plan, p) && IsPlanOf(i', dayStart, dayEnd, plan', p')
    requires i' == i.(now := i'.now)
    requires i.schedule.staggerMinutes <= 0 && HorizonEnd(i, dayEnd) < i.now + SEARCH_ATTEMPTS * MINUTE
    requires |plan'.slots| < i'.GlobalRemaining()
    requires s < |p.states| && TimesOf(p.round.placed, s) != []
    requires i.now <= i'.now <= TimesOf(p.round.placed, s)[0]
    ensures s < |p'.states| && p'.states[s] == p.states[s].(base := p'.states[s].base)
    ensures TimesOf(p'.round.placed, s) != []
    ensures TimesOf(p'.round.placed, s)[0] == TimesOf(p.round.placed, s)[0]
  {
    StatesOfLaterPlan(i, i', dayStart, dayEnd, plan, plan', p, p');
    FirstTime(i, dayStart, dayEnd, plan, p, s);
    FirstTime(i', dayStart, dayEnd, plan', p', s);
    FirstSlotWhenLater(i, i', dayEnd, p.states[s], p'.states[s], TimesOf(p.round.placed, s)[0]);
  }

  lemma SamePlacementSameSlot(i: Input, i': Input, st: TargetState, st': TargetState, at: int)
    requires i' == i.(now := i'.now) && st' == st.(base := st'.base) && i'.now <= at
    requires st.target.Names() != []
    ensures st'.target == st.target && st'.InstanceAt(at) == st.InstanceAt(at)
    ensures SlotOf(i', CandidateOf(st', at)) == SlotOf(i, CandidateOf(st, at)).(delayMs := at - i'.now)
    ensures SlotOf(i, CandidateOf(st, at)).scheduledFor == at
  {
  }

  /** So when the instance may send, both plans hold that slot, with the same instance and
      job, and only the delay differs. */
  lemma ReplanKeepsFirstSlot(i: Input, i': Input, dayStart: int, dayEnd: int, plan: Plan, plan': Plan,
                             p: Planning, p': Planning, s: nat) returns (j: nat, k: nat)
    requires IsPlanOf(i, dayStart, dayEnd, plan, p) && IsPlanOf(i', dayStart, dayEnd, plan', p')
    requires i' == i.(now := i'.now)
    requires i.schedule.staggerMinutes <= 0 && HorizonEnd(i, dayEnd) < i.now + SEARCH_ATTEMPTS * MINUTE
    requires |plan'.slots| < i'.GlobalRemaining()
    requires s < |p.states| && p.states[s].target.Names() != [] && TimesOf(p.round.placed, s) != []
    requires i.now <= i'.now <= TimesOf(p.round.placed, s)[0]
    requires p.states[s].target.InstanceMaySend(p.states[s].InstanceAt(TimesOf(p.round.placed, s)[0]))
    ensures j < |plan.slots| && k < |plan'.slots|
    ensures plan.slots[j] == SlotOf(i, CandidateOf(p.states[s], TimesOf(p.round.placed, s)[0]))
    ensures plan'.slots[k] == plan.slots[j].(delayMs := plan.slots[j].scheduledFor - i'.now)
  {
    var times, times' := TimesOf(p.round.placed, s), TimesOf(p'.round.placed, s);
    var at := times[0];
    ReplanConsidersFirstSlot(i, i', dayStart, dayEnd, plan, plan', p, p', s);
    SamePlacementSameSlot(i, i', p.states[s], p'.states[s], at);
    assert at in times && times'[0] in times';
    j := ConsideredIsPlanned(i, dayStart, dayEnd, plan, p, s, at);
    k := ConsideredIsPlanned(i', dayStart, dayEnd, plan', p', s, at);
  }
}
