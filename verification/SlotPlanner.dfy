/** Planning the day's posting slots
    (apps/api/src/commercial-automation-scheduler-planner.ts:78-472). */
module SlotPlanner {
  import opened Wrappers
  import opened LocalClock
  import opened SlotSearch
  import Sorting

  const PLANNER_HORIZON_MINUTES: int := 24 * 60

  datatype Schedule = Schedule(
    clock: Clock,
    allowedStart: int,
    allowedEnd: int,
    dailyGlobalLimit: int,
    dailyGroupLimit: int,
    minimumIntervalMinutes: int,
    staggerMinutes: int,
    scheduleRevision: int)

  /** The fields that make up the canonical key of a target. */
  datatype TargetKey = TargetKey(
    instanceName: string,
    orderedInstanceNames: seq<string>,
    assignmentRevision: Option<int>,
    logicalGroupFingerprint: string,
    campaignId: string,
    groupId: string)

  datatype Target = Target(
    groupId: string,
    campaignId: string,
    logicalGroupFingerprint: string,
    instanceName: Option<string>,
    orderedInstanceNames: seq<string>,
    assignmentRevision: Option<int>,
    active: bool,
    available: bool,
    instanceActive: bool,
    instanceActiveByName: Option<map<string, bool>>,
    dailyLimit: int,
    groupSentToday: int,
    cadenceMinutes: Option<int>,
    clock: Option<Clock>,
    allowedStart: Option<int>,
    allowedEnd: Option<int>,
    lastSentAt: Option<int>,
    nextEligibleAt: Option<int>)
  {
    function Key(): TargetKey {
      TargetKey(Or(instanceName, ""), orderedInstanceNames, assignmentRevision,
                logicalGroupFingerprint, campaignId, groupId)
    }

    /** The instances in rotation order. */
    function Names(): seq<string> {
      if orderedInstanceNames != [] then orderedInstanceNames
      else if instanceName.Some? && instanceName.value != "" then [instanceName.value]
      else []
    }

    predicate InstanceMaySend(name: string) {
      if instanceActiveByName.Some?
      then name in instanceActiveByName.value && instanceActiveByName.value[name]
      else instanceName == Some(name) && instanceActive
    }

    function TargetWindow(schedule: Schedule): Window {
      Window(Or(clock, schedule.clock), Or(allowedStart, schedule.allowedStart),
             Or(allowedEnd, schedule.allowedEnd))
    }

    function IntervalMinutes(schedule: Schedule): Positive {
      Max(schedule.minimumIntervalMinutes, Max(1, Or(cadenceMinutes, 15)))
    }
  }

  function Or<T>(value: Option<T>, fallback: T): T {
    if value.Some? then value.value else fallback
  }

  datatype Input = Input(
    now: int,
    schedule: Schedule,
    targets: seq<Target>,
    globalSentToday: int,
    horizonMinutes: int,
    maxSlotsPerTarget: Option<int>,
    collation: TargetKey -> int)
  {
    function GlobalRemaining(): int {
      Max(0, schedule.dailyGlobalLimit - globalSentToday)
    }

    function ScheduleWindow(): Window {
      Window(schedule.clock, schedule.allowedStart, schedule.allowedEnd)
    }

    function Quota(target: Target): int {
      var left := Max(0, Min(target.dailyLimit, schedule.dailyGroupLimit) - target.groupSentToday);
      if maxSlotsPerTarget.None? then left else Min(left, Max(0, maxSlotsPerTarget.value))
    }

    /** The earliest instant the target may be placed at. */
    function Base(target: Target): int {
      var afterLast :=
        if target.lastSentAt.None? then now
        else Max(now, target.lastSentAt.value + target.IntervalMinutes(schedule) * MINUTE);
      if target.nextEligibleAt.None? then afterLast else Max(afterLast, target.nextEligibleAt.value)
    }

    predicate Plannable(target: Target) {
      && target.active && target.available && target.instanceActive
      && target.Names() != []
      && Quota(target) != 0
    }
  }

  /** What the planner keeps of a target that can be planned. */
  datatype TargetState = TargetState(target: Target, grid: Grid, quota: int, base: int) {
    ghost predicate Valid() {
      target.Names() != [] && quota > 0
    }

    function SlotIndex(at: int): nat
    {
      grid.SlotIndex(at)
    }

    /** The instance whose turn it is at a point of the grid. */
    function InstanceAt(at: int): string
      requires target.Names() != []
    {
      target.Names()[grid.SlotIndex(at) % |target.Names()|]
    }
  }

  datatype Candidate = Candidate(target: Target, scheduledFor: int, slotIndex: nat, instanceName: string)

  /** The hashed identity of a slot; the hash is taken to be injective. */
  datatype SlotKey = SlotKey(
    scheduleRevision: int,
    target: TargetKey,
    instanceName: string,
    scheduledFor: int)

  datatype Slot = Slot(
    slotKey: SlotKey,
    scheduledFor: int,
    delayMs: int,
    campaignId: string,
    groupId: string,
    logicalGroupFingerprint: string,
    instanceName: string,
    scheduleRevision: int,
    assignmentRevision: Option<int>)

  // ---------------------------------------------------------------------------
  // The round robin
  // ---------------------------------------------------------------------------

  /** One slot considered for one target, whether or not its instance may send. */
  datatype Placement = Placement(state: nat, at: int)

  ghost predicate ValidPlacements(states: seq<TargetState>, placed: seq<Placement>) {
    && (forall s | 0 <= s < |states| :: states[s].Valid())
    && (forall j | 0 <= j < |placed| :: placed[j].state < |states|)
  }

  function CandidateOf(st: TargetState, at: int): Candidate
    requires st.target.Names() != []
  {
    Candidate(st.target, at, st.SlotIndex(at), st.InstanceAt(at))
  }

  /** The placements whose instance may send, in order. */
  ghost function Emitted(states: seq<TargetState>, placed: seq<Placement>): seq<Candidate>
    requires ValidPlacements(states, placed)
  {
    if placed == [] then []
    else
      var last := placed[|placed| - 1];
      var st := states[last.state];
      Emitted(states, placed[..|placed| - 1])
      + if st.target.InstanceMaySend(st.InstanceAt(last.at)) then [CandidateOf(st, last.at)] else []
  }

  /** The campaigns of the placements whose instance may not send, in order. */
  ghost function Refused(states: seq<TargetState>, placed: seq<Placement>): seq<string>
    requires ValidPlacements(states, placed)
  {
    if placed == [] then []
    else
      var last := placed[|placed| - 1];
      var st := states[last.state];
      Refused(states, placed[..|placed| - 1])
      + if st.target.InstanceMaySend(st.InstanceAt(last.at)) then [] else [st.target.campaignId]
  }

  /** The instants considered for one target, in order. */
  ghost function TimesOf(placed: seq<Placement>, s: int): seq<int> {
    if placed == [] then []
    else
      var last := placed[|placed| - 1];
      TimesOf(placed[..|placed| - 1], s) + if last.state == s then [last.at] else []
  }

  ghost function NextBase(st: TargetState, times: seq<int>): int
  {
    if times == [] then st.base else times[|times| - 1] + st.grid.Step()
  }

  /** Every instant is a usable grid point between the base and the horizon, a whole
      interval or more after the one before it. */
  ghost predicate SlotsAreSound(st: TargetState, horizon: int, times: seq<int>)
  {
    && (forall j | 0 <= j < |times| :: st.grid.IsSlot(times[j]) && st.base <= times[j] <= horizon)
    && (forall j | 0 < j < |times| :: times[j - 1] + st.grid.Step() <= times[j])
  }

  /** The first `n` slots of a target when nothing but its own interval delays it. */
  ghost function FirstSlots(st: TargetState, horizon: int, n: nat): seq<int>
  {
    if n == 0 then []
    else
      var before := FirstSlots(st, horizon, n - 1);
      var next := NextGridSlot(st.grid, NextBase(st, before), horizon);
      if next.Some? then before + [next.value] else before
  }

  /** Where the search for a target starts: its own base, and after the cursor if
      slots of different targets are to be staggered. */
  function SearchFrom(base: int, cursor: int, staggerMinutes: int): int {
    if staggerMinutes > 0 then Max(base, cursor + staggerMinutes * MINUTE) else base
  }

  ghost function CursorAfter(now: int, staggerMinutes: int, placed: seq<Placement>): int {
    if placed == [] then now - staggerMinutes * MINUTE else placed[|placed| - 1].at
  }

  ghost predicate Spread(placed: seq<Placement>, gap: int) {
    forall j, k | 0 <= j < k < |placed| :: placed[j].at + gap <= placed[k].at
  }

  /** What the round robin has established about its placements. */
  ghost predicate Established(states: seq<TargetState>, now: int, horizon: int, staggerMinutes: int,
                              placed: seq<Placement>)
  {
    && ValidPlacements(states, placed)
    && (forall s {:trigger states[s]} | 0 <= s < |states| ::
          && SlotsAreSound(states[s], horizon, TimesOf(placed, s))
          && |TimesOf(placed, s)| <= states[s].quota)
    && (staggerMinutes > 0 ==> Spread(placed, staggerMinutes * MINUTE))
    && (staggerMinutes <= 0 ==>
          forall s {:trigger states[s]} | 0 <= s < |states| ::
            TimesOf(placed, s) == FirstSlots(states[s], horizon, |TimesOf(placed, s)|))
  }

  /** No further search for target `s` can succeed. */
  ghost predicate SearchedOut(st: TargetState, times: seq<int>, cursor: int, horizon: int, staggerMinutes: int)
  {
    && (staggerMinutes <= 0 ==> NextGridSlot(st.grid, NextBase(st, times), horizon).None?)
    && (horizon < st.base + SEARCH_ATTEMPTS * MINUTE ==>
          NoneLeft(st.grid, SearchFrom(NextBase(st, times), cursor, staggerMinutes), horizon))
  }

  /** The variables of the round robin; `placed` keeps every slot it considered. */
  datatype Round = Round(
    remaining: seq<int>,
    nextBase: seq<int>,
    cursor: int,
    placed: seq<Placement>,
    candidates: seq<Candidate>,
    skipped: seq<string>)

  /** A target's variables agree with what it was given, or its search is over. */
  ghost predicate BookOf(st: TargetState, times: seq<int>, remaining: int, nextBase: int, cursor: int,
                         horizon: int, staggerMinutes: int)
  {
    && 0 <= remaining
    && nextBase == NextBase(st, times)
    && (|| remaining + |times| == st.quota
        || (remaining == 0 && SearchedOut(st, times, cursor, horizon, staggerMinutes)))
  }

  ghost predicate Consistent(states: seq<TargetState>, now: int, horizon: int, staggerMinutes: int,
                             globalRemaining: int, r: Round)
  {
    && Established(states, now, horizon, staggerMinutes, r.placed)
    && |r.remaining| == |r.nextBase| == |states|
    && (forall s {:trigger states[s]} | 0 <= s < |states| ::
          BookOf(states[s], TimesOf(r.placed, s), r.remaining[s], r.nextBase[s], r.cursor,
                 horizon, staggerMinutes))
    && r.cursor == CursorAfter(now, staggerMinutes, r.placed)
    && (staggerMinutes > 0 && r.placed != [] ==> now <= r.placed[0].at)
    && r.candidates == Emitted(states, r.placed)
    && r.skipped == Refused(states, r.placed)
    && |r.candidates| <= globalRemaining
  }

  function Sum(s: seq<int>): int {
    if s == [] then 0 else s[0] + Sum(s[1..])
  }

  lemma {:induction false} SumUpdate(s: seq<int>, k: nat, v: int)
    requires k < |s|
    ensures Sum(s[k := v]) == Sum(s) - s[k] + v
  {
    if k == 0 {
      assert s[0 := v][1..] == s[1..];
    } else {
      assert s[k := v][1..] == s[1..][k - 1 := v];
      SumUpdate(s[1..], k - 1, v);
    }
  }

  lemma {:induction false} SumOfNats(s: seq<int>)
    requires forall k | 0 <= k < |s| :: 0 <= s[k]
    ensures 0 <= Sum(s)
  {
    if s != [] {
      SumOfNats(s[1..]);
    }
  }

  lemma SumShrinks(s: seq<int>, k: nat, v: int)
    requires k < |s| && 0 <= v < s[k]
    requires forall j | 0 <= j < |s| :: 0 <= s[j]
    ensures 0 <= Sum(s[k := v]) < Sum(s)
  {
    SumUpdate(s, k, v);
    SumOfNats(s[k := v]);
  }

  lemma TimesAppend(placed: seq<Placement>, p: Placement, s: int)
    ensures TimesOf(placed + [p], s) == TimesOf(placed, s) + if p.state == s then [p.at] else []
  {
    assert (placed + [p])[..|placed|] == placed;
  }

  /** Every slot a target was given starts at its base and moves forward. */
  lemma {:induction false} NextBaseBounds(st: TargetState, horizon: int, times: seq<int>)
    requires st.Valid() && SlotsAreSound(st, horizon, times)
    ensures st.base <= NextBase(st, times)
  {
  }

  /** The target's own slots after one more is found. */
  lemma TimesKeep(st: TargetState, horizon: int, times: seq<int>, from: int, at: int)
    requires st.Valid() && SlotsAreSound(st, horizon, times)
    requires NextBase(st, times) <= from && NextGridSlot(st.grid, from, horizon) == Some(at)
    ensures SlotsAreSound(st, horizon, times + [at])
    ensures from <= at
  {
    NextGridSlotExact(st.grid, from, horizon);
    NextBaseBounds(st, horizon, times);
  }

  lemma FirstSlotsGrow(st: TargetState, horizon: int, times: seq<int>, at: int)
    requires times == FirstSlots(st, horizon, |times|)
    requires NextGridSlot(st.grid, NextBase(st, times), horizon) == Some(at)
    ensures times + [at] == FirstSlots(st, horizon, |times + [at]|)
  {
  }

  lemma SpreadAppend(placed: seq<Placement>, gap: int, p: Placement)
    requires Spread(placed, gap) && 0 <= gap
    requires placed != [] ==> placed[|placed| - 1].at + gap <= p.at
    ensures Spread(placed + [p], gap)
  {
    var after := placed + [p];
    forall j, k | 0 <= j < k < |after| ensures after[j].at + gap <= after[k].at {
      if k == |placed| && j < |placed| - 1 {
        assert placed[j].at + gap <= placed[|placed| - 1].at;
      }
    }
  }

  /** One placement keeps everything established so far. */
  lemma PlacementKeeps(states: seq<TargetState>, now: int, horizon: int, staggerMinutes: int,
                       placed: seq<Placement>, s: nat, at: int)
    requires Established(states, now, horizon, staggerMinutes, placed)
    requires s < |states| && |TimesOf(placed, s)| < states[s].quota
    requires NextGridSlot(states[s].grid,
               SearchFrom(NextBase(states[s], TimesOf(placed, s)),
                          CursorAfter(now, staggerMinutes, placed), staggerMinutes),
               horizon) == Some(at)
    ensures Established(states, now, horizon, staggerMinutes, placed + [Placement(s, at)])
    ensures staggerMinutes > 0 ==> CursorAfter(now, staggerMinutes, placed) + staggerMinutes * MINUTE <= at
  {
    var p := Placement(s, at);
    var after := placed + [p];
    var times := TimesOf(placed, s);
    TimesKeep(states[s], horizon, times,
              SearchFrom(NextBase(states[s], times), CursorAfter(now, staggerMinutes, placed), staggerMinutes), at);
    if staggerMinutes > 0 {
      SpreadAppend(placed, staggerMinutes * MINUTE, p);
    } else {
      FirstSlotsGrow(states[s], horizon, times, at);
    }
    forall q | 0 <= q < |states|
      ensures TimesOf(after, q) == if q == s then times + [at] else TimesOf(placed, q)
    {
      TimesAppend(placed, p, q);
    }
  }

  /** A target searched out stays searched out when the cursor moves on. */
  lemma SearchedOutStays(st: TargetState, times: seq<int>, cursor: int, cursor': int, horizon: int,
                         staggerMinutes: int)
    requires SearchedOut(st, times, cursor, horizon, staggerMinutes)
    requires staggerMinutes > 0 ==> cursor <= cursor'
    ensures SearchedOut(st, times, cursor', horizon, staggerMinutes)
  {
  }

  lemma BookOfPlaced(st: TargetState, times: seq<int>, remaining: int, nextBase: int, cursor: int,
                     horizon: int, staggerMinutes: int, at: int)
    requires BookOf(st, times, remaining, nextBase, cursor, horizon, staggerMinutes) && 0 < remaining
    ensures BookOf(st, times + [at], remaining - 1, at + st.grid.Step(), at, horizon, staggerMinutes)
  {
  }

  lemma BookOfOther(st: TargetState, times: seq<int>, remaining: int, nextBase: int, cursor: int,
                    horizon: int, staggerMinutes: int, at: int)
    requires BookOf(st, times, remaining, nextBase, cursor, horizon, staggerMinutes)
    requires staggerMinutes > 0 ==> cursor <= at
    ensures BookOf(st, times, remaining, nextBase, at, horizon, staggerMinutes)
  {
    if SearchedOut(st, times, cursor, horizon, staggerMinutes) {
      SearchedOutStays(st, times, cursor, at, horizon, staggerMinutes);
    }
  }

  lemma BooksAfterPlacement(states: seq<TargetState>, now: int, horizon: int, staggerMinutes: int,
                            globalRemaining: int, r: Round, s: nat, at: int)
    requires Consistent(states, now, horizon, staggerMinutes, globalRemaining, r)
    requires s < |states| && 0 < r.remaining[s]
    requires staggerMinutes > 0 ==> r.cursor <= at
    ensures forall q | 0 <= q < |states| ::
              BookOf(states[q], TimesOf(r.placed + [Placement(s, at)], q),
                     r.remaining[s := r.remaining[s] - 1][q],
                     r.nextBase[s := at + states[s].grid.Step()][q], at, horizon, staggerMinutes)
  {
    forall q | 0 <= q < |states|
      ensures BookOf(states[q], TimesOf(r.placed + [Placement(s, at)], q),
                     r.remaining[s := r.remaining[s] - 1][q],
                     r.nextBase[s := at + states[s].grid.Step()][q], at, horizon, staggerMinutes)
    {
      TimesAppend(r.placed, Placement(s, at), q);
      if q == s {
        BookOfPlaced(states[q], TimesOf(r.placed, q), r.remaining[q], r.nextBase[q], r.cursor,
                     horizon, staggerMinutes, at);
      } else {
        BookOfOther(states[q], TimesOf(r.placed, q), r.remaining[q], r.nextBase[q], r.cursor,
                    horizon, staggerMinutes, at);
        assert TimesOf(r.placed + [Placement(s, at)], q) == TimesOf(r.placed, q) + [];
      }
    }
  }

  /** The variables after a target is placed at `at`. */
  function Place(states: seq<TargetState>, r: Round, s: nat, at: int): Round
    requires s < |states| && s < |r.remaining| && s < |r.nextBase| && states[s].target.Names() != []
  {
    var st := states[s];
    var maySend := st.target.InstanceMaySend(st.InstanceAt(at));
    Round(r.remaining[s := r.remaining[s] - 1],
          r.nextBase[s := at + st.grid.Step()],
          at,
          r.placed + [Placement(s, at)],
          if maySend then r.candidates + [CandidateOf(st, at)] else r.candidates,
          if maySend then r.skipped else r.skipped + [st.target.campaignId])
  }

  lemma PlaceKeepsConsistent(states: seq<TargetState>, now: int, horizon: int, staggerMinutes: int,
                             globalRemaining: int, r: Round, s: nat, at: int)
    requires Consistent(states, now, horizon, staggerMinutes, globalRemaining, r)
    requires s < |states| && 0 < r.remaining[s] && |r.candidates| < globalRemaining
    requires NextGridSlot(states[s].grid, SearchFrom(r.nextBase[s], r.cursor, staggerMinutes), horizon) == Some(at)
    ensures Consistent(states, now, horizon, staggerMinutes, globalRemaining, Place(states, r, s, at))
  {
    assert BookOf(states[s], TimesOf(r.placed, s), r.remaining[s], r.nextBase[s], r.cursor,
                  horizon, staggerMinutes);
    var after := Place(states, r, s, at);
    PlacementKeeps(states, now, horizon, staggerMinutes, r.placed, s, at);
    BooksAfterPlacement(states, now, horizon, staggerMinutes, globalRemaining, r, s, at);
    assert after.placed[..|r.placed|] == r.placed;
  }

  lemma CloseKeepsConsistent(states: seq<TargetState>, now: int, horizon: int, staggerMinutes: int,
                             globalRemaining: int, r: Round, s: nat)
    requires Consistent(states, now, horizon, staggerMinutes, globalRemaining, r)
    requires s < |states|
    requires NextGridSlot(states[s].grid, SearchFrom(r.nextBase[s], r.cursor, staggerMinutes), horizon).None?
    ensures Consistent(states, now, horizon, staggerMinutes, globalRemaining, r.(remaining := r.remaining[s := 0]))
  {
    var from := SearchFrom(r.nextBase[s], r.cursor, staggerMinutes);
    assert BookOf(states[s], TimesOf(r.placed, s), r.remaining[s], r.nextBase[s], r.cursor,
                  horizon, staggerMinutes);
    NextBaseBounds(states[s], horizon, TimesOf(r.placed, s));
    NextGridSlotExact(states[s].grid, from, horizon);
    forall q | 0 <= q < |states|
      ensures BookOf(states[q], TimesOf(r.placed, q), r.remaining[s := 0][q], r.nextBase[q], r.cursor,
                     horizon, staggerMinutes)
    {
      assert BookOf(states[q], TimesOf(r.placed, q), r.remaining[q], r.nextBase[q], r.cursor,
                    horizon, staggerMinutes);
    }
  }

  /** What one turn does to the quotas: nothing before the target changes, and the sum
      drops unless the target had nothing left. */
  ghost predicate Turned(before: seq<int>, after: seq<int>, s: nat, found: bool)
  {
    && s < |before| == |after|
    && (forall q | 0 <= q < s :: after[q] == before[q])
    && (!found ==> after[s] == 0)
    && 0 <= Sum(after) <= Sum(before)
    && (found ==> Sum(after) < Sum(before))
  }

  lemma TurnTakes(before: seq<int>, s: nat, v: int, found: bool)
    requires s < |before| && 0 <= v < before[s] && (!found ==> v == 0)
    requires forall q | 0 <= q < |before| :: 0 <= before[q]
    ensures Turned(before, before[s := v], s, found)
  {
    SumShrinks(before, s, v);
  }

  /** The variables after the target is placed at the slot found for it, or after its
      search ends without one. */
  function Turn(states: seq<TargetState>, r: Round, s: nat, found: Option<int>): Round
    requires s < |states| && s < |r.remaining| && s < |r.nextBase| && states[s].target.Names() != []
  {
    if found.Some? then Place(states, r, s, found.value) else r.(remaining := r.remaining[s := 0])
  }

  lemma TurnKeepsConsistent(states: seq<TargetState>, now: int, horizon: int, staggerMinutes: int,
                            globalRemaining: int, r: Round, s: nat, found: Option<int>)
    requires Consistent(states, now, horizon, staggerMinutes, globalRemaining, r)
    requires s < |states| && 0 < r.remaining[s] && |r.candidates| < globalRemaining
    requires found == NextGridSlot(states[s].grid, SearchFrom(r.nextBase[s], r.cursor, staggerMinutes), horizon)
    ensures Consistent(states, now, horizon, staggerMinutes, globalRemaining, Turn(states, r, s, found))
  {
    if found.Some? {
      PlaceKeepsConsistent(states, now, horizon, staggerMinutes, globalRemaining, r, s, found.value);
    } else {
      CloseKeepsConsistent(states, now, horizon, staggerMinutes, globalRemaining, r, s);
    }
  }

  lemma TurnShrinks(states: seq<TargetState>, r: Round, s: nat, found: Option<int>)
    requires s < |states| && s < |r.remaining| && s < |r.nextBase| && states[s].target.Names() != []
    requires 0 < r.remaining[s] && forall q | 0 <= q < |r.remaining| :: 0 <= r.remaining[q]
    ensures Turned(r.remaining, Turn(states, r, s, found).remaining, s, found.Some?)
  {
    TurnTakes(r.remaining, s, if found.Some? then r.remaining[s] - 1 else 0, found.Some?);
  }

  /** Each placement was the first usable point its target had, when it was made. */
  ghost predicate Greedy(states: seq<TargetState>, now: int, horizon: int, staggerMinutes: int,
                         placed: seq<Placement>)
  {
    placed == []
    || var before, last := placed[..|placed| - 1], placed[|placed| - 1];
       && Greedy(states, now, horizon, staggerMinutes, before)
       && last.state < |states|
       && NextGridSlot(states[last.state].grid,
                       SearchFrom(NextBase(states[last.state], TimesOf(before, last.state)),
                                  CursorAfter(now, staggerMinutes, before), staggerMinutes),
                       horizon) == Some(last.at)
  }

  /** Targets take turns: after `passes` whole passes and `s` turns of the next, a target
      with quota left has had as many slots as turns, and no target has had more. */
  ghost predicate TookTurns(r: Round, passes: nat, s: nat)
  {
    forall q {:trigger TimesOf(r.placed, q)} | 0 <= q < |r.remaining| ::
      var turns := if q < s then passes + 1 else passes;
      |TimesOf(r.placed, q)| <= turns && (r.remaining[q] != 0 ==> |TimesOf(r.placed, q)| == turns)
  }

  /** One turn of the round robin: places the target once more, or ends its search. */
  method ConsiderTarget(states: seq<TargetState>, now: int, horizon: int, staggerMinutes: int,
                        globalRemaining: int, r: Round, s: nat)
    returns (after: Round, found: bool)
    requires Consistent(states, now, horizon, staggerMinutes, globalRemaining, r)
    requires s < |states| && |r.candidates| < globalRemaining
    ensures Consistent(states, now, horizon, staggerMinutes, globalRemaining, after)
    ensures Turned(r.remaining, after.remaining, s, found)
    ensures if r.remaining[s] == 0 then after == r
            else after == Turn(states, r, s, NextGridSlot(states[s].grid, SearchFrom(r.nextBase[s], r.cursor, staggerMinutes), horizon))
  {
    AllNats(states, now, horizon, staggerMinutes, globalRemaining, r);
    if r.remaining[s] == 0 {
      return r, false;
    }
    var scheduledFor := FindNextGridSlot(states[s].grid, SearchFrom(r.nextBase[s], r.cursor, staggerMinutes), horizon);
    TurnKeepsConsistent(states, now, horizon, staggerMinutes, globalRemaining, r, s, scheduledFor);
    TurnShrinks(states, r, s, scheduledFor);
    return Turn(states, r, s, scheduledFor), scheduledFor.Some?;
  }

  lemma TurnKeepsGreedy(states: seq<TargetState>, now: int, horizon: int, staggerMinutes: int,
                        r: Round, s: nat, found: Option<int>)
    requires s < |states| && s < |r.remaining| && s < |r.nextBase| && states[s].target.Names() != []
    requires Greedy(states, now, horizon, staggerMinutes, r.placed)
    requires r.cursor == CursorAfter(now, staggerMinutes, r.placed)
    requires r.nextBase[s] == NextBase(states[s], TimesOf(r.placed, s))
    requires found == NextGridSlot(states[s].grid, SearchFrom(r.nextBase[s], r.cursor, staggerMinutes), horizon)
    ensures Greedy(states, now, horizon, staggerMinutes, Turn(states, r, s, found).placed)
  {
    var after := Turn(states, r, s, found);
    if found.Some? {
      assert after.placed[..|r.placed|] == r.placed;
    }
  }

  lemma TurnKeepsTurns(states: seq<TargetState>, r: Round, s: nat, found: Option<int>, passes: nat)
    requires s < |states| && s < |r.remaining| && s < |r.nextBase| && states[s].target.Names() != []
    requires r.remaining[s] != 0 && TookTurns(r, passes, s)
    ensures TookTurns(Turn(states, r, s, found), passes, s + 1)
  {
    var after := Turn(states, r, s, found);
    forall q | 0 <= q < |r.remaining|
      ensures TimesOf(after.placed, q)
           == TimesOf(r.placed, q) + if found.Some? && q == s then [found.value] else []
    {
      if found.Some? {
        TimesAppend(r.placed, Placement(s, found.value), q);
      }
    }
  }

  lemma StartIsConsistent(states: seq<TargetState>, now: int, horizon: int, staggerMinutes: int,
                          globalRemaining: int)
    requires forall s | 0 <= s < |states| :: states[s].Valid()
    requires 0 <= globalRemaining
    ensures Consistent(states, now, horizon, staggerMinutes, globalRemaining, Start(states, now, staggerMinutes))
  {
    var r := Start(states, now, staggerMinutes);
    assert forall s :: TimesOf(r.placed, s) == [];
  }

  /** What the first `s` turns of a pass do to the quotas. */
  ghost predicate Passed(before: seq<int>, after: seq<int>, s: nat, madeProgress: bool)
  {
    && s <= |before| == |after|
    && 0 <= Sum(after) <= Sum(before)
    && (if madeProgress then Sum(after) < Sum(before) else forall q | 0 <= q < s :: after[q] == 0)
  }

  lemma PassGrows(before: seq<int>, between: seq<int>, after: seq<int>, s: nat, madeProgress: bool, found: bool)
    requires Passed(before, between, s, madeProgress) && Turned(between, after, s, found)
    ensures Passed(before, after, s + 1, madeProgress || found)
  {
  }

  lemma TurnInOrder(states: seq<TargetState>, now: int, horizon: int, staggerMinutes: int,
                    globalRemaining: int, r: Round, s: nat, passes: nat, after: Round)
    requires Consistent(states, now, horizon, staggerMinutes, globalRemaining, r)
    requires s < |states|
    requires Greedy(states, now, horizon, staggerMinutes, r.placed) && TookTurns(r, passes, s)
    requires if r.remaining[s] == 0 then after == r
             else after == Turn(states, r, s, NextGridSlot(states[s].grid, SearchFrom(r.nextBase[s], r.cursor, staggerMinutes), horizon))
    ensures Greedy(states, now, horizon, staggerMinutes, after.placed) && TookTurns(after, passes, s + 1)
  {
    assert BookOf(states[s], TimesOf(r.placed, s), r.remaining[s], r.nextBase[s], r.cursor,
                  horizon, staggerMinutes);
    if r.remaining[s] != 0 {
      var found := NextGridSlot(states[s].grid, SearchFrom(r.nextBase[s], r.cursor, staggerMinutes), horizon);
      TurnKeepsGreedy(states, now, horizon, staggerMinutes, r, s, found);
      TurnKeepsTurns(states, r, s, found, passes);
    }
  }

  lemma NextPassStarts(r: Round, passes: nat, turns: nat)
    requires TookTurns(r, passes, turns) && turns == |r.remaining|
    ensures TookTurns(r, passes + 1, 0)
  {
  }

  /** One pass over the targets, cut short when the global quota is used up. */
  method Pass(states: seq<TargetState>, now: int, horizon: int, staggerMinutes: int,
              globalRemaining: int, start: Round, ghost passes: nat)
    returns (r: Round, madeProgress: bool, ghost turns: nat)
    requires Consistent(states, now, horizon, staggerMinutes, globalRemaining, start)
    requires Greedy(states, now, horizon, staggerMinutes, start.placed) && TookTurns(start, passes, 0)
    ensures Consistent(states, now, horizon, staggerMinutes, globalRemaining, r)
    ensures Greedy(states, now, horizon, staggerMinutes, r.placed)
    ensures turns <= |states| && TookTurns(r, passes, turns)
    ensures turns < |states| ==> |r.candidates| >= globalRemaining
    ensures 0 <= Sum(r.remaining) <= Sum(start.remaining)
    ensures madeProgress ==> Sum(r.remaining) < Sum(start.remaining)
    ensures !madeProgress && |r.candidates| < globalRemaining ==>
              forall s | 0 <= s < |states| :: r.remaining[s] == 0
  {
    r, madeProgress, turns := start, false, 0;
    AllNats(states, now, horizon, staggerMinutes, globalRemaining, r);
    for s := 0 to |states|
      invariant Consistent(states, now, horizon, staggerMinutes, globalRemaining, r)
      invariant Passed(start.remaining, r.remaining, s, madeProgress)
      invariant Greedy(states, now, horizon, staggerMinutes, r.placed) && TookTurns(r, passes, s)
      invariant turns == s
    {
      if |r.candidates| >= globalRemaining {
        break;
      }
      var found;
      ghost var between := r;
      r, found := ConsiderTarget(states, now, horizon, staggerMinutes, globalRemaining, r, s);
      PassGrows(start.remaining, between.remaining, r.remaining, s, madeProgress, found);
      TurnInOrder(states, now, horizon, staggerMinutes, globalRemaining, between, s, passes, r);
      turns := s + 1;
      madeProgress := madeProgress || found;
    }
  }

  function Start(states: seq<TargetState>, now: int, staggerMinutes: int): Round {
    Round(seq(|states|, s requires 0 <= s < |states| => states[s].quota),
          seq(|states|, s requires 0 <= s < |states| => states[s].base),
          now - staggerMinutes * MINUTE, [], [], [])
  }

  method RoundRobin(states: seq<TargetState>, now: int, horizon: int, staggerMinutes: int,
                    globalRemaining: int)
    returns (r: Round, ghost passes: nat, ghost turns: nat)
    requires forall s | 0 <= s < |states| :: states[s].Valid()
    requires 0 <= globalRemaining
    ensures Consistent(states, now, horizon, staggerMinutes, globalRemaining, r)
    ensures |r.candidates| < globalRemaining ==> forall s | 0 <= s < |states| :: r.remaining[s] == 0
    ensures Greedy(states, now, horizon, staggerMinutes, r.placed)
    ensures turns <= |states| && TookTurns(r, passes, turns)
  {
    r := Start(states, now, staggerMinutes);
    StartIsConsistent(states, now, horizon, staggerMinutes, globalRemaining);
    AllNats(states, now, horizon, staggerMinutes, globalRemaining, r);
    passes, turns := 0, 0;
    assert forall q :: TimesOf(r.placed, q) == [];
    var madeProgress := true;
    while |r.candidates| < globalRemaining && madeProgress
      invariant Consistent(states, now, horizon, staggerMinutes, globalRemaining, r)
      invariant !madeProgress && |r.candidates| < globalRemaining ==>
                  forall s | 0 <= s < |states| :: r.remaining[s] == 0
      invariant Greedy(states, now, horizon, staggerMinutes, r.placed)
      invariant turns <= |states| && TookTurns(r, passes, turns)
      invariant turns == 0 || turns == |states| || |r.candidates| >= globalRemaining
      invariant 0 <= Sum(r.remaining)
      decreases Sum(r.remaining), madeProgress
    {
      if turns == |states| {
        NextPassStarts(r, passes, turns);
        passes, turns := passes + 1, 0;
      }
      r, madeProgress, turns := Pass(states, now, horizon, staggerMinutes, globalRemaining, r, passes);
    }
  }

  lemma AllNats(states: seq<TargetState>, now: int, horizon: int, staggerMinutes: int,
                globalRemaining: int, r: Round)
    requires Consistent(states, now, horizon, staggerMinutes, globalRemaining, r)
    ensures forall s | 0 <= s < |states| :: 0 <= r.remaining[s]
    ensures 0 <= Sum(r.remaining)
  {
    forall s | 0 <= s < |states| ensures 0 <= r.remaining[s] {
      assert BookOf(states[s], TimesOf(r.placed, s), r.remaining[s], r.nextBase[s], r.cursor,
                    horizon, staggerMinutes);
    }
    SumOfNats(r.remaining);
  }
}
