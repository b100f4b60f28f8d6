/** Which quotas a plan keeps: the global one, each target's own, and a group's exactly as
    far as its targets' quotas allow
    (apps/api/src/commercial-automation-scheduler-planner.ts:306-432). */
module QuotaLaws {
  import opened Wrappers
  import opened LocalClock
  import opened SlotSearch
  import opened SlotPlanner
  import opened DayPlan
  import opened PlanLaws
  import Sorting

  /** A choice among targets: those of one key, or of one group. */
  type Choice = Target -> bool

  function OfKey(key: TargetKey): Choice {
    (t: Target) => t.Key() == key
  }

  function OfGroup(groupId: string): Choice {
    (t: Target) => t.groupId == groupId
  }

  function ForChoice(choice: Choice): Candidate -> bool {
    (c: Candidate) => choice(c.target)
  }

  function SlotOfKey(key: TargetKey): Slot -> bool {
    (x: Slot) => x.slotKey.target == key
  }

  function SlotOfGroup(groupId: string): Slot -> bool {
    (x: Slot) => x.groupId == groupId
  }

  /** What a target of the choice may still be given. */
  function QuotaIn(i: Input, choice: Choice): Target -> int {
    (t: Target) => if i.Plannable(t) && choice(t) then i.Quota(t) else 0
  }

  // ---------------------------------------------------------------------------
  // Counting what is considered
  // ---------------------------------------------------------------------------

  /** The slots considered for the first `n` targets, as far as they are chosen. */
  ghost function Considered(states: seq<TargetState>, placed: seq<Placement>, choice: Choice, n: nat): nat
    requires n <= |states|
  {
    if n == 0 then 0
    else Considered(states, placed, choice, n - 1)
         + if choice(states[n - 1].target) then |TimesOf(placed, n - 1)| else 0
  }

  /** The quotas of the first `n` targets, as far as they are chosen. */
  ghost function QuotaOf(states: seq<TargetState>, choice: Choice, n: nat): int
    requires n <= |states|
  {
    if n == 0 then 0
    else QuotaOf(states, choice, n - 1) + if choice(states[n - 1].target) then states[n - 1].quota else 0
  }

  lemma {:induction false} ConsideredAppend(states: seq<TargetState>, placed: seq<Placement>, p: Placement,
                                            choice: Choice, n: nat)
    requires n <= |states| && p.state < |states|
    ensures Considered(states, placed + [p], choice, n)
         == Considered(states, placed, choice, n)
            + if p.state < n && choice(states[p.state].target) then 1 else 0
  {
    if n > 0 {
      ConsideredAppend(states, placed, p, choice, n - 1);
      TimesAppend(placed, p, n - 1);
    }
  }

  ghost predicate AllMaySend(states: seq<TargetState>, placed: seq<Placement>)
    requires ValidPlacements(states, placed)
  {
    forall j | 0 <= j < |placed| :: MaySendAt(states, placed[j])
  }

  lemma CountOne(f: Candidate -> bool, cs: seq<Candidate>, c: Candidate)
    ensures Sorting.Count(f, cs + [c]) == Sorting.Count(f, cs) + if f(c) then 1 else 0
  {
    Sorting.CountAppend(f, cs, [c]);
    assert [c][1..] == [];
  }

  predicate MaySendAt(states: seq<TargetState>, p: Placement)
    requires p.state < |states| && states[p.state].target.Names() != []
  {
    states[p.state].target.InstanceMaySend(states[p.state].InstanceAt(p.at))
  }

  lemma EmittedAppend(states: seq<TargetState>, placed: seq<Placement>, choice: Choice)
    requires ValidPlacements(states, placed) && placed != []
    ensures var before, last := placed[..|placed| - 1], placed[|placed| - 1];
      && ValidPlacements(states, before)
      && Sorting.Count(ForChoice(choice), Emitted(states, placed))
         == Sorting.Count(ForChoice(choice), Emitted(states, before))
            + if MaySendAt(states, last) && choice(states[last.state].target) then 1 else 0
  {
    var before, last := placed[..|placed| - 1], placed[|placed| - 1];
    if MaySendAt(states, last) {
      CountOne(ForChoice(choice), Emitted(states, before), CandidateOf(states[last.state], last.at));
    } else {
      assert Emitted(states, placed) == Emitted(states, before);
    }
  }

  lemma ConsideredGrows(states: seq<TargetState>, placed: seq<Placement>, choice: Choice)
    requires placed != [] && placed[|placed| - 1].state < |states|
    ensures var before, last := placed[..|placed| - 1], placed[|placed| - 1];
            Considered(states, placed, choice, |states|)
            == Considered(states, before, choice, |states|) + if choice(states[last.state].target) then 1 else 0
  {
    var before, last := placed[..|placed| - 1], placed[|placed| - 1];
    assert placed == before + [last];
    ConsideredAppend(states, before, last, choice, |states|);
  }

  /** What is emitted was considered, and all of it is emitted if every instance may send. */
  lemma {:induction false} EmittedWasConsidered(states: seq<TargetState>, placed: seq<Placement>, choice: Choice)
    requires ValidPlacements(states, placed)
    ensures var emitted := Sorting.Count(ForChoice(choice), Emitted(states, placed));
      && emitted <= Considered(states, placed, choice, |states|)
      && (AllMaySend(states, placed) ==> emitted == Considered(states, placed, choice, |states|))
  {
    if placed == [] {
      NothingConsidered(states, choice, |states|);
    } else {
      EmittedWasConsidered(states, placed[..|placed| - 1], choice);
      EmittedAppend(states, placed, choice);
      ConsideredGrows(states, placed, choice);
    }
  }

  lemma {:induction false} NothingConsidered(states: seq<TargetState>, choice: Choice, n: nat)
    requires n <= |states|
    ensures Considered(states, [], choice, n) == 0
  {
    if n > 0 {
      NothingConsidered(states, choice, n - 1);
    }
  }

  /** Every target got its whole quota. */
  ghost predicate IsFilled(states: seq<TargetState>, placed: seq<Placement>) {
    forall s {:trigger states[s]} | 0 <= s < |states| :: |TimesOf(placed, s)| == states[s].quota
  }

  ghost predicate WithinQuotas(states: seq<TargetState>, placed: seq<Placement>) {
    forall s {:trigger states[s]} | 0 <= s < |states| :: |TimesOf(placed, s)| <= states[s].quota
  }

  lemma {:induction false} ConsideredFits(states: seq<TargetState>, placed: seq<Placement>, choice: Choice, n: nat)
    requires n <= |states| && WithinQuotas(states, placed)
    ensures Considered(states, placed, choice, n) <= QuotaOf(states, choice, n)
    ensures IsFilled(states, placed) ==> Considered(states, placed, choice, n) == QuotaOf(states, choice, n)
  {
    if n > 0 {
      ConsideredFits(states, placed, choice, n - 1);
      assert states[n - 1] == states[n - 1];
    }
  }

  // ---------------------------------------------------------------------------
  // From the states back to the input
  // ---------------------------------------------------------------------------

  lemma {:induction false} QuotaOfPrefix(states: seq<TargetState>, more: seq<TargetState>, choice: Choice, n: nat)
    requires n <= |states|
    ensures QuotaOf(states + more, choice, n) == QuotaOf(states, choice, n)
  {
    if n > 0 {
      QuotaOfPrefix(states, more, choice, n - 1);
    }
  }

  lemma TotalOfLast(i: Input, choice: Choice, before: seq<Target>, t: Target)
    ensures Sorting.Total(QuotaIn(i, choice), before + [t])
         == Sorting.Total(QuotaIn(i, choice), before) + if i.Plannable(t) && choice(t) then i.Quota(t) else 0
  {
    Sorting.TotalAppend(QuotaIn(i, choice), before, [t]);
    assert [t][1..] == [];
  }

  lemma {:induction false} QuotasOfStates(i: Input, dayStart: int, dayEnd: int, targets: seq<Target>, choice: Choice)
    requires StatesOf(i, dayStart, dayEnd, targets).Some?
    ensures var states := StatesOf(i, dayStart, dayEnd, targets).value;
            QuotaOf(states, choice, |states|) == Sorting.Total(QuotaIn(i, choice), targets)
  {
    if targets != [] {
      var before, t := targets[..|targets| - 1], targets[|targets| - 1];
      QuotasOfStates(i, dayStart, dayEnd, before, choice);
      TotalOfLast(i, choice, before, t);
      assert targets == before + [t];
      var earlier := StatesOf(i, dayStart, dayEnd, before).value;
      if i.Plannable(t) {
        var st := StateOf(i, t, AnchorOf(i, t, dayStart, dayEnd).value);
        QuotaOfPrefix(earlier, [st], choice, |earlier|);
      }
    }
  }

  /** What the targets of the choice may be given in all. */
  function ChoiceQuota(i: Input, choice: Choice): int {
    Sorting.Total(QuotaIn(i, choice), i.targets)
  }

  lemma ChoiceFits(i: Input, dayStart: int, dayEnd: int, plan: Plan, p: Planning, choice: Choice)
    requires IsPlanOf(i, dayStart, dayEnd, plan, p)
    ensures var emitted := Sorting.Count(ForChoice(choice), p.round.candidates);
      && emitted <= ChoiceQuota(i, choice)
      && (IsFilled(p.states, p.round.placed) && AllMaySend(p.states, p.round.placed) ==>
            emitted == ChoiceQuota(i, choice))
  {
    var targets := Sorting.Sort(KeyOrder(i), i.targets);
    EmittedWasConsidered(p.states, p.round.placed, choice);
    assert WithinQuotas(p.states, p.round.placed);
    ConsideredFits(p.states, p.round.placed, choice, |p.states|);
    QuotasOfStates(i, dayStart, dayEnd, targets, choice);
    Sorting.SortTotals(KeyOrder(i), QuotaIn(i, choice), i.targets);
  }

  // ---------------------------------------------------------------------------
  // From candidates to slots
  // ---------------------------------------------------------------------------

  ghost predicate SameQuestion(i: Input, f: Slot -> bool, choice: Choice) {
    forall c: Candidate :: f(SlotOf(i, c)) == choice(c.target)
  }

  lemma {:induction false} SlotsCountAsCandidates(i: Input, cs: seq<Candidate>, f: Slot -> bool, choice: Choice)
    requires SameQuestion(i, f, choice)
    ensures Sorting.Count(f, SlotsOf(i, cs)) == Sorting.Count(ForChoice(choice), cs)
  {
    if cs != [] {
      SlotsCountAsCandidates(i, cs[1..], f, choice);
      assert SlotsOf(i, cs)[1..] == SlotsOf(i, cs[1..]);
      assert f(SlotOf(i, cs[0])) == choice(cs[0].target);
    }
  }

  lemma SlotsFit(i: Input, dayStart: int, dayEnd: int, plan: Plan, p: Planning, f: Slot -> bool, choice: Choice)
    requires IsPlanOf(i, dayStart, dayEnd, plan, p) && SameQuestion(i, f, choice)
    ensures Sorting.Count(f, plan.slots) <= ChoiceQuota(i, choice)
    ensures IsFilled(p.states, p.round.placed) && AllMaySend(p.states, p.round.placed) ==>
              Sorting.Count(f, plan.slots) == ChoiceQuota(i, choice)
  {
    ChoiceFits(i, dayStart, dayEnd, plan, p, choice);
    Sorting.SortCounts(SlotOrder(i), ForChoice(choice), p.round.candidates);
    SlotsCountAsCandidates(i, Sorting.Sort(SlotOrder(i), p.round.candidates), f, choice);
  }

  // ---------------------------------------------------------------------------
  // The quotas
  // ---------------------------------------------------------------------------

  /** At most one target that may be planned is chosen. */
  ghost predicate IsSingular(i: Input, choice: Choice) {
    forall a, b | 0 <= a < |i.targets| && 0 <= b < |i.targets|
      && i.Plannable(i.targets[a]) && choice(i.targets[a]) && i.Plannable(i.targets[b]) && choice(i.targets[b]) :: a == b
  }

  lemma {:induction false} SingleTotal(i: Input, choice: Choice, targets: seq<Target>, bound: int)
    requires 0 <= bound
    requires forall t | t in targets && i.Plannable(t) && choice(t) :: i.Quota(t) <= bound
    requires forall a, b | 0 <= a < |targets| && 0 <= b < |targets|
      && i.Plannable(targets[a]) && choice(targets[a]) && i.Plannable(targets[b]) && choice(targets[b]) :: a == b
    ensures Sorting.Total(QuotaIn(i, choice), targets) <= bound
  {
    if targets != [] {
      var first, rest := targets[0], targets[1..];
      if i.Plannable(first) && choice(first) {
        forall k | 0 <= k < |rest| ensures !(i.Plannable(rest[k]) && choice(rest[k])) {
          assert rest[k] == targets[k + 1];
        }
        NoneTotal(i, choice, rest);
      } else {
        forall a, b | 0 <= a < |rest| && 0 <= b < |rest|
          && i.Plannable(rest[a]) && choice(rest[a]) && i.Plannable(rest[b]) && choice(rest[b]) ensures a == b
        {
          assert rest[a] == targets[a + 1] && rest[b] == targets[b + 1];
        }
        SingleTotal(i, choice, rest, bound);
      }
    }
  }

  lemma {:induction false} NoneTotal(i: Input, choice: Choice, targets: seq<Target>)
    requires forall k | 0 <= k < |targets| :: !(i.Plannable(targets[k]) && choice(targets[k]))
    ensures Sorting.Total(QuotaIn(i, choice), targets) == 0
  {
    if targets != [] {
      NoneTotal(i, choice, targets[1..]);
    }
  }

  /** No more slots for a key that one plannable target has than are left of its quotas. */
  lemma KeyFitsQuota(i: Input, dayStart: int, dayEnd: int, plan: Plan, p: Planning, t: Target)
    requires IsPlanOf(i, dayStart, dayEnd, plan, p)
    requires t in i.targets && i.Plannable(t) && IsSingular(i, OfKey(t.Key()))
    ensures Sorting.Count(SlotOfKey(t.Key()), plan.slots) <= i.Quota(t)
  {
    var a :| 0 <= a < |i.targets| && i.targets[a] == t;
    SingleTotal(i, OfKey(t.Key()), i.targets, i.Quota(t));
    SlotsFit(i, dayStart, dayEnd, plan, p, SlotOfKey(t.Key()), OfKey(t.Key()));
  }

  /** With what was sent today a plan stays within the global limit, if it plans anything. A
      target whose key no other plannable target has gets no more than is left of its own
      limit, of the group's limit, and of what one plan may give a target. */
  lemma PlanFitsQuotas(i: Input, dayStart: int, dayEnd: int, plan: Plan, p: Planning, t: Target)
    requires IsPlanOf(i, dayStart, dayEnd, plan, p)
    requires t in i.targets && HasRoom(i, t) && IsSingular(i, OfKey(t.Key()))
    ensures plan.slots == [] || i.globalSentToday + |plan.slots| <= i.schedule.dailyGlobalLimit
    ensures var given := Sorting.Count(SlotOfKey(t.Key()), plan.slots);
      && t.groupSentToday + given <= t.dailyLimit
      && t.groupSentToday + given <= i.schedule.dailyGroupLimit
      && (i.maxSlotsPerTarget.Some? ==> given <= i.maxSlotsPerTarget.value)
  {
    PlanFitsGlobalLimit(i, dayStart, dayEnd, plan, p);
    InputIsTakenAsSaid(i, dayEnd, t, 0);
    KeyFitsQuota(i, dayStart, dayEnd, plan, p, t);
    QuotasAreTakenAsSaid(i, t, Max(1, Sorting.Count(SlotOfKey(t.Key()), plan.slots)));
  }

  lemma PlanFitsGlobalLimit(i: Input, dayStart: int, dayEnd: int, plan: Plan, p: Planning)
    requires IsPlanOf(i, dayStart, dayEnd, plan, p)
    ensures plan.slots == [] || i.globalSentToday + |plan.slots| <= i.schedule.dailyGlobalLimit
  {
    Sorting.SameElements(Sorting.Sort(SlotOrder(i), p.round.candidates), p.round.candidates);
  }

  /** What is left of a group's daily limit, `sentToday` of it being used. */
  function GroupRemaining(i: Input, sentToday: int): int {
    Max(0, i.schedule.dailyGroupLimit - sentToday)
  }

  ghost predicate GroupSent(i: Input, groupId: string, sentToday: int) {
    forall t | t in i.targets && t.groupId == groupId :: t.groupSentToday == sentToday
  }

  /** The group's limit is kept when no two plannable targets share the group, and whenever
      what they may be given in all fits in it. */
  lemma PlanFitsGroup(i: Input, dayStart: int, dayEnd: int, plan: Plan, p: Planning, groupId: string, sentToday: int)
    requires IsPlanOf(i, dayStart, dayEnd, plan, p) && GroupSent(i, groupId, sentToday)
    requires IsSingular(i, OfGroup(groupId)) || ChoiceQuota(i, OfGroup(groupId)) <= GroupRemaining(i, sentToday)
    ensures Sorting.Count(SlotOfGroup(groupId), plan.slots) <= GroupRemaining(i, sentToday)
  {
    if IsSingular(i, OfGroup(groupId)) {
      SingleTotal(i, OfGroup(groupId), i.targets, GroupRemaining(i, sentToday));
    }
    SlotsFit(i, dayStart, dayEnd, plan, p, SlotOfGroup(groupId), OfGroup(groupId));
  }

  /** The condition is exact: a plan that fills every quota with instances that may send
      keeps the group's limit if and only if its targets' quotas fit in it. */
  lemma GroupFitsExactlyWhen(i: Input, dayStart: int, dayEnd: int, plan: Plan, p: Planning, groupId: string,
                             sentToday: int)
    requires IsPlanOf(i, dayStart, dayEnd, plan, p)
    requires IsFilled(p.states, p.round.placed) && AllMaySend(p.states, p.round.placed)
    ensures Sorting.Count(SlotOfGroup(groupId), plan.slots) <= GroupRemaining(i, sentToday)
       <==> ChoiceQuota(i, OfGroup(groupId)) <= GroupRemaining(i, sentToday)
  {
    SlotsFit(i, dayStart, dayEnd, plan, p, SlotOfGroup(groupId), OfGroup(groupId));
  }

  // ---------------------------------------------------------------------------
  // Two targets of one group
  // ---------------------------------------------------------------------------

  const UTC: Clock := (m: int) => LocalTime(m / 1440, m % 1440)
  const DAY: int := 1440 * MINUTE

  /** A target of the group that may be sent one message, at any time of day. */
  function Member(campaignId: string): Target {
    Target("group", campaignId, "fingerprint", Some("instance"), [], None, true, true, true, None,
           1, 0, None, None, None, None, None, None)
  }

  /** Two targets of one group, of which one message a day is allowed. */
  const SHARED: Input :=
    Input(0, Schedule(UTC, 0, 0, 10, 1, 15, 0, 1), [Member("a"), Member("b")], 0, 1440, None, (key: TargetKey) => 0)

  lemma FirstDay()
    ensures IsLocalDay(SHARED.schedule.clock, SHARED.now, 0, DAY)
  {
    forall t ensures SameLocalDay(UTC, 0, t) <==> 0 <= t < DAY {
    }
  }

  lemma MembersStartAtOnce(t: Target)
    requires t in SHARED.targets
    ensures AnchorOf(SHARED, t, 0, DAY) == Some(0)
    ensures SHARED.Quota(t) == 1 && SHARED.Base(t) == 0 && SHARED.Plannable(t)
  {
    assert CeilMinute(0) == 0;
    assert SHARED.ScheduleWindow().Inside(0) && t.TargetWindow(SHARED.schedule).Inside(0);
  }

  lemma {:induction false} CountAll(slots: seq<Slot>)
    ensures Sorting.Count((x: Slot) => true, slots) == |slots|
  {
    if slots != [] {
      CountAll(slots[1..]);
    }
  }

  /** A grid that may be used at its anchor starts there. */
  lemma StartsAtAnchor(g: Grid, horizon: int)
    requires g.Usable(g.anchor) && g.anchor <= horizon
    ensures NextGridSlot(g, g.anchor, horizon) == Some(g.anchor)
  {
    IndicesInvertPoint(g, 0);
    assert g.Point(0) == g.anchor;
  }

  lemma QuotaOfTwo(f: Target -> int, a: Target, b: Target)
    ensures Sorting.Total(f, [a, b]) == f(a) + f(b)
  {
    assert [a, b][1..] == [b] && [b][1..] == [];
    assert Sorting.Total(f, [b]) == f(b);
  }

  lemma QuotasOfShared(choice: Choice)
    ensures ChoiceQuota(SHARED, choice) <= 2
    ensures choice(Member("a")) && choice(Member("b")) ==> ChoiceQuota(SHARED, choice) == 2
  {
    QuotaOfTwo(QuotaIn(SHARED, choice), Member("a"), Member("b"));
    MembersStartAtOnce(Member("a"));
    MembersStartAtOnce(Member("b"));
  }

  lemma SharedHasFewSlots(plan: Plan, p: Planning)
    requires IsPlanOf(SHARED, 0, DAY, plan, p)
    ensures |plan.slots| <= 2
  {
    var all: Choice := (t: Target) => true;
    SlotsFit(SHARED, 0, DAY, plan, p, (x: Slot) => true, all);
    CountAll(plan.slots);
    QuotasOfShared(all);
  }

  lemma SharedStates(plan: Plan, p: Planning, s: nat)
    requires IsPlanOf(SHARED, 0, DAY, plan, p) && s < |p.states|
    ensures p.states[s].target in SHARED.targets
    ensures p.states[s] == StateOf(SHARED, p.states[s].target, 0)
    ensures p.states[s].quota == 1 && p.states[s].base == 0
  {
    StatesAreOfTargets(SHARED, 0, DAY, plan, p);
    assert p.states[s] in p.states;
    MembersStartAtOnce(p.states[s].target);
  }

  lemma SharedIsFilled(plan: Plan, p: Planning, s: nat)
    requires IsPlanOf(SHARED, 0, DAY, plan, p) && s < |p.states|
    ensures |TimesOf(p.round.placed, s)| == p.states[s].quota
  {
    SharedHasFewSlots(plan, p);
    SharedStates(plan, p, s);
    UnstaggeredPlanTakesFirstSlots(SHARED, 0, DAY, plan, p, s);
    StartsAtAnchor(p.states[s].grid, HorizonEnd(SHARED, DAY));
  }

  lemma MembersMaySend(st: TargetState, at: int)
    requires st.target in SHARED.targets
    ensures st.target.Names() != [] && st.target.InstanceMaySend(st.InstanceAt(at))
  {
    assert st.target.Names() == ["instance"];
  }

  lemma SharedMaySend(plan: Plan, p: Planning)
    requires IsPlanOf(SHARED, 0, DAY, plan, p)
    ensures AllMaySend(p.states, p.round.placed)
  {
    forall j | 0 <= j < |p.round.placed| ensures MaySendAt(p.states, p.round.placed[j]) {
      var placement := p.round.placed[j];
      SharedStates(plan, p, placement.state);
      MembersMaySend(p.states[placement.state], placement.at);
    }
  }

  /** Every plan of that input gives the group two messages where one is left. */
  lemma SharedGroupIsExceeded(plan: Plan, p: Planning)
    requires IsPlanOf(SHARED, 0, DAY, plan, p)
    ensures GroupSent(SHARED, "group", 0) && GroupRemaining(SHARED, 0) == 1
    ensures Sorting.Count(SlotOfGroup("group"), plan.slots) == 2
  {
    forall s | 0 <= s < |p.states| ensures |TimesOf(p.round.placed, s)| == p.states[s].quota {
      SharedIsFilled(plan, p, s);
    }
    SharedMaySend(plan, p);
    SlotsFit(SHARED, 0, DAY, plan, p, SlotOfGroup("group"), OfGroup("group"));
    QuotasOfShared(OfGroup("group"));
  }

  /** and the planner does plan it. */
  method PlanSharedGroup() returns (plan: Plan)
    ensures Sorting.Count(SlotOfGroup("group"), plan.slots) == 2 > GroupRemaining(SHARED, 0)
  {
    FirstDay();
    var planned;
    ghost var p;
    planned, p := PlanCommercialTargetSlots(SHARED);
    SharedOpens();
    plan := planned.value;
    SharedGroupIsExceeded(plan, p);
  }

  lemma SharedOpens()
    ensures OpensWithin72Hours(SHARED.ScheduleWindow())
    ensures forall t | t in SHARED.targets :: OpensWithin72Hours(t.TargetWindow(SHARED.schedule))
  {
    forall at ensures OpensWithin72HoursOf(SHARED.ScheduleWindow(), at) {
      assert SHARED.ScheduleWindow().Inside(at);
    }
    forall t | t in SHARED.targets ensures t.TargetWindow(SHARED.schedule) == SHARED.ScheduleWindow() {
    }
  }
}
