/** The readiness policy: why automation is blocked and when it may next run
    (apps/api/src/commercial-automation-policy-service.ts). */
module SchedulePolicy {
  import opened Wrappers
  import opened LocalClock

  const MAX_SAFE_INTEGER: int := 9_007_199_254_740_991

  datatype Reason =
    | AutomationDisabled
    | AutomationPaused
    | OutsideAllowedWindow
    | GlobalDailyLimitReached
    | GroupDailyLimitReached
    | MinimumIntervalNotReached
    | NoAuthorizedGroup
    | DuplicateLogicalGroup
    | TargetNotEligible
    | AmbiguousRunExists
    | ExecutionInProgress
    | StaleExecutionExists

  predicate IsHard(reason: Reason) {
    && !reason.OutsideAllowedWindow? && !reason.GlobalDailyLimitReached?
    && !reason.GroupDailyLimitReached? && !reason.MinimumIntervalNotReached?
  }

  datatype Schedule = Schedule(
    clock: Clock,
    allowedStart: int,
    allowedEnd: int,
    dailyGlobalLimit: int,
    dailyGroupLimit: int,
    minimumIntervalMinutes: int)

  datatype Target = Target(
    clock: Option<Clock>,
    allowedStart: Option<int>,
    allowedEnd: Option<int>,
    dailyLimit: int)

  datatype History = History(globalSentToday: int, groupSentToday: int, groupLastSentAt: Option<int>)

  function Or<T>(value: Option<T>, fallback: T): T {
    if value.Some? then value.value else fallback
  }

  predicate IsValidDailyQuota(value: int) {
    0 < value <= MAX_SAFE_INTEGER
  }

  datatype Input = Input(
    now: int,
    enabled: bool,
    paused: bool,
    schedule: Schedule,
    authorizedGroupCount: nat,
    target: Option<Target>,
    targetEligible: bool,
    duplicateLogicalGroup: bool,
    ambiguousExecution: bool,
    activeExecution: bool,
    staleExecution: bool,
    history: History)
  {
    function TargetWindow(): Window {
      if target.None? then Window(schedule.clock, schedule.allowedStart, schedule.allowedEnd)
      else Window(Or(target.value.clock, schedule.clock),
                  Or(target.value.allowedStart, schedule.allowedStart),
                  Or(target.value.allowedEnd, schedule.allowedEnd))
    }

    predicate GlobalLimitReached() {
      || !IsValidDailyQuota(schedule.dailyGlobalLimit)
      || history.globalSentToday >= schedule.dailyGlobalLimit
    }

    predicate CampaignQuotaValid() {
      target.Some? ==> IsValidDailyQuota(target.value.dailyLimit)
    }

    predicate GroupQuotaValid() {
      IsValidDailyQuota(schedule.dailyGroupLimit)
    }

    function EffectiveGroupLimit(): Option<int> {
      if target.Some? && CampaignQuotaValid() && GroupQuotaValid()
      then Some(Min(target.value.dailyLimit, schedule.dailyGroupLimit))
      else None
    }

    predicate GroupLimitReached() {
      EffectiveGroupLimit().Some? && history.groupSentToday >= EffectiveGroupLimit().value
    }

    /** The group's own last send counts, and only when there is a target. */
    function IntervalEndsAt(): Option<int> {
      if target.Some? && history.groupLastSentAt.Some?
      then Some(history.groupLastSentAt.value + schedule.minimumIntervalMinutes * MINUTE)
      else None
    }

    predicate IntervalNotReached() {
      IntervalEndsAt().Some? && IntervalEndsAt().value > now
    }

    /** The condition under which each reason is reported. */
    predicate Blocks(reason: Reason) {
      match reason
      case AutomationDisabled => !enabled
      case AutomationPaused => paused
      case OutsideAllowedWindow => !TargetWindow().Inside(now)
      case GlobalDailyLimitReached => GlobalLimitReached()
      case TargetNotEligible => target.Some? && (!targetEligible || !CampaignQuotaValid())
      case GroupDailyLimitReached => target.Some? && (!GroupQuotaValid() || GroupLimitReached())
      case MinimumIntervalNotReached => target.Some? && IntervalNotReached()
      case NoAuthorizedGroup => authorizedGroupCount == 0
      case DuplicateLogicalGroup => duplicateLogicalGroup
      case AmbiguousRunExists => ambiguousExecution
      case ExecutionInProgress => activeExecution
      case StaleExecutionExists => staleExecution
    }

    ghost predicate Allowed() {
      forall reason :: !Blocks(reason)
    }

    /** The same question asked at `t`, when nothing else was sent: the daily counts
        stand until the local day ends and restart at zero from then on. */
    function AskedAt(t: int, dayEndsAt: int): Input {
      if t < dayEndsAt then this.(now := t)
      else this.(now := t, history := history.(globalSentToday := 0, groupSentToday := 0))
    }
  }

  /** Inside the hours of the target, which are the schedule's where it has none of its own. */
  ghost predicate IsInHours(i: Input) {
    Window(if i.target.Some? && i.target.value.clock.Some? then i.target.value.clock.value else i.schedule.clock,
           if i.target.Some? && i.target.value.allowedStart.Some? then i.target.value.allowedStart.value
           else i.schedule.allowedStart,
           if i.target.Some? && i.target.value.allowedEnd.Some? then i.target.value.allowedEnd.value
           else i.schedule.allowedEnd).Inside(i.now)
  }

  /** Nothing stands in the way but what time alone can lift. */
  ghost predicate NeedsOnlyTime(i: Input) {
    && i.enabled && !i.paused && i.authorizedGroupCount > 0 && !i.duplicateLogicalGroup
    && !i.ambiguousExecution && !i.activeExecution && !i.staleExecution
    && (i.target.Some? ==> i.targetEligible && 0 < i.target.value.dailyLimit <= MAX_SAFE_INTEGER)
  }

  /** In hours, below both limits, and not too soon after the group's last message. */
  ghost predicate IsTime(i: Input) {
    && IsInHours(i)
    && 0 < i.schedule.dailyGlobalLimit <= MAX_SAFE_INTEGER && i.history.globalSentToday < i.schedule.dailyGlobalLimit
    && (i.target.Some? ==>
          && 0 < i.schedule.dailyGroupLimit <= MAX_SAFE_INTEGER
          && (0 < i.target.value.dailyLimit <= MAX_SAFE_INTEGER ==>
                i.history.groupSentToday < i.schedule.dailyGroupLimit && i.history.groupSentToday < i.target.value.dailyLimit)
          && (i.history.groupLastSentAt.Some? ==>
                i.history.groupLastSentAt.value + i.schedule.minimumIntervalMinutes * MINUTE <= i.now))
  }

  /** What each reason reported says of the input. A target's limits count for a reason only
      when they can be met at all; a limit that cannot is reported by itself. */
  lemma ReasonsMeanWhatTheySay(i: Input)
    ensures i.Blocks(AutomationDisabled) <==> !i.enabled
    ensures i.Blocks(AutomationPaused) <==> i.paused
    ensures i.Blocks(OutsideAllowedWindow) <==> !IsInHours(i)
    ensures i.Blocks(GlobalDailyLimitReached)
       <==> !(0 < i.schedule.dailyGlobalLimit <= MAX_SAFE_INTEGER
              && i.history.globalSentToday < i.schedule.dailyGlobalLimit)
    ensures i.Blocks(NoAuthorizedGroup) <==> i.authorizedGroupCount == 0
    ensures i.Blocks(DuplicateLogicalGroup) <==> i.duplicateLogicalGroup
    ensures i.Blocks(AmbiguousRunExists) <==> i.ambiguousExecution
    ensures i.Blocks(ExecutionInProgress) <==> i.activeExecution
    ensures i.Blocks(StaleExecutionExists) <==> i.staleExecution
    ensures i.target.None? ==> !i.Blocks(TargetNotEligible) && !i.Blocks(GroupDailyLimitReached)
                               && !i.Blocks(MinimumIntervalNotReached)
    ensures i.target.Some? ==>
              var own, group, sent := i.target.value.dailyLimit, i.schedule.dailyGroupLimit, i.history.groupSentToday;
              var ownIsValid, groupIsValid := 0 < own <= MAX_SAFE_INTEGER, 0 < group <= MAX_SAFE_INTEGER;
              && (i.Blocks(TargetNotEligible) <==> !i.targetEligible || !ownIsValid)
              && (i.Blocks(GroupDailyLimitReached) <==> !groupIsValid || (ownIsValid && (own <= sent || group <= sent)))
              && (i.Blocks(MinimumIntervalNotReached)
                  <==> && i.history.groupLastSentAt.Some?
                       && i.now < i.history.groupLastSentAt.value + i.schedule.minimumIntervalMinutes * MINUTE)
  {
  }

  /** The reasons in these terms: the policy allows what needs only time when it is time. */
  lemma AllowedExactlyWhen(i: Input)
    ensures i.Allowed() <==> NeedsOnlyTime(i) && IsTime(i)
    ensures NeedsOnlyTime(i) <==> forall reason :: i.Blocks(reason) ==> !IsHard(reason)
  {
    assert i.TargetWindow().Inside(i.now) <==> IsInHours(i);
    var hard := || i.Blocks(AutomationDisabled) || i.Blocks(AutomationPaused) || i.Blocks(TargetNotEligible)
                || i.Blocks(NoAuthorizedGroup) || i.Blocks(DuplicateLogicalGroup) || i.Blocks(AmbiguousRunExists)
                || i.Blocks(ExecutionInProgress) || i.Blocks(StaleExecutionExists);
    assert !hard <==> NeedsOnlyTime(i);
    var soft := || i.Blocks(OutsideAllowedWindow) || i.Blocks(GlobalDailyLimitReached)
                || i.Blocks(GroupDailyLimitReached) || i.Blocks(MinimumIntervalNotReached);
    assert !soft <==> IsTime(i);
  }

  /** `OpeningNotFound` is the error raised when a window stays closed for 72 hours. */
  datatype Status =
    | Status(allowed: bool, reasons: seq<Reason>, nextAllowedAt: Option<int>,
             globalRemainingToday: int, groupRemainingToday: Option<int>)
    | OpeningNotFound

  function Latest(candidates: seq<int>): (r: int)
    requires |candidates| > 0
    ensures r in candidates && forall c | c in candidates :: c <= r
  {
    if |candidates| == 1 then candidates[0]
    else
      var rest := Latest(candidates[1..]);
      assert candidates == [candidates[0]] + candidates[1..];
      Max(candidates[0], rest)
  }

  ghost predicate IsSoftBlock(reasons: seq<Reason>) {
    reasons != [] && forall reason | reason in reasons :: !IsHard(reason)
  }

  /** What every instant the policy allows has to satisfy, and the instant that first does. */
  ghost predicate MeetsWaits(i: Input, dayEndsAt: int, t: int) {
    && i.TargetWindow().Inside(t)
    && (i.Blocks(GlobalDailyLimitReached) || i.Blocks(GroupDailyLimitReached) ==> dayEndsAt <= t)
    && (i.IntervalEndsAt().Some? ==> i.IntervalEndsAt().value <= t)
  }

  /** The order in which the reasons are examined and reported. */
  const REPORT_ORDER: seq<Reason> :=
    [ AutomationDisabled, AutomationPaused, OutsideAllowedWindow, GlobalDailyLimitReached,
      TargetNotEligible, GroupDailyLimitReached, MinimumIntervalNotReached, NoAuthorizedGroup,
      DuplicateLogicalGroup, AmbiguousRunExists, ExecutionInProgress, StaleExecutionExists ]

  function Reported(i: Input, order: seq<Reason>): (reasons: seq<Reason>)
    ensures forall reason :: reason in reasons <==> reason in order && i.Blocks(reason)
  {
    if order == [] then []
    else (if i.Blocks(order[0]) then [order[0]] else []) + Reported(i, order[1..])
  }

  lemma EveryReasonIsExamined(reason: Reason)
    ensures reason in REPORT_ORDER
  {
    var k := match reason
      case AutomationDisabled => 0
      case AutomationPaused => 1
      case OutsideAllowedWindow => 2
      case GlobalDailyLimitReached => 3
      case TargetNotEligible => 4
      case GroupDailyLimitReached => 5
      case MinimumIntervalNotReached => 6
      case NoAuthorizedGroup => 7
      case DuplicateLogicalGroup => 8
      case AmbiguousRunExists => 9
      case ExecutionInProgress => 10
      case StaleExecutionExists => 11;
    assert REPORT_ORDER[k] == reason;
  }

  /** Collects one instant per soft reason; the window is sought again from the latest. */
  method NextAllowedAt(i: Input, dayEndsAt: int) returns (r: Option<int>)
    requires i.now < dayEndsAt
    requires exists reason :: i.Blocks(reason)
    requires forall reason :: i.Blocks(reason) ==> !IsHard(reason)
    ensures r.Some? ==>
              && i.now <= r.value && MeetsWaits(i, dayEndsAt, r.value)
              && forall u | i.now <= u < r.value :: !MeetsWaits(i, dayEndsAt, u)
    ensures r.None? ==> !OpensWithin72Hours(i.TargetWindow())
  {
    var w := i.TargetWindow();
    var outside := i.Blocks(OutsideAllowedWindow);
    var limited := i.Blocks(GlobalDailyLimitReached) || i.Blocks(GroupDailyLimitReached);
    var waiting := i.Blocks(MinimumIntervalNotReached);
    assert outside || limited || waiting;
    var candidates: seq<int> := [];
    if outside {
      var opening := NextWindowOpeningAtOrAfter(w, i.now);
      NextOpeningExact(w, i.now);
      if opening.None? {
        NeverOpensSoon(w, i.now);
        return None;
      }
      candidates := [opening.value];
    }
    if limited {
      candidates := candidates + [dayEndsAt];
    }
    if waiting {
      candidates := candidates + [i.IntervalEndsAt().value];
    }
    var latest := Latest(candidates);
    assert i.now <= latest;
    assert limited ==> dayEndsAt in candidates;
    assert waiting ==> i.IntervalEndsAt().value in candidates;
    r := NextWindowOpeningAtOrAfter(w, latest);
    NextOpeningExact(w, latest);
    if r.None? {
      NeverOpensSoon(w, latest);
      return;
    }
    forall u | i.now <= u < r.value ensures !MeetsWaits(i, dayEndsAt, u) {
      assert u < latest ==> latest in candidates;
    }
  }

  function GlobalRemaining(i: Input): int {
    Max(0, if IsValidDailyQuota(i.schedule.dailyGlobalLimit)
           then i.schedule.dailyGlobalLimit - i.history.globalSentToday else 0)
  }

  function GroupRemaining(i: Input): Option<int> {
    if i.target.None? then None
    else Some(Max(0, if i.EffectiveGroupLimit().Some?
                     then i.EffectiveGroupLimit().value - i.history.groupSentToday else 0))
  }

  /** What is reported as left is exactly how many more messages the limits allow; it is
      nothing whenever the policy reports a limit as reached. */
  lemma RemainingIsWhatLimitsAllow(i: Input, n: int)
    requires 0 < n
    ensures n <= GlobalRemaining(i)
       <==> 0 < i.schedule.dailyGlobalLimit <= MAX_SAFE_INTEGER
            && i.history.globalSentToday + n <= i.schedule.dailyGlobalLimit
    ensures i.target.Some? ==>
              GroupRemaining(i).Some? &&
              (n <= GroupRemaining(i).value
               <==> && 0 < i.schedule.dailyGroupLimit <= MAX_SAFE_INTEGER
                    && 0 < i.target.value.dailyLimit <= MAX_SAFE_INTEGER
                    && i.history.groupSentToday + n <= i.schedule.dailyGroupLimit
                    && i.history.groupSentToday + n <= i.target.value.dailyLimit)
    ensures i.target.None? ==> GroupRemaining(i).None?
    ensures i.Blocks(GlobalDailyLimitReached) <==> GlobalRemaining(i) == 0
    ensures i.Blocks(GroupDailyLimitReached) ==> GroupRemaining(i) == Some(0)
  {
  }

  method BuildStatus(i: Input, dayEndsAt: int) returns (status: Status)
    requires i.now < dayEndsAt
    ensures status.Status? ==> status.reasons == Reported(i, REPORT_ORDER)
    ensures status.Status? ==> forall reason :: reason in status.reasons <==> i.Blocks(reason)
    ensures status.Status? ==> status.allowed == (status.reasons == [])
    ensures status.Status? ==> (status.nextAllowedAt.Some? <==> IsSoftBlock(status.reasons))
    ensures status.Status? && status.nextAllowedAt.Some? ==>
              var t := status.nextAllowedAt.value;
              && i.now <= t && MeetsWaits(i, dayEndsAt, t)
              && forall u | i.now <= u < t :: !MeetsWaits(i, dayEndsAt, u)
    ensures status.OpeningNotFound? ==> !OpensWithin72Hours(i.TargetWindow())
    ensures status.Status? ==>
              status.globalRemainingToday == GlobalRemaining(i) && status.groupRemainingToday == GroupRemaining(i)
  {
    var reasons := Reported(i, REPORT_ORDER);
    forall reason ensures reason in reasons <==> i.Blocks(reason) {
      EveryReasonIsExamined(reason);
    }
    var nextAllowedAt := None;
    var hardBlocked := exists k | 0 <= k < |reasons| :: IsHard(reasons[k]);
    if |reasons| > 0 && !hardBlocked {
      assert i.Blocks(reasons[0]);
      nextAllowedAt := NextAllowedAt(i, dayEndsAt);
      if nextAllowedAt.None? {
        return OpeningNotFound;
      }
    }
    status := Status(
      |reasons| == 0, reasons, nextAllowedAt,
      GlobalRemaining(i), GroupRemaining(i));
  }

  lemma NeverOpensSoon(w: Window, t: int)
    requires NextOpening(w, t).None?
    ensures !OpensWithin72Hours(w)
  {
    if OpensWithin72Hours(w) {
      NextOpeningExists(w, t);
    }
  }

  /** The limits configured can be met at all. */
  ghost predicate QuotasValid(i: Input) {
    && 0 < i.schedule.dailyGlobalLimit <= MAX_SAFE_INTEGER
    && (i.target.Some? ==> 0 < i.schedule.dailyGroupLimit <= MAX_SAFE_INTEGER)
  }

  /** Under a soft block, an instant is allowed exactly when it meets the waits and
      the configured quotas can be met at all. */
  lemma AllowedWhenWaitsAreMet(i: Input, dayEndsAt: int, t: int)
    requires i.now <= t && i.now < dayEndsAt
    requires forall reason :: i.Blocks(reason) ==> !IsHard(reason)
    ensures i.AskedAt(t, dayEndsAt).Allowed() <==> MeetsWaits(i, dayEndsAt, t) && QuotasValid(i)
  {
    var asked := i.AskedAt(t, dayEndsAt);
    assert !i.Blocks(AutomationDisabled) && !i.Blocks(AutomationPaused) && !i.Blocks(TargetNotEligible);
    assert !i.Blocks(NoAuthorizedGroup) && !i.Blocks(DuplicateLogicalGroup) && !i.Blocks(AmbiguousRunExists);
    assert !i.Blocks(ExecutionInProgress) && !i.Blocks(StaleExecutionExists);
    assert asked.Blocks(OutsideAllowedWindow) <==> !i.TargetWindow().Inside(t);
    if asked.Allowed() {
      assert !asked.Blocks(OutsideAllowedWindow) && !asked.Blocks(GlobalDailyLimitReached);
      assert !asked.Blocks(GroupDailyLimitReached) && !asked.Blocks(MinimumIntervalNotReached);
    }
  }

  /** The first instant that meets the waits is the first at which it is time. */
  lemma FirstWaitIsFirstTime(i: Input, dayEndsAt: int, t: int)
    requires i.now < dayEndsAt && NeedsOnlyTime(i)
    requires i.now <= t && MeetsWaits(i, dayEndsAt, t)
    requires forall u | i.now <= u < t :: !MeetsWaits(i, dayEndsAt, u)
    ensures IsTime(i.AskedAt(t, dayEndsAt)) <==> QuotasValid(i)
    ensures forall u | i.now <= u < t :: !IsTime(i.AskedAt(u, dayEndsAt))
  {
    AllowedExactlyWhen(i);
    AllowedWhenWaitsAreMet(i, dayEndsAt, t);
    AllowedExactlyWhen(i.AskedAt(t, dayEndsAt));
    forall u | i.now <= u < t ensures !IsTime(i.AskedAt(u, dayEndsAt)) {
      AllowedWhenWaitsAreMet(i, dayEndsAt, u);
      AllowedExactlyWhen(i.AskedAt(u, dayEndsAt));
    }
  }

  /** Asks for the status now and reports the first instant the policy allows. */
  method EvaluateAutomationReadiness(i: Input) returns (status: Status, dayEndsAt: int)
    requires HasLocalDay(i.schedule.clock, i.now)
    ensures exists lo :: IsLocalDay(i.schedule.clock, i.now, lo, dayEndsAt)
    ensures status.Status? ==> (status.allowed <==> NeedsOnlyTime(i) && IsTime(i))
    ensures status.Status? ==> (status.nextAllowedAt.Some? <==> NeedsOnlyTime(i) && !IsTime(i))
    ensures status.Status? && status.nextAllowedAt.Some? ==>
              var t := status.nextAllowedAt.value;
              && i.now <= t
              && (IsTime(i.AskedAt(t, dayEndsAt)) <==> QuotasValid(i))
              && forall u | i.now <= u < t :: !IsTime(i.AskedAt(u, dayEndsAt))
    ensures OpensWithin72Hours(i.TargetWindow()) ==> status.Status?
  {
    var dayStartsAt;
    dayStartsAt, dayEndsAt := GetLocalDayRange(i.schedule.clock, i.now);
    status := BuildStatus(i, dayEndsAt);
    AllowedExactlyWhen(i);
    if status.Status? {
      if status.reasons != [] {
        assert status.reasons[0] in status.reasons;
      }
      if status.nextAllowedAt.Some? {
        FirstWaitIsFirstTime(i, dayEndsAt, status.nextAllowedAt.value);
      }
    }
  }
}
