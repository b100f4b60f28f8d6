/** Local clocks, posting windows and local-day bounds
    (apps/api/src/commercial-automation-policy-service.ts).

    Instants are integer milliseconds. A timezone is a function from the index of
    a minute to the local date and minute of day, so the local time is constant
    within each minute. */
module LocalClock {
  import opened Wrappers

  const MINUTE: int := 60_000
  const BOUNDARY_STEP: int := 6 * 60 * MINUTE
  const OPENING_SEARCH_MINUTES: nat := 72 * 60

  datatype LocalTime = LocalTime(day: int, minuteOfDay: int)

  type Clock = int -> LocalTime

  function LocalAt(clock: Clock, t: int): LocalTime {
    clock(t / MINUTE)
  }

  /** A posting window, in minutes of the local day of its own timezone. */
  datatype Window = Window(clock: Clock, start: int, end: int) {
    predicate Inside(t: int) {
      var current := LocalAt(clock, t).minuteOfDay;
      if start < end then start <= current < end else start <= current || current < end
    }
  }

  /** The hours of a window: from its start up to, but not at, its end; over midnight, all but
      those from its end up to its start; and all day if the two are equal. */
  lemma OpenHours(w: Window, t: int)
    ensures var m := w.clock(t / MINUTE).minuteOfDay;
      && (w.start < w.end ==> (w.Inside(t) <==> w.start <= m && m < w.end))
      && (w.start > w.end ==> (w.Inside(t) <==> !(w.end <= m && m < w.start)))
      && (w.start == w.end ==> w.Inside(t))
  {
  }

  function CeilMinute(t: int): (m: int)
    ensures t <= m < t + MINUTE && m % MINUTE == 0
  {
    (t + MINUTE - 1) / MINUTE * MINUTE
  }

  // ---------------------------------------------------------------------------
  // The next opening of a window
  // ---------------------------------------------------------------------------

  /** The first open minute among those with index `m` up to, but not, `end`. */
  function OpeningFrom(w: Window, m: int, end: int): Option<int>
    decreases end - m
  {
    if end <= m then None
    else if w.Inside(m * MINUTE) then Some(m * MINUTE)
    else OpeningFrom(w, m + 1, end)
  }

  function NextOpening(w: Window, t: int): Option<int> {
    if w.Inside(t) then Some(t)
    else OpeningFrom(w, t / MINUTE + 1, t / MINUTE + 1 + OPENING_SEARCH_MINUTES)
  }

  /** `r` is the first instant, to the millisecond, from `t` on that is inside the window. */
  ghost predicate IsFirstOpening(w: Window, t: int, r: int) {
    && t <= r
    && w.Inside(r)
    && forall u | t <= u < r :: !w.Inside(u)
  }

  lemma InsideByMinute(w: Window, t: int)
    ensures w.Inside(t) == w.Inside(t / MINUTE * MINUTE)
  {
    assert t / MINUTE * MINUTE / MINUTE == t / MINUTE;
  }

  lemma {:induction false} OpeningFromExact(w: Window, m: int, end: int)
    ensures OpeningFrom(w, m, end).Some? ==> IsFirstOpening(w, m * MINUTE, OpeningFrom(w, m, end).value)
    ensures OpeningFrom(w, m, end).Some? ==> OpeningFrom(w, m, end).value % MINUTE == 0
    ensures OpeningFrom(w, m, end).None? ==> forall u | m * MINUTE <= u < end * MINUTE :: !w.Inside(u)
    decreases end - m
  {
    if m < end && !w.Inside(m * MINUTE) {
      OpeningFromExact(w, m + 1, end);
      forall u | m * MINUTE <= u < (m + 1) * MINUTE ensures !w.Inside(u) {
        InsideByMinute(w, u);
        assert u / MINUTE == m;
      }
    }
  }

  /** The search is exact to the millisecond, and fails only when the window stays
      closed for 72 hours from the next minute on. */
  lemma NextOpeningExact(w: Window, t: int)
    ensures NextOpening(w, t).Some? ==> IsFirstOpening(w, t, NextOpening(w, t).value)
    ensures NextOpening(w, t).Some? && t % MINUTE == 0 ==> NextOpening(w, t).value % MINUTE == 0
    ensures NextOpening(w, t).None? ==>
              forall u | t <= u < (t / MINUTE + 1 + OPENING_SEARCH_MINUTES) * MINUTE :: !w.Inside(u)
  {
    if !w.Inside(t) {
      var m := t / MINUTE + 1;
      OpeningFromExact(w, m, m + OPENING_SEARCH_MINUTES);
      forall u | t <= u < m * MINUTE ensures !w.Inside(u) {
        InsideByMinute(w, u);
        InsideByMinute(w, t);
        assert u / MINUTE == t / MINUTE;
      }
    }
  }

  ghost predicate OpensWithin72HoursOf(w: Window, t: int) {
    exists u :: t <= u <= t + OPENING_SEARCH_MINUTES * MINUTE && w.Inside(u)
  }

  /** What a timezone must provide for the search never to fail. */
  ghost predicate OpensWithin72Hours(w: Window) {
    forall t :: OpensWithin72HoursOf(w, t)
  }

  lemma NextOpeningExists(w: Window, t: int)
    requires OpensWithin72Hours(w)
    ensures NextOpening(w, t).Some?
  {
    NextOpeningExact(w, t);
    assert OpensWithin72HoursOf(w, t);
    var u :| t <= u <= t + OPENING_SEARCH_MINUTES * MINUTE && w.Inside(u);
  }

  /** `None` stands for the error the search raises. */
  method NextWindowOpeningAtOrAfter(w: Window, t: int) returns (r: Option<int>)
    ensures r == NextOpening(w, t)
  {
    if w.Inside(t) {
      return Some(t);
    }
    var candidate := CeilMinute(t);
    if candidate <= t {
      candidate := candidate + MINUTE;
    }
    ghost var m := t / MINUTE + 1;
    assert candidate == m * MINUTE;
    for minute := 0 to OPENING_SEARCH_MINUTES
      invariant OpeningFrom(w, m, m + OPENING_SEARCH_MINUTES)
             == OpeningFrom(w, m + minute, m + OPENING_SEARCH_MINUTES)
    {
      var instant := candidate + minute * MINUTE;
      assert instant == (m + minute) * MINUTE;
      if w.Inside(instant) {
        return Some(instant);
      }
    }
    return None;
  }

  // ---------------------------------------------------------------------------
  // The local day around an instant
  // ---------------------------------------------------------------------------

  predicate SameLocalDay(clock: Clock, s: int, t: int) {
    LocalAt(clock, s).day == LocalAt(clock, t).day
  }

  /** The local day of `now` is exactly the interval [lo, hi). */
  ghost predicate IsLocalDay(clock: Clock, now: int, lo: int, hi: int) {
    && lo <= now < hi
    && forall t :: SameLocalDay(clock, now, t) <==> lo <= t < hi
  }

  ghost predicate HasLocalDay(clock: Clock, now: int) {
    exists lo, hi :: IsLocalDay(clock, now, lo, hi)
  }

  lemma LocalDayUnique(clock: Clock, s: int, t: int, lo: int, hi: int, lo': int, hi': int)
    requires IsLocalDay(clock, s, lo, hi) && IsLocalDay(clock, t, lo', hi') && lo <= t < hi
    ensures lo == lo' && hi == hi'
  {
    assert SameLocalDay(clock, s, t);
    assert SameLocalDay(clock, s, lo) && SameLocalDay(clock, s, hi - 1);
    assert SameLocalDay(clock, t, lo) && SameLocalDay(clock, t, hi - 1);
    assert SameLocalDay(clock, t, lo') && SameLocalDay(clock, t, hi' - 1);
    assert SameLocalDay(clock, s, lo') && SameLocalDay(clock, s, hi' - 1);
  }

  datatype Direction = Backward | Forward

  /** Steps by six hours until outside the day, then bisects to the millisecond. */
  method FindBoundary(clock: Clock, now: int, direction: Direction) returns (boundary: int)
    requires HasLocalDay(clock, now)
    ensures forall lo, hi | IsLocalDay(clock, now, lo, hi) ::
              boundary == if direction.Backward? then lo else hi
  {
    ghost var lo, hi :| IsLocalDay(clock, now, lo, hi);
    var step := if direction.Backward? then -BOUNDARY_STEP else BOUNDARY_STEP;
    var inside := now;
    var outside := inside + step;
    while SameLocalDay(clock, now, outside)
      invariant outside == inside + step && lo <= inside < hi
      decreases if direction.Backward? then outside - lo else hi - outside
    {
      inside := outside;
      outside := outside + step;
    }
    var lower, upper := Min(inside, outside), Max(inside, outside);
    while upper - lower > 1
      invariant lower < upper
      invariant direction.Backward? ==> lower < lo <= upper < hi
      invariant direction.Forward? ==> lo <= lower < hi <= upper
    {
      var middle := (lower + upper) / 2;
      if SameLocalDay(clock, now, middle) == direction.Backward? {
        upper := middle;
      } else {
        lower := middle;
      }
    }
    boundary := upper;
    forall lo', hi' | IsLocalDay(clock, now, lo', hi')
      ensures boundary == if direction.Backward? then lo' else hi'
    {
      LocalDayUnique(clock, now, now, lo, hi, lo', hi');
    }
  }

  method GetLocalDayRange(clock: Clock, now: int) returns (dayStartsAt: int, dayEndsAt: int)
    requires HasLocalDay(clock, now)
    ensures IsLocalDay(clock, now, dayStartsAt, dayEndsAt)
  {
    dayStartsAt := FindBoundary(clock, now, Backward);
    dayEndsAt := FindBoundary(clock, now, Forward);
  }
}
