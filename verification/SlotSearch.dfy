/** Searching a target's posting slots
    (apps/api/src/commercial-automation-scheduler-planner.ts:137-289). */
module SlotSearch {
  import opened Wrappers
  import opened LocalClock
  import opened Arithmetic

  const SEARCH_ATTEMPTS: nat := 24 * 60 * 2

  // ---------------------------------------------------------------------------
  // The first minute inside two windows
  // ---------------------------------------------------------------------------

  datatype Search = Found(at: int) | NoSlot | OpeningNotFound

  /** The bounded search from the minute `t`, jumping from opening to opening. */
  function ValidFrom(a: Window, b: Window, t: int, horizon: int, fuel: nat): Search
    decreases fuel
  {
    if fuel == 0 || t > horizon then NoSlot
    else
      var closed := if !a.Inside(t) then Some(a) else if !b.Inside(t) then Some(b) else None;
      if closed.None? then Found(t)
      else
        var opening := NextOpening(closed.value, t);
        if opening.None? then OpeningNotFound
        else ValidFrom(a, b, opening.value, horizon, fuel - 1)
  }

  function NextValidSlot(a: Window, b: Window, candidate: int, horizon: int): Search {
    ValidFrom(a, b, CeilMinute(candidate), horizon, SEARCH_ATTEMPTS)
  }

  predicate InsideBoth(a: Window, b: Window, t: int) {
    a.Inside(t) && b.Inside(t)
  }

  lemma {:induction false} ValidFromExact(a: Window, b: Window, t: int, horizon: int, fuel: nat)
    requires t % MINUTE == 0
    ensures var r := ValidFrom(a, b, t, horizon, fuel);
      && (r.Found? ==>
            && t <= r.at <= horizon && r.at % MINUTE == 0 && InsideBoth(a, b, r.at)
            && forall u | t <= u < r.at :: !InsideBoth(a, b, u))
      && (r.NoSlot? ==> forall u | t <= u <= horizon && u < t + fuel * MINUTE :: !InsideBoth(a, b, u))
      && (r.OpeningNotFound? ==> !OpensWithin72Hours(a) || !OpensWithin72Hours(b))
    decreases fuel
  {
    if fuel > 0 && t <= horizon && !InsideBoth(a, b, t) {
      var closed := if !a.Inside(t) then a else b;
      NextOpeningExact(closed, t);
      if NextOpening(closed, t).Some? {
        var u := NextOpening(closed, t).value;
        assert u % MINUTE == 0 && t < u && t + MINUTE <= u;
        ValidFromExact(a, b, u, horizon, fuel - 1);
      } else if OpensWithin72Hours(closed) {
        NextOpeningExists(closed, t);
      }
    }
  }

  /** `findNextValidSlot` is exact: the least minute at or after the candidate inside
      both windows, and nothing only if there is none, while the span to search is
      shorter than the attempt cap in minutes. */
  lemma NextValidSlotExact(a: Window, b: Window, candidate: int, horizon: int)
    ensures var r := NextValidSlot(a, b, candidate, horizon);
      && (r.Found? ==>
            && candidate <= r.at <= horizon && r.at % MINUTE == 0 && InsideBoth(a, b, r.at)
            && forall u | candidate <= u < r.at && u % MINUTE == 0 :: !InsideBoth(a, b, u))
      && (r.NoSlot? && horizon < candidate + SEARCH_ATTEMPTS * MINUTE ==>
            forall u | candidate <= u <= horizon && u % MINUTE == 0 :: !InsideBoth(a, b, u))
      && (r.OpeningNotFound? ==> !OpensWithin72Hours(a) || !OpensWithin72Hours(b))
  {
    var t := CeilMinute(candidate);
    ValidFromExact(a, b, t, horizon, SEARCH_ATTEMPTS);
    assert forall u | candidate <= u && u % MINUTE == 0 :: t <= u;
  }

  method FindNextValidSlot(a: Window, b: Window, candidate: int, horizon: int) returns (r: Search)
    ensures r == NextValidSlot(a, b, candidate, horizon)
  {
    var timestamp := CeilMinute(candidate);
    for attempt := 0 to SEARCH_ATTEMPTS
      invariant NextValidSlot(a, b, candidate, horizon)
             == ValidFrom(a, b, timestamp, horizon, SEARCH_ATTEMPTS - attempt)
    {
      if timestamp > horizon {
        return NoSlot;
      }
      if !a.Inside(timestamp) {
        var opening := NextWindowOpeningAtOrAfter(a, timestamp);
        if opening.None? {
          return OpeningNotFound;
        }
        timestamp := opening.value;
        continue;
      }
      if !b.Inside(timestamp) {
        var opening := NextWindowOpeningAtOrAfter(b, timestamp);
        if opening.None? {
          return OpeningNotFound;
        }
        timestamp := opening.value;
        continue;
      }
      return Found(timestamp);
    }
    return NoSlot;
  }

  // ---------------------------------------------------------------------------
  // The first usable point of a target's grid
  // ---------------------------------------------------------------------------

  type Positive = n: int | 0 < n witness 1

  /** The points anchor, anchor + step, ... of a target, and the two windows a slot
      has to be in. */
  datatype Grid = Grid(schedule: Window, target: Window, anchor: int, intervalMinutes: Positive) {
    function Step(): (s: int)
      ensures s >= MINUTE
    {
      intervalMinutes * MINUTE
    }

    function Point(k: nat): int
    {
      anchor + k * Step()
    }

    predicate Usable(t: int) {
      InsideBoth(schedule, target, t)
    }

    /** The index of the last point at or before `t`, never negative. */
    function SlotIndex(t: int): nat
    {
      Max(0, (t - anchor) / Step())
    }

    /** The index of the first point at or after `t`. */
    function IndexAtOrAfter(t: int): nat
    {
      Max(0, (t - anchor + Step() - 1) / Step())
    }

    /** `t` is a point of the grid that may be posted at. */
    predicate IsSlot(t: int)
    {
      t == Point(SlotIndex(t)) && Usable(t)
    }
  }

  lemma PointIsMonotone(g: Grid, j: nat, k: nat)
    requires j <= k
    ensures g.Point(k) == g.Point(j) + (k - j) * g.Step()
    ensures g.Point(j) <= g.Point(k)
    ensures j < k ==> g.Point(j) + g.Step() <= g.Point(k)
  {
    Scale(j, k, g.Step());
  }

  lemma Scale(j: nat, k: nat, s: int)
    requires j <= k && 0 <= s
    ensures k * s == j * s + (k - j) * s
    ensures 0 <= (k - j) * s
    ensures j < k ==> s <= (k - j) * s
  {
    MulDistributes(k, j, s);
    MulMonotone(0, k - j, s);
    if j < k {
      MulMonotone(1, k - j, s);
    }
  }

  /** Both index functions invert `Point`. */
  lemma IndicesInvertPoint(g: Grid, k: nat)
    ensures g.SlotIndex(g.Point(k)) == k
    ensures g.IndexAtOrAfter(g.Point(k)) == k
  {
    DivideMultiple(k, 0, g.Step());
    DivideMultiple(k, g.Step() - 1, g.Step());
  }

  lemma CeilingQuotient(d: int, s: int, j: nat)
    requires 0 < s
    ensures d <= (d + s - 1) / s * s
    ensures d <= j * s ==> (d + s - 1) / s <= j
    ensures (d + s - 1) / s < 0 ==> d <= 0
  {
    var q := (d + s - 1) / s;
    DivideExact(d + s - 1, s);
    if j < q {
      MulMonotone(j + 1, q, s);
      MulDistributes(j, 1, s);
    }
    if q < 0 {
      MulMonotone(q, 0, s);
    }
  }

  lemma IndexAtOrAfterExact(g: Grid, t: int)
    ensures t <= g.Point(g.IndexAtOrAfter(t))
    ensures forall j: nat | t <= g.Point(j) :: g.IndexAtOrAfter(t) <= j
  {
    CeilingQuotient(t - g.anchor, g.Step(), 0);
    forall j: nat | t <= g.Point(j) ensures g.IndexAtOrAfter(t) <= j {
      CeilingQuotient(t - g.anchor, g.Step(), j);
    }
  }

  /** The scan of the grid from index `k` up to, but not, index `end`. */
  function GridFrom(g: Grid, k: nat, horizon: int, end: nat): Option<int>
    decreases end - k
  {
    if end <= k || g.Point(k) > horizon then None
    else if g.Usable(g.Point(k)) then Some(g.Point(k))
    else GridFrom(g, k + 1, horizon, end)
  }

  function NextGridSlot(g: Grid, candidate: int, horizon: int): Option<int>
  {
    GridFrom(g, g.IndexAtOrAfter(candidate), horizon, g.IndexAtOrAfter(candidate) + SEARCH_ATTEMPTS)
  }

  /** No point of the grid from `from` up to the horizon can be posted at. */
  ghost predicate NoneLeft(g: Grid, from: int, horizon: int)
  {
    forall j: nat :: from <= g.Point(j) <= horizon ==> !g.Usable(g.Point(j))
  }

  /** `t` is the first point from `from` on that can be posted at. */
  ghost predicate IsFirstSlot(g: Grid, from: int, horizon: int, t: int)
  {
    && g.IsSlot(t) && from <= t <= horizon
    && forall j: nat :: from <= g.Point(j) < t ==> !g.Usable(g.Point(j))
  }

  lemma {:induction false} GridFromExact(g: Grid, k: nat, horizon: int, end: nat)
    ensures GridFrom(g, k, horizon, end).Some? ==>
              IsFirstSlot(g, g.Point(k), horizon, GridFrom(g, k, horizon, end).value)
    ensures GridFrom(g, k, horizon, end).None? && k <= end && horizon < g.Point(end) ==>
              NoneLeft(g, g.Point(k), horizon)
    decreases end - k
  {
    if k < end && g.Point(k) <= horizon {
      IndicesInvertPoint(g, k);
      if !g.Usable(g.Point(k)) {
        GridFromExact(g, k + 1, horizon, end);
      }
      forall j: nat | g.Point(k) <= g.Point(j) ensures j == k || g.Point(k + 1) <= g.Point(j) {
        if j < k {
          PointIsMonotone(g, j, k);
        } else if j > k {
          PointIsMonotone(g, k + 1, j);
        }
      }
      PointIsMonotone(g, k, k + 1);
    }
  }

  /** `findNextGridSlot` is exact: the least usable grid point at or after the
      candidate; and nothing only if there is none, while the span to search is
      shorter than the attempt cap in minutes. */
  lemma NextGridSlotExact(g: Grid, candidate: int, horizon: int)
    ensures NextGridSlot(g, candidate, horizon).Some? ==>
              IsFirstSlot(g, candidate, horizon, NextGridSlot(g, candidate, horizon).value)
    ensures NextGridSlot(g, candidate, horizon).None? && horizon < candidate + SEARCH_ATTEMPTS * MINUTE ==>
              NoneLeft(g, candidate, horizon)
  {
    var k := g.IndexAtOrAfter(candidate);
    IndexAtOrAfterExact(g, candidate);
    GridFromExact(g, k, horizon, k + SEARCH_ATTEMPTS);
    PointIsMonotone(g, k, k + SEARCH_ATTEMPTS);
    assert SEARCH_ATTEMPTS * g.Step() >= SEARCH_ATTEMPTS * MINUTE;
    forall j: nat | candidate <= g.Point(j) ensures g.Point(k) <= g.Point(j) {
      PointIsMonotone(g, k, j);
    }
  }

  /** A first slot is unique, so it is also what the search returns. */
  lemma FirstSlotUnique(g: Grid, from: int, horizon: int, s: int, t: int)
    requires IsFirstSlot(g, from, horizon, s) && IsFirstSlot(g, from, horizon, t)
    ensures s == t
  {
    assert s == g.Point(g.SlotIndex(s)) && t == g.Point(g.SlotIndex(t));
  }

  method FindNextGridSlot(g: Grid, candidate: int, horizon: int) returns (r: Option<int>)
    ensures r == NextGridSlot(g, candidate, horizon)
  {
    var first := g.IndexAtOrAfter(candidate);
    var gridIndex := first;
    for attempt := 0 to SEARCH_ATTEMPTS
      invariant gridIndex == first + attempt
      invariant NextGridSlot(g, candidate, horizon) == GridFrom(g, gridIndex, horizon, first + SEARCH_ATTEMPTS)
    {
      var timestamp := g.Point(gridIndex);
      if timestamp > horizon {
        return None;
      }
      if g.schedule.Inside(timestamp) && g.target.Inside(timestamp) {
        return Some(timestamp);
      }
      gridIndex := gridIndex + 1;
    }
    return None;
  }
}
