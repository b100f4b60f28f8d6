/** Choosing the prohibited phrases to cut from a product name, and the connectors left
    dangling by the cuts (apps/api/src/commercial-ai-copy-policy.ts:84-352). */
module CopyPolicy {
  import opened Wrappers
  import Sorting

  // ---------------------------------------------------------------------------
  // Selecting matches
  // ---------------------------------------------------------------------------

  /** A match of a phrase in the characters [start, end). */
  datatype Match = Match(phrase: string, start: int, end: int)

  predicate Overlap(m: Match, n: Match) {
    m.start < n.end && n.start < m.end
  }

  /** Earlier first, and longer first among those that start together. */
  predicate Precedes(m: Match, n: Match) {
    m.start < n.start || (m.start == n.start && m.end - m.start >= n.end - n.start)
  }

  predicate StartsNoLater(m: Match, n: Match) {
    m.start <= n.start
  }

  lemma PrecedesIsTotal()
    ensures Sorting.TotalPreorder(Precedes) && Sorting.TotalPreorder(StartsNoLater)
  {
  }

  ghost predicate AreDisjoint(selected: seq<Match>) {
    forall i, j | 0 <= i < j < |selected| :: !Overlap(selected[i], selected[j])
  }

  /** `m` was left out because of a selected match that comes before it. */
  ghost predicate IsCovered(selected: seq<Match>, m: Match) {
    exists i :: 0 <= i < |selected| && Precedes(selected[i], m) && (selected[i] == m || Overlap(selected[i], m))
  }

  predicate OverlapsAny(selected: seq<Match>, m: Match) {
    exists i :: 0 <= i < |selected| && Overlap(selected[i], m)
  }

  lemma CoveredStays(selected: seq<Match>, next: Match, m: Match)
    requires IsCovered(selected, m)
    ensures IsCovered(selected + [next], m)
  {
    var i :| 0 <= i < |selected| && Precedes(selected[i], m) && (selected[i] == m || Overlap(selected[i], m));
    assert (selected + [next])[i] == selected[i];
  }

  /** The matches selected are matches, do not overlap and are in order; and every match
      is selected or overlaps a selected one that starts earlier, or with it and is no
      shorter. */
  method SelectMatches(matches: seq<Match>) returns (selected: seq<Match>)
    ensures forall m | m in selected :: m in matches
    ensures AreDisjoint(selected) && Sorting.Sorted(StartsNoLater, selected)
    ensures forall m | m in matches :: IsCovered(selected, m)
  {
    var ordered := Sorting.Sort(Precedes, matches);
    PrecedesIsTotal();
    Sorting.SortSorts(Precedes, matches);
    Sorting.SameElements(ordered, matches);
    selected := [];
    for k := 0 to |ordered|
      invariant forall m | m in selected :: m in ordered[..k]
      invariant AreDisjoint(selected) && Sorting.Sorted(StartsNoLater, selected)
      invariant forall m | m in ordered[..k] :: IsCovered(selected, m)
    {
      var m := ordered[k];
      assert ordered[..k + 1] == ordered[..k] + [m];
      assert forall n | n in selected :: Precedes(n, m) by {
        forall n | n in selected ensures Precedes(n, m) {
          var i :| 0 <= i < k && ordered[..k][i] == n;
          assert Precedes(ordered[i], ordered[k]);
        }
      }
      if OverlapsAny(selected, m) {
        continue;
      }
      forall n | n in ordered[..k] ensures IsCovered(selected + [m], n) {
        CoveredStays(selected, m, n);
      }
      assert (selected + [m])[|selected|] == m && IsCovered(selected + [m], m);
      selected := selected + [m];
    }
    assert ordered[..|ordered|] == ordered;
  }

  // ---------------------------------------------------------------------------
  // Dangling connectors
  // ---------------------------------------------------------------------------

  /** A word of the source, in the characters [start, end). */
  datatype Token = Token(start: nat, end: nat, connector: bool)

  ghost predicate AreTokens(tokens: seq<Token>, length: nat) {
    forall i | 0 <= i < |tokens| :: tokens[i].start < tokens[i].end <= length
  }

  predicate AnyRemoved(removed: seq<bool>, from: int, to: int) {
    exists k :: 0 <= k < |removed| && from <= k < to && removed[k]
  }

  /** The tokens of which no character was removed. */
  function Visible(tokens: seq<Token>, removed: seq<bool>): (r: seq<Token>)
    ensures forall t | t in r :: t in tokens && !AnyRemoved(removed, t.start, t.end)
  {
    if tokens == [] then []
    else
      var first := tokens[0];
      (if AnyRemoved(removed, first.start, first.end) then [] else [first]) + Visible(tokens[1..], removed)
  }

  /** A connector is dangling when something was cut next to it, up to the neighbouring
      word, and that neighbour is missing or a connector itself. */
  predicate IsDangling(visible: seq<Token>, removed: seq<bool>, i: nat)
    requires i < |visible|
  {
    var token := visible[i];
    && token.connector
    && (|| ((i == 0 || visible[i - 1].connector)
            && AnyRemoved(removed, if i == 0 then 0 else visible[i - 1].end, token.start))
        || ((i == |visible| - 1 || visible[i + 1].connector)
            && AnyRemoved(removed, token.end, if i == |visible| - 1 then |removed| else visible[i + 1].start)))
  }

  function Unremoved(removed: seq<bool>): nat {
    if removed == [] then 0 else (if removed[0] then 0 else 1) + Unremoved(removed[1..])
  }

  lemma {:induction false} RemovingLowers(s: seq<bool>, t: seq<bool>, k: nat)
    requires |s| == |t| && k < |s| && !s[k] && t[k]
    requires forall j | 0 <= j < |s| && s[j] :: t[j]
    ensures Unremoved(t) < Unremoved(s)
  {
    if k == 0 {
      RemovingNeverRaises(s[1..], t[1..]);
    } else {
      RemovingLowers(s[1..], t[1..], k - 1);
    }
  }

  lemma {:induction false} RemovingNeverRaises(s: seq<bool>, t: seq<bool>)
    requires |s| == |t| && forall j | 0 <= j < |s| && s[j] :: t[j]
    ensures Unremoved(t) <= Unremoved(s)
  {
    if s != [] {
      RemovingNeverRaises(s[1..], t[1..]);
    }
  }

  /** The position belongs to a connector. */
  ghost predicate IsInConnector(tokens: seq<Token>, k: int) {
    exists t :: t in tokens && t.connector && t.start <= k < t.end
  }

  method RemoveToken(removed: array<bool>, token: Token)
    requires token.end <= removed.Length
    modifies removed
    ensures forall k | 0 <= k < removed.Length ::
              removed[k] == (old(removed[k]) || token.start <= k < token.end)
  {
    if token.start < token.end {
      for index := token.start to token.end
        invariant forall k | 0 <= k < removed.Length ::
                    removed[k] == (old(removed[k]) || token.start <= k < index)
      {
        removed[index] := true;
      }
    }
  }

  /** The last dangling connector among the visible words, if any. */
  method FindDangling(visible: seq<Token>, removed: seq<bool>) returns (found: Option<nat>)
    ensures found.Some? ==> found.value < |visible| && IsDangling(visible, removed, found.value)
    ensures found.None? ==> forall i: nat | i < |visible| :: !IsDangling(visible, removed, i)
  {
    for tokenIndex := |visible| downto 0
      invariant forall i: nat | tokenIndex <= i < |visible| :: !IsDangling(visible, removed, i)
    {
      if IsDangling(visible, removed, tokenIndex) {
        return Some(tokenIndex);
      }
    }
    return None;
  }

  /** Marks dangling connectors as removed until none is left: it terminates, keeps every
      earlier removal, and removes nothing but connectors. */
  method RemoveDanglingConnectors(tokens: seq<Token>, removed: array<bool>)
    requires AreTokens(tokens, removed.Length)
    modifies removed
    ensures forall k | 0 <= k < removed.Length && old(removed[k]) :: removed[k]
    ensures forall k | 0 <= k < removed.Length && removed[k] && !old(removed[k]) :: IsInConnector(tokens, k)
    ensures var visible := Visible(tokens, removed[..]);
            forall i: nat | i < |visible| :: !IsDangling(visible, removed[..], i)
  {
    var changed := true;
    while changed
      invariant forall k | 0 <= k < removed.Length && old(removed[k]) :: removed[k]
      invariant forall k | 0 <= k < removed.Length && removed[k] && !old(removed[k]) :: IsInConnector(tokens, k)
      invariant !changed ==> var visible := Visible(tokens, removed[..]);
                             forall i: nat | i < |visible| :: !IsDangling(visible, removed[..], i)
      decreases Unremoved(removed[..]), changed
    {
      var visible := Visible(tokens, removed[..]);
      var found := FindDangling(visible, removed[..]);
      changed := found.Some?;
      if changed {
        var token := visible[found.value];
        assert token in tokens && !AnyRemoved(removed[..], token.start, token.end);
        ghost var before := removed[..];
        RemoveToken(removed, token);
        assert !before[token.start];
        RemovingLowers(before, removed[..], token.start);
      }
    }
  }
}
