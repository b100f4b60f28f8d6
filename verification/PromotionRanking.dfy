/** The order of promotion candidates (apps/api/src/commercial-promotion-ranking.ts).
    Scores and rates are exact numbers here. */
module PromotionRanking {
  import opened Wrappers
  import Sorting

  datatype Candidate = Candidate(
    productId: string,
    hasPriceDrop: bool,
    priceDrop: Option<real>,
    commercialScore: real,
    discountRate: real,
    commissionRate: real,
    sales: int)

  /** How product ids compare; different ids never tie. */
  type Collation = string -> int

  function Sign(x: real): int {
    if x < 0.0 then -1 else if x > 0.0 then 1 else 0
  }

  function Descending(left: real, right: real): int {
    Sign(right - left)
  }

  /** Negative when the left candidate comes first. */
  function Compare(collation: Collation, left: Candidate, right: Candidate): int {
    if left.hasPriceDrop != right.hasPriceDrop then if left.hasPriceDrop then -1 else 1
    else if left.priceDrop.None? && right.priceDrop.Some? then 1
    else if left.priceDrop.Some? && right.priceDrop.None? then -1
    else if left.priceDrop.Some? && Descending(left.priceDrop.value, right.priceDrop.value) != 0 then
      Descending(left.priceDrop.value, right.priceDrop.value)
    else CompareRest(collation, left, right)
  }

  function CompareRest(collation: Collation, left: Candidate, right: Candidate): int {
    if Descending(left.commercialScore, right.commercialScore) != 0 then
      Descending(left.commercialScore, right.commercialScore)
    else if Descending(left.discountRate, right.discountRate) != 0 then
      Descending(left.discountRate, right.discountRate)
    else if Descending(left.commissionRate, right.commissionRate) != 0 then
      Descending(left.commissionRate, right.commissionRate)
    else if left.sales != right.sales then
      if left.sales > right.sales then -1 else 1
    else collation(left.productId) - collation(right.productId)
  }

  function Order(collation: Collation): (Candidate, Candidate) -> bool {
    (left: Candidate, right: Candidate) => Compare(collation, left, right) <= 0
  }

  function Rank(collation: Collation, candidates: seq<Candidate>): (r: seq<Candidate>)
    ensures multiset(r) == multiset(candidates)
  {
    Sorting.Sort(Order(collation), candidates)
  }

  // ---------------------------------------------------------------------------
  // The order, as a lexicographic one
  // ---------------------------------------------------------------------------

  /** Smaller is better, position by position. */
  function Key(collation: Collation, c: Candidate): seq<real> {
    [ if c.hasPriceDrop then 0.0 else 1.0,
      if c.priceDrop.Some? then 0.0 else 1.0,
      if c.priceDrop.Some? then -c.priceDrop.value else 0.0,
      -c.commercialScore, -c.discountRate, -c.commissionRate,
      -(c.sales as real),
      collation(c.productId) as real ]
  }

  predicate LexAtMost(s: seq<real>, t: seq<real>)
    requires |s| == |t|
  {
    s == [] || s[0] < t[0] || (s[0] == t[0] && LexAtMost(s[1..], t[1..]))
  }

  lemma {:induction false} LexIsTotal(s: seq<real>, t: seq<real>)
    requires |s| == |t|
    ensures LexAtMost(s, t) || LexAtMost(t, s)
    ensures LexAtMost(s, t) && LexAtMost(t, s) ==> s == t
  {
    if s != [] {
      LexIsTotal(s[1..], t[1..]);
      assert s == [s[0]] + s[1..] && t == [t[0]] + t[1..];
    }
  }

  lemma {:induction false} LexIsTransitive(s: seq<real>, t: seq<real>, u: seq<real>)
    requires |s| == |t| == |u| && LexAtMost(s, t) && LexAtMost(t, u)
    ensures LexAtMost(s, u)
  {
    if s != [] && s[0] == t[0] == u[0] {
      LexIsTransitive(s[1..], t[1..], u[1..]);
    }
  }

  /** One position of the keys decides, or the rest does. */
  lemma LexStep(s: seq<real>, t: seq<real>, k: nat)
    requires |s| == |t| && k < |s|
    ensures LexAtMost(s[k..], t[k..]) <==> s[k] < t[k] || (s[k] == t[k] && LexAtMost(s[k + 1..], t[k + 1..]))
  {
    assert s[k..][1..] == s[k + 1..] && t[k..][1..] == t[k + 1..];
  }

  lemma CompareRestIsLexicographic(collation: Collation, x: Candidate, y: Candidate)
    ensures CompareRest(collation, x, y) <= 0 <==> LexAtMost(Key(collation, x)[3..], Key(collation, y)[3..])
  {
    var s, t := Key(collation, x), Key(collation, y);
    LexStep(s, t, 3);
    LexStep(s, t, 4);
    LexStep(s, t, 5);
    LexStep(s, t, 6);
    LexStep(s, t, 7);
    assert s[8..] == [];
  }

  /** The comparator is the lexicographic order of the keys. */
  lemma CompareIsLexicographic(collation: Collation, x: Candidate, y: Candidate)
    ensures Compare(collation, x, y) <= 0 <==> LexAtMost(Key(collation, x), Key(collation, y))
  {
    var s, t := Key(collation, x), Key(collation, y);
    CompareRestIsLexicographic(collation, x, y);
    LexStep(s, t, 0);
    LexStep(s, t, 1);
    LexStep(s, t, 2);
    assert s[0..] == s && t[0..] == t;
  }

  lemma OrderIsTotal(collation: Collation)
    ensures Sorting.TotalPreorder(Order(collation))
  {
    forall x, y ensures Compare(collation, x, y) <= 0 || Compare(collation, y, x) <= 0 {
      CompareIsLexicographic(collation, x, y);
      CompareIsLexicographic(collation, y, x);
      LexIsTotal(Key(collation, x), Key(collation, y));
    }
    forall x, y, z | Compare(collation, x, y) <= 0 && Compare(collation, y, z) <= 0
      ensures Compare(collation, x, z) <= 0
    {
      CompareIsLexicographic(collation, x, y);
      CompareIsLexicographic(collation, y, z);
      CompareIsLexicographic(collation, x, z);
      LexIsTransitive(Key(collation, x), Key(collation, y), Key(collation, z));
    }
  }

  /** No two candidates share a product. */
  ghost predicate HasDistinctProducts(collation: Collation, candidates: seq<Candidate>) {
    forall i, j | 0 <= i < |candidates| && 0 <= j < |candidates|
      && collation(candidates[i].productId) == collation(candidates[j].productId) :: candidates[i] == candidates[j]
  }

  lemma DistinctProductsNeverTie(collation: Collation, candidates: seq<Candidate>)
    requires HasDistinctProducts(collation, candidates)
    ensures Sorting.TieFree(Order(collation), candidates)
  {
    forall i, j | 0 <= i < |candidates| && 0 <= j < |candidates|
      && Compare(collation, candidates[i], candidates[j]) <= 0 && Compare(collation, candidates[j], candidates[i]) <= 0
      ensures candidates[i] == candidates[j]
    {
      var x, y := candidates[i], candidates[j];
      CompareIsLexicographic(collation, x, y);
      CompareIsLexicographic(collation, y, x);
      LexIsTotal(Key(collation, x), Key(collation, y));
      assert Key(collation, x)[7] == Key(collation, y)[7];
    }
  }

  /** The ranking is sorted, and its first `capacity` candidates come before all others. */
  lemma RankIsSorted(collation: Collation, candidates: seq<Candidate>, capacity: nat)
    requires capacity <= |Rank(collation, candidates)|
    ensures Sorting.Sorted(Order(collation), Rank(collation, candidates))
    ensures var ranked := Rank(collation, candidates);
            forall x, y | x in ranked[..capacity] && y in ranked[capacity..] :: Compare(collation, x, y) <= 0
  {
    OrderIsTotal(collation);
    Sorting.SortSorts(Order(collation), candidates);
    var ranked := Rank(collation, candidates);
    forall x, y | x in ranked[..capacity] && y in ranked[capacity..] ensures Compare(collation, x, y) <= 0 {
      var i :| 0 <= i < capacity && ranked[i] == x;
      var j :| capacity <= j < |ranked| && ranked[j] == y;
      assert Order(collation)(ranked[i], ranked[j]);
    }
  }

  /** The ranking does not depend on the order the candidates came in. */
  lemma RankIgnoresInputOrder(collation: Collation, candidates: seq<Candidate>, shuffled: seq<Candidate>)
    requires multiset(candidates) == multiset(shuffled) && HasDistinctProducts(collation, candidates)
    ensures Rank(collation, candidates) == Rank(collation, shuffled)
  {
    OrderIsTotal(collation);
    Sorting.SortSorts(Order(collation), candidates);
    Sorting.SortSorts(Order(collation), shuffled);
    var ranked := Rank(collation, candidates);
    Sorting.SameElements(ranked, candidates);
    forall i, j | 0 <= i < |ranked| && 0 <= j < |ranked|
      && collation(ranked[i].productId) == collation(ranked[j].productId)
      ensures ranked[i] == ranked[j]
    {
      assert ranked[i] in candidates && ranked[j] in candidates;
    }
    DistinctProductsNeverTie(collation, ranked);
    Sorting.SortedOrderIsUnique(Order(collation), ranked, Rank(collation, shuffled));
  }
}
