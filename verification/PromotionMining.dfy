/** Evaluating the catalogue for promotions: what is looked at and where each product is
    counted (apps/api/src/commercial-promotion-mining-service.ts:252-600). */
module PromotionMining {
  import opened Wrappers
  import opened PromotionRanking
  import Sorting

  const CATALOG_BATCH_SIZE: nat := 200
  const MAX_EVALUATED_PRODUCTS: nat := 2_000

  /** What the structural, niche, snapshot and signal checks say about a product. */
  datatype Judgement =
    | StructuralRejection
    | NicheRejection
    | SnapshotRejection
    | NoSignal
    | Promotion(candidate: Candidate)

  datatype Item = Item(productId: string, identity: string, judgement: Judgement)

  datatype ExistingStatus = Queued | CopyReady | Reserved | Dispatched | OtherStatus

  datatype Existing = Existing(status: ExistingStatus, dedupeUntil: Option<int>)

  datatype Campaign = Campaign(
    now: int,
    queueTargetSize: nat,
    existing: map<string, Existing>,
    recentlySent: set<string>,
    collation: Collation)

  predicate IsProtected(e: Existing) {
    e.status.CopyReady? || e.status.Reserved?
  }

  /** Where a promotion match is counted: the first that applies. */
  datatype Placement = RecentlySent | DedupeActive | QueueProtected | Eligible

  function PlacementOf(c: Campaign, x: Candidate): Placement {
    if x.productId in c.recentlySent then RecentlySent
    else if x.productId !in c.existing then Eligible
    else
      var e := c.existing[x.productId];
      if e.status.Dispatched? && e.dedupeUntil.Some? && e.dedupeUntil.value > c.now then DedupeActive
      else if IsProtected(e) then QueueProtected
      else Eligible
  }

  datatype Report = Report(
    evaluatedCount: nat,
    evaluationTruncated: bool,
    structurallyEligibleCount: nat,
    nicheMatchedCount: nat,
    promotionMatchedCount: nat,
    recentlySentRejectedCount: nat,
    dedupeRejectedCount: nat,
    queueProtectedCount: nat,
    notSelectedCount: nat)

  /** `DuplicateIdentity` stands for the error raised on two products with one identity. */
  datatype Result = Evaluated(report: Report, ranked: seq<Candidate>) | DuplicateIdentity

  // ---------------------------------------------------------------------------
  // Looking at the catalogue
  // ---------------------------------------------------------------------------

  /** A page of the catalogue, in product order, from a position on. */
  function PageOf(catalog: seq<Item>, from: nat, limit: nat): seq<Item>
    requires from <= |catalog|
  {
    catalog[from..Min(from + limit, |catalog|)]
  }

  /** The product last seen under each identity. */
  ghost function SeenIn(items: seq<Item>): map<string, string> {
    if items == [] then map[]
    else
      var last := items[|items| - 1];
      SeenIn(items[..|items| - 1])[last.identity := last.productId]
  }

  /** The items whose identity did not occur before. */
  ghost function FirstSeen(items: seq<Item>): seq<Item> {
    if items == [] then []
    else
      var before, last := items[..|items| - 1], items[|items| - 1];
      FirstSeen(before) + if last.identity in SeenIn(before) then [] else [last]
  }

  /** One identity, one product. */
  ghost predicate IdentitiesAgree(items: seq<Item>) {
    forall i, j | 0 <= i < |items| && 0 <= j < |items| && items[i].identity == items[j].identity ::
      items[i].productId == items[j].productId
  }

  /** The promotion matches, in order. */
  function MatchesOf(items: seq<Item>): seq<Candidate> {
    if items == [] then []
    else
      var last := items[|items| - 1].judgement;
      MatchesOf(items[..|items| - 1]) + if last.Promotion? then [last.candidate] else []
  }

  predicate IsStructurallyEligible(item: Item) {
    !item.judgement.StructuralRejection?
  }

  predicate IsNicheMatch(item: Item) {
    IsStructurallyEligible(item) && !item.judgement.NicheRejection?
  }

  predicate IsPromotion(item: Item) {
    item.judgement.Promotion?
  }

  /** The variables of the evaluation. */
  datatype Scan = Scan(
    seen: map<string, string>,
    evaluatedCount: nat,
    structurallyEligibleCount: nat,
    nicheMatchedCount: nat,
    promotionMatchedCount: nat,
    matches: seq<Candidate>)

  /** The variables after evaluating some items, the identities seen apart. */
  ghost function CountsOf(seen: map<string, string>, evaluated: seq<Item>): Scan {
    Scan(seen, |evaluated|, Sorting.Count(IsStructurallyEligible, evaluated), Sorting.Count(IsNicheMatch, evaluated),
         Sorting.Count(IsPromotion, evaluated), MatchesOf(evaluated))
  }

  /** The variables after looking at some items. */
  ghost function ScanOf(items: seq<Item>): Scan {
    CountsOf(SeenIn(items), FirstSeen(items))
  }

  lemma SeenAppend(items: seq<Item>, item: Item)
    ensures SeenIn(items + [item]) == SeenIn(items)[item.identity := item.productId]
    ensures item.identity in SeenIn(items) ==> FirstSeen(items + [item]) == FirstSeen(items)
    ensures item.identity !in SeenIn(items) ==> FirstSeen(items + [item]) == FirstSeen(items) + [item]
  {
    assert (items + [item])[..|items|] == items;
  }

  lemma MatchesAppend(items: seq<Item>, item: Item)
    ensures MatchesOf(items + [item])
         == MatchesOf(items) + if item.judgement.Promotion? then [item.judgement.candidate] else []
  {
    assert (items + [item])[..|items|] == items;
  }

  lemma {:induction false} MatchesAreCounted(items: seq<Item>)
    ensures |MatchesOf(items)| == Sorting.Count(IsPromotion, items)
  {
    if items != [] {
      var before, last := items[..|items| - 1], items[|items| - 1];
      MatchesAreCounted(before);
      CountOne(IsPromotion, before, last);
      assert items == before + [last];
    }
  }

  lemma CountOne(p: Item -> bool, items: seq<Item>, item: Item)
    ensures Sorting.Count(p, items + [item]) == Sorting.Count(p, items) + if p(item) then 1 else 0
  {
    Sorting.CountAppend(p, items, [item]);
    assert [item][1..] == [];
  }

  /** Counts an item where its checks end. */
  method CountItem(s: Scan, item: Item, ghost evaluated: seq<Item>) returns (next: Scan)
    requires s == CountsOf(s.seen, evaluated)
    ensures next == CountsOf(s.seen, evaluated + [item])
  {
    CountOne(IsStructurallyEligible, evaluated, item);
    CountOne(IsNicheMatch, evaluated, item);
    CountOne(IsPromotion, evaluated, item);
    MatchesAppend(evaluated, item);
    next := s.(evaluatedCount := s.evaluatedCount + 1);
    if item.judgement.StructuralRejection? {
      return;
    }
    next := next.(structurallyEligibleCount := next.structurallyEligibleCount + 1);
    if item.judgement.NicheRejection? {
      return;
    }
    next := next.(nicheMatchedCount := next.nicheMatchedCount + 1);
    if item.judgement.SnapshotRejection? || item.judgement.NoSignal? {
      return;
    }
    next := next.(promotionMatchedCount := next.promotionMatchedCount + 1,
                  matches := next.matches + [item.judgement.candidate]);
  }

  /** Looks at one item, which is passed over if its identity was seen. */
  method EvaluateItem(s: Scan, item: Item, ghost before: seq<Item>) returns (r: Option<Scan>)
    requires s == ScanOf(before)
    ensures r.Some? ==> r.value == ScanOf(before + [item]) && r.value.evaluatedCount <= s.evaluatedCount + 1
    ensures r.None? ==> !IdentitiesAgree(before + [item])
  {
    SeenAppend(before, item);
    if item.identity in s.seen {
      if s.seen[item.identity] != item.productId {
        IdentitiesClash(before, item);
        return None;
      }
      assert s.seen[item.identity := item.productId] == s.seen;
      return Some(s);
    }
    var next := CountItem(s, item, FirstSeen(before));
    return Some(next.(seen := s.seen[item.identity := item.productId]));
  }

  lemma {:induction false} SeenSomewhere(items: seq<Item>, identity: string) returns (k: nat)
    requires identity in SeenIn(items)
    ensures k < |items| && items[k].identity == identity && items[k].productId == SeenIn(items)[identity]
  {
    var n := |items| - 1;
    if items[n].identity == identity {
      k := n;
    } else {
      k := SeenSomewhere(items[..n], identity);
    }
  }

  lemma IdentitiesClash(items: seq<Item>, item: Item)
    requires item.identity in SeenIn(items) && SeenIn(items)[item.identity] != item.productId
    ensures !IdentitiesAgree(items + [item])
  {
    var k := SeenSomewhere(items, item.identity);
    var all := items + [item];
    assert all[k] == items[k] && all[|items|] == item;
  }

  method EvaluatePage(s: Scan, items: seq<Item>, ghost before: seq<Item>) returns (r: Option<Scan>)
    requires s == ScanOf(before)
    ensures r.Some? ==> r.value == ScanOf(before + items) && r.value.evaluatedCount <= s.evaluatedCount + |items|
    ensures r.None? ==> !IdentitiesAgree(before + items)
  {
    var scan := s;
    ghost var looked := before;
    for k := 0 to |items|
      invariant looked == before + items[..k]
      invariant scan == ScanOf(looked) && scan.evaluatedCount <= s.evaluatedCount + k
    {
      var next := EvaluateItem(scan, items[k], looked);
      looked := looked + [items[k]];
      if next.None? {
        PrefixAgrees(before + items, |looked|);
        assert (before + items)[..|looked|] == looked;
        return None;
      }
      scan := next.value;
    }
    assert looked == before + items;
    return Some(scan);
  }

  lemma PrefixAgrees(items: seq<Item>, n: nat)
    requires n <= |items|
    ensures IdentitiesAgree(items) ==> IdentitiesAgree(items[..n])
  {
  }

  /** The next page, no longer than the products that may still be evaluated. */
  method EvaluateNextPage(s: Scan, catalog: seq<Item>, position: nat) returns (r: Option<Scan>, next: nat)
    requires position <= |catalog| && s == ScanOf(catalog[..position]) && s.evaluatedCount < MAX_EVALUATED_PRODUCTS
    ensures position <= next <= |catalog| && (next == position ==> next == |catalog|)
    ensures r.Some? ==> r.value == ScanOf(catalog[..next]) && r.value.evaluatedCount <= MAX_EVALUATED_PRODUCTS
    ensures r.None? ==> !IdentitiesAgree(catalog)
  {
    var limit := Min(CATALOG_BATCH_SIZE, MAX_EVALUATED_PRODUCTS - s.evaluatedCount);
    var page := PageOf(catalog, position, limit);
    next := position + |page|;
    assert catalog[..position] + page == catalog[..next];
    r := EvaluatePage(s, page, catalog[..position]);
    if r.None? {
      PrefixAgrees(catalog, next);
    }
  }

  /** Looks at the catalogue page by page: at most 2000 products are evaluated, and if
      that cut the evaluation short the report says so. */
  method EvaluateCatalog(catalog: seq<Item>) returns (r: Option<Scan>, truncated: bool, ghost looked: nat)
    ensures looked <= |catalog|
    ensures r.Some? ==> r.value == ScanOf(catalog[..looked]) && r.value.evaluatedCount <= MAX_EVALUATED_PRODUCTS
    ensures r.Some? ==> (truncated <==> looked < |catalog|)
    ensures r.Some? && truncated ==> r.value.evaluatedCount == MAX_EVALUATED_PRODUCTS
    ensures r.None? ==> !IdentitiesAgree(catalog)
  {
    r := Some(Scan(map[], 0, 0, 0, 0, []));
    var position := 0;
    truncated, looked := false, 0;
    while r.value.evaluatedCount < MAX_EVALUATED_PRODUCTS
      invariant looked == position <= |catalog| && r.Some?
      invariant r.value == ScanOf(catalog[..position]) && r.value.evaluatedCount <= MAX_EVALUATED_PRODUCTS
      invariant truncated <==> r.value.evaluatedCount == MAX_EVALUATED_PRODUCTS
      invariant truncated ==> position < |catalog|
      decreases |catalog| - position, !truncated
    {
      r, position := EvaluateNextPage(r.value, catalog, position);
      looked := position;
      if r.None? || position == |catalog| {
        break;
      }
      truncated := r.value.evaluatedCount >= MAX_EVALUATED_PRODUCTS;
    }
  }

  // ---------------------------------------------------------------------------
  // Placing the matches
  // ---------------------------------------------------------------------------

  function Places(c: Campaign, placement: Placement): Candidate -> bool {
    (x: Candidate) => PlacementOf(c, x) == placement
  }

  /** The matches that go on to the ranking. */
  function EligibleOf(c: Campaign, matches: seq<Candidate>): seq<Candidate> {
    if matches == [] then []
    else
      var last := matches[|matches| - 1];
      EligibleOf(c, matches[..|matches| - 1]) + if PlacementOf(c, last).Eligible? then [last] else []
  }

  lemma CountMatch(p: Candidate -> bool, matches: seq<Candidate>, x: Candidate)
    ensures Sorting.Count(p, matches + [x]) == Sorting.Count(p, matches) + if p(x) then 1 else 0
  {
    Sorting.CountAppend(p, matches, [x]);
    assert [x][1..] == [];
  }

  /** The four placements partition the matches. */
  lemma {:induction false} EveryMatchIsPlacedOnce(c: Campaign, matches: seq<Candidate>)
    ensures |matches| == Sorting.Count(Places(c, RecentlySent), matches) + Sorting.Count(Places(c, DedupeActive), matches)
                         + Sorting.Count(Places(c, QueueProtected), matches) + |EligibleOf(c, matches)|
    ensures forall x | x in EligibleOf(c, matches) :: x in matches && PlacementOf(c, x).Eligible?
  {
    if matches != [] {
      var before, last := matches[..|matches| - 1], matches[|matches| - 1];
      EveryMatchIsPlacedOnce(c, before);
      assert matches == before + [last];
      CountMatch(Places(c, RecentlySent), before, last);
      CountMatch(Places(c, DedupeActive), before, last);
      CountMatch(Places(c, QueueProtected), before, last);
    }
  }

  method PlaceMatches(c: Campaign, matches: seq<Candidate>)
    returns (recentlySent: nat, dedupeActive: nat, queueProtected: nat, eligible: seq<Candidate>)
    ensures recentlySent == Sorting.Count(Places(c, RecentlySent), matches)
    ensures dedupeActive == Sorting.Count(Places(c, DedupeActive), matches)
    ensures queueProtected == Sorting.Count(Places(c, QueueProtected), matches)
    ensures eligible == EligibleOf(c, matches)
    ensures |matches| == recentlySent + dedupeActive + queueProtected + |eligible|
  {
    recentlySent, dedupeActive, queueProtected, eligible := 0, 0, 0, [];
    for k := 0 to |matches|
      invariant recentlySent == Sorting.Count(Places(c, RecentlySent), matches[..k])
      invariant dedupeActive == Sorting.Count(Places(c, DedupeActive), matches[..k])
      invariant queueProtected == Sorting.Count(Places(c, QueueProtected), matches[..k])
      invariant eligible == EligibleOf(c, matches[..k])
    {
      var x := matches[k];
      assert matches[..k + 1] == matches[..k] + [x] && matches[..k + 1][..k] == matches[..k];
      CountMatch(Places(c, RecentlySent), matches[..k], x);
      CountMatch(Places(c, DedupeActive), matches[..k], x);
      CountMatch(Places(c, QueueProtected), matches[..k], x);
      if x.productId in c.recentlySent {
        recentlySent := recentlySent + 1;
        continue;
      }
      if x.productId in c.existing && c.existing[x.productId].status.Dispatched?
         && c.existing[x.productId].dedupeUntil.Some? && c.existing[x.productId].dedupeUntil.value > c.now {
        dedupeActive := dedupeActive + 1;
        continue;
      }
      if x.productId in c.existing && IsProtected(c.existing[x.productId]) {
        queueProtected := queueProtected + 1;
        continue;
      }
      eligible := eligible + [x];
    }
    assert matches[..|matches|] == matches;
    EveryMatchIsPlacedOnce(c, matches);
  }

  // ---------------------------------------------------------------------------
  // The evaluation
  // ---------------------------------------------------------------------------

  /** The places left in the queue by candidates that keep theirs. */
  function QueueCapacity(c: Campaign): nat {
    Max(c.queueTargetSize - |set id | id in c.existing && IsProtected(c.existing[id])|, 0)
  }

  /** The whole evaluation. Every match is counted once, as recently sent, dedupe-active,
      protected or ranked, and what is not selected is what exceeds the capacity. */
  method Evaluate(c: Campaign, catalog: seq<Item>) returns (r: Result)
    ensures r.DuplicateIdentity? ==> !IdentitiesAgree(catalog)
    ensures r.Evaluated? ==>
      && r.report.evaluatedCount <= MAX_EVALUATED_PRODUCTS
      && r.report.promotionMatchedCount <= r.report.nicheMatchedCount
         <= r.report.structurallyEligibleCount <= r.report.evaluatedCount
      && r.report.promotionMatchedCount
         == r.report.recentlySentRejectedCount + r.report.dedupeRejectedCount + r.report.queueProtectedCount + |r.ranked|
      && r.report.notSelectedCount == Max(|r.ranked| - QueueCapacity(c), 0)
    ensures r.Evaluated? ==> exists looked :: IsEvaluationOf(c, catalog, looked, r)
  {
    var scan, truncated, looked := EvaluateCatalog(catalog);
    if scan.None? {
      return DuplicateIdentity;
    }
    var recentlySent, dedupeActive, queueProtected, eligible := PlaceMatches(c, scan.value.matches);
    var ranked := Rank(c.collation, eligible);
    Sorting.SameElements(ranked, eligible);
    var queueCapacity := QueueCapacity(c);
    CountsDescend(FirstSeen(catalog[..looked]));
    MatchesAreCounted(FirstSeen(catalog[..looked]));
    r := Evaluated(Report(scan.value.evaluatedCount, truncated, scan.value.structurallyEligibleCount,
                          scan.value.nicheMatchedCount, scan.value.promotionMatchedCount,
                          recentlySent, dedupeActive, queueProtected, Max(|ranked| - queueCapacity, 0)), ranked);
    assert IsEvaluationOf(c, catalog, looked, r);
  }

  /** The ranking holds the eligible matches of what was looked at, which is the whole
      catalogue unless the evaluation was cut short. */
  ghost predicate IsEvaluationOf(c: Campaign, catalog: seq<Item>, looked: int, r: Result)
    requires r.Evaluated?
  {
    && 0 <= looked <= |catalog|
    && (r.report.evaluationTruncated <==> looked < |catalog|)
    && r.report.evaluatedCount == |FirstSeen(catalog[..looked])|
    && r.ranked == Rank(c.collation, EligibleOf(c, MatchesOf(FirstSeen(catalog[..looked]))))
  }

  lemma {:induction false} CountsDescend(items: seq<Item>)
    ensures Sorting.Count(IsPromotion, items) <= Sorting.Count(IsNicheMatch, items)
         <= Sorting.Count(IsStructurallyEligible, items) <= |items|
  {
    if items != [] {
      CountsDescend(items[1..]);
    }
  }
}
