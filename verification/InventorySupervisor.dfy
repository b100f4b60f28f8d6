/** Keeping a stock of prepared messages: budgets, accounting, and exactly when what is
    reported as prepared was newly stored (apps/api/src/commercial-inventory-supervisor.ts).

    Every answer of a collaborator is arbitrary and may be an error; the store of prepared
    messages answers by the rows it holds. A route is the group, campaign and revisions that
    the instances of one rotation share. */
module InventorySupervisor {
  import opened Wrappers

  const MAX_DISCOVERY_PAGES_PER_RUN: nat := 3
  const MAX_DISCOVERY_PAGES_PER_HEARTBEAT: nat := 6
  const MAX_PREPARED_PER_TARGET: nat := 8
  const MAX_PREPARED_MESSAGES_PER_HEARTBEAT: nat := 16
  const MAX_TARGETS_PER_HEARTBEAT: nat := 32

  datatype Reply<T> = Gave(value: T) | Threw

  datatype Preflight = Preflight(candidate: Option<string>, usableCount: nat)

  datatype Settings = Settings(
    preparedTarget: nat,
    preparedLowWatermark: int,
    usableLowWatermark: int,
    usableTarget: int,
    pagesPerRun: int)

  datatype Instance = Instance(route: int, name: string)

  // ---------------------------------------------------------------------------
  // The store (apps/api/src/prisma-repositories.ts:7226-7464)
  // ---------------------------------------------------------------------------

  datatype Row = Row(route: int, candidate: string)

  /** The messages that are ready to be sent, with the instance each was prepared for. */
  type Rows = map<Row, string>

  datatype StoreAnswer = Stored | Existing | Refused

  /** A row that is ready already is returned to its own instance and to no other. `refuses`
      stands for every other reason to store nothing. */
  function CreateReady(rows: Rows, row: Row, instance: string, refuses: bool): (r: (Rows, StoreAnswer)) {
    if refuses then (rows, Refused)
    else if row in rows then (rows, if rows[row] == instance then Existing else Refused)
    else (rows[row := instance], Stored)
  }

  /** A row is answered as new exactly if nothing stands against it and there was none, as
      existing exactly if it was there for this instance, and then nothing changes. */
  lemma RowAnsweredExactlyWhen(rows: Rows, row: Row, instance: string, refuses: bool)
    ensures var (rows', answer) := CreateReady(rows, row, instance, refuses);
      && (answer.Stored? <==> !refuses && row !in rows)
      && (answer.Existing? <==> !refuses && row in rows && rows[row] == instance)
      && rows' == if answer.Stored? then rows[row := instance] else rows
  {
  }

  /** The rows of an instance are those of known candidates. */
  ghost predicate OwnRowsAreKnown(rows: Rows, i: Instance, known: set<string>) {
    forall row | row in rows && row.route == i.route && rows[row] == i.name :: row.candidate in known
  }

  /** The condition for an answer to be a new row is exact: whatever the store holds for the
      instance among the known candidates, it answers no row that was there before, if and
      only if the candidate is not known. */
  lemma NewExactlyWhenUnknown(i: Instance, candidate: string, known: set<string>)
    ensures (forall rows, refuses | OwnRowsAreKnown(rows, i, known) ::
               !CreateReady(rows, Row(i.route, candidate), i.name, refuses).1.Existing?)
       <==> candidate !in known
  {
    if candidate in known {
      var rows: Rows := map[Row(i.route, candidate) := i.name];
      assert OwnRowsAreKnown(rows, i, known);
      assert CreateReady(rows, Row(i.route, candidate), i.name, false).1.Existing?;
    }
  }

  // ---------------------------------------------------------------------------
  // The heartbeat
  // ---------------------------------------------------------------------------

  /** A row the store answered, new or not. */
  datatype Answered = Answered(row: Row, isNew: bool)

  function NewRows(answered: seq<Answered>): nat {
    if answered == [] then 0
    else NewRows(answered[..|answered| - 1]) + if answered[|answered| - 1].isNew then 1 else 0
  }

  lemma {:induction false} AllNew(answered: seq<Answered>)
    requires forall k | 0 <= k < |answered| :: answered[k].isNew
    ensures NewRows(answered) == |answered|
  {
    if answered != [] {
      AllNew(answered[..|answered| - 1]);
    }
  }

  /** How preparing one candidate ended. */
  datatype Outcome = Readied(readyCount: nat) | NotReadied | Broke

  /** How many messages an instance has, and how many this made. */
  datatype Fill = Fill(readyCount: nat, preparedCount: nat)

  /** One try: the candidates excluded and the messages counted before it, and the candidate
      not to be tried again after it. */
  datatype Try = Try(excluded: set<string>, counted: nat, added: string)

  /** Each try had room, and excluded the candidates of those before it. */
  ghost predicate AreFreshTries(tries: seq<Try>, targetLimit: int) {
    && (forall k | 0 <= k < |tries| :: tries[k].counted < targetLimit)
    && (forall j, k | 0 <= j < k < |tries| :: tries[j].added in tries[k].excluded)
  }

  /** What reading a page of offers gave: whether there are more, whether the position could
      be advanced, and whether it could be given back after an error. */
  datatype Page = Page(hasNextPage: Reply<bool>, advanced: Reply<bool>, released: bool) {
    predicate Breaks() {
      hasNextPage.Threw? || advanced.Threw?
    }

    predicate LeadsOn() {
      hasNextPage == Gave(true) && advanced == Gave(true)
    }
  }

  /** How many of the first `n` instances have fewer messages than they should. */
  function ShortAmong(existing: seq<Reply<nat>>, preparedTarget: nat, n: nat): nat
    requires n <= |existing|
  {
    if n == 0 then 0
    else ShortAmong(existing, preparedTarget, n - 1)
         + if existing[n - 1].Gave? && existing[n - 1].value < preparedTarget then 1 else 0
  }

  function PageLimit(pagesPerRun: int, pagesRemaining: nat): nat {
    Min(Min(Max(pagesPerRun, 1), MAX_DISCOVERY_PAGES_PER_RUN), pagesRemaining)
  }

  class Supervisor {
    var rows: Rows
    var pagesRemaining: nat
    var messagesRemaining: nat
    var shared: map<int, set<string>>
    var prepared: nat
    var preparedMessages: nat
    var preparedReady: nat
    var futureSlotsCovered: nat
    var discoveredPages: nat
    var skipped: nat
    var failures: nat

    // What happened outside
    ghost var pagesRead: nat
    ghost var attempts: nat
    ghost var answered: seq<Answered>
    ghost var uncounted: nat
    ghost var processed: nat
    /** How often offers were looked for. */
    ghost var discoveries: nat
    /** Whenever a row was asked for, its candidate was not among the known ones. */
    ghost var clean: bool

    constructor (rows: Rows)
      ensures Valid() && processed == skipped == failures == 0 && clean
      ensures this.rows == rows && answered == [] && prepared == preparedMessages == 0 && shared == map[]
      ensures messagesRemaining == MAX_PREPARED_MESSAGES_PER_HEARTBEAT && attempts == 0
    {
      this.rows := rows;
      pagesRemaining, messagesRemaining := MAX_DISCOVERY_PAGES_PER_HEARTBEAT, MAX_PREPARED_MESSAGES_PER_HEARTBEAT;
      shared := map[];
      prepared, preparedMessages, preparedReady, futureSlotsCovered, discoveredPages := 0, 0, 0, 0, 0;
      skipped, failures := 0, 0;
      pagesRead, attempts, answered, uncounted, processed, clean := 0, 0, [], 0, 0, true;
      discoveries := 0;
    }

    /** Budgets are conserved, and every row answered is reported, or its failure is. */
    ghost predicate Valid()
      reads this
    {
      && pagesRead + pagesRemaining == MAX_DISCOVERY_PAGES_PER_HEARTBEAT && discoveredPages <= pagesRead
      && attempts + messagesRemaining == MAX_PREPARED_MESSAGES_PER_HEARTBEAT
      && preparedMessages + uncounted == |answered| <= attempts && uncounted <= failures
      && futureSlotsCovered <= preparedReady
      && (clean ==> EachStoredOnce())
    }

    /** Every row answered was new, is known to its route, and no row was answered twice. */
    ghost predicate EachStoredOnce()
      reads this
    {
      && (forall k | 0 <= k < |answered| :: answered[k].isNew && answered[k].row.candidate in KnownTo(answered[k].row.route))
      && (forall j, k | 0 <= j < k < |answered| :: answered[j].row != answered[k].row)
    }

    function KnownTo(route: int): set<string>
      reads this
    {
      if route in shared then shared[route] else {}
    }

    /** Adds to what the instances of a route must not prepare again. */
    method Share(route: int, candidates: set<string>)
      requires Valid()
      modifies this`shared
      ensures Valid() && KnownTo(route) == old(KnownTo(route)) + candidates
      ensures forall r | r != route :: KnownTo(r) == old(KnownTo(r))
    {
      shared := shared[route := KnownTo(route) + candidates];
    }

    /** Meanwhile messages are claimed, sent, expire or are withdrawn. */
    method OthersTakeRows()
      modifies this`rows
      ensures forall row | row in rows :: row in old(rows) && rows[row] == old(rows[row])
    {
      var taken: set<Row> := Arbitrary();
      rows := rows - taken;
    }

    /** Records a row the store answered for a candidate, which the route knows from then on. */
    method AddAnswered(row: Row, isNew: bool, counted: bool)
      requires Valid() && |answered| < attempts
      requires clean ==> isNew && row.candidate !in KnownTo(row.route)
      modifies this`shared, this`answered, this`preparedMessages, this`uncounted, this`failures
      ensures Valid() && KnownTo(row.route) == old(KnownTo(row.route)) + {row.candidate}
      ensures preparedMessages == old(preparedMessages) + if counted then 1 else 0
      ensures failures == old(failures) + if counted then 0 else 1
      ensures answered == old(answered) + [Answered(row, isNew)]
    {
      if clean {
        forall k | 0 <= k < |answered| ensures answered[k].row != row {
          assert answered[k].row.candidate in KnownTo(answered[k].row.route);
        }
      }
      shared := shared[row.route := KnownTo(row.route) + {row.candidate}];
      answered := answered + [Answered(row, isNew)];
      if counted {
        preparedMessages := preparedMessages + 1;
      } else {
        uncounted, failures := uncounted + 1, failures + 1;
      }
    }

    /** Asks the store for a message for the candidate that preparation answered. A row that
        was there already is reported as prepared; one that could not be counted again is
        reported as a failure. */
    method AskForRow(i: Instance, known: set<string>, candidate: string, refuses: bool, recounted: Reply<nat>)
      returns (outcome: Outcome)
      requires Valid() && |answered| < attempts
      requires KnownTo(i.route) <= known && OwnRowsAreKnown(rows, i, KnownTo(i.route))
      modifies this`rows, this`shared, this`answered, this`preparedMessages, this`uncounted, this`failures, this`clean
      ensures Valid() && OwnRowsAreKnown(rows, i, KnownTo(i.route))
      ensures KnownTo(i.route) <= if outcome.NotReadied? then known else known + {candidate}
      ensures clean == (old(clean) && candidate !in known)
      ensures var (rows', answer) := CreateReady(old(rows), Row(i.route, candidate), i.name, refuses);
        && rows == rows'
        && answered == old(answered) + (if answer.Refused? then [] else [Answered(Row(i.route, candidate), answer.Stored?)])
        && outcome == (if answer.Refused? then NotReadied
                       else if recounted.Gave? then Readied(recounted.value) else Broke)
      ensures preparedMessages == old(preparedMessages) + if outcome.Readied? then 1 else 0
      ensures failures == old(failures) + if outcome.Broke? then 1 else 0
    {
      clean := clean && candidate !in known;
      var row := Row(i.route, candidate);
      var (rows', answer) := CreateReady(rows, row, i.name, refuses);
      rows := rows';
      if answer.Refused? {
        return NotReadied;
      }
      AddAnswered(row, answer.Stored?, recounted.Gave?);
      return if recounted.Gave? then Readied(recounted.value) else Broke;
    }

    /** Prepares one candidate for an instance. Preparation may answer another candidate than
        the one offered, after that one turned out to be unusable. */
    method PrepareOne(i: Instance, known: set<string>) returns (outcome: Outcome, candidate: Reply<string>)
      requires Valid() && messagesRemaining > 0
      requires KnownTo(i.route) <= known && OwnRowsAreKnown(rows, i, KnownTo(i.route))
      modifies this`rows, this`shared, this`answered, this`preparedMessages, this`messagesRemaining, this`attempts,
               this`uncounted, this`failures, this`clean
      ensures Valid() && attempts == old(attempts) + 1
      ensures OwnRowsAreKnown(rows, i, KnownTo(i.route))
      ensures clean == (old(clean) && (candidate.Gave? ==> candidate.value !in known))
      ensures KnownTo(i.route) <= if outcome.NotReadied? then known else known + if candidate.Gave? then {candidate.value} else {}
      ensures candidate.Threw? ==> outcome.Broke?
      ensures preparedMessages == old(preparedMessages) + if outcome.Readied? then 1 else 0
    {
      messagesRemaining := messagesRemaining - 1;
      attempts := attempts + 1;
      candidate := Arbitrary();
      if candidate.Threw? {
        failures := failures + 1;
        return Broke, candidate;
      }
      var refuses: bool := Arbitrary();
      var recounted: Reply<nat> := Arbitrary();
      outcome := AskForRow(i, known, candidate.value, refuses, recounted);
    }

    /** The candidates of an instance's own rows, and more that are claimed or sent. */
    method ListProtected(i: Instance) returns (protected: Reply<set<string>>)
      ensures protected.Gave? ==> OwnRowsAreKnown(rows, i, protected.value)
    {
      var claimed: Reply<set<string>> := Arbitrary();
      if claimed.Threw? {
        return Threw;
      }
      var own := set row | row in rows && row.route == i.route && rows[row] == i.name :: row.candidate;
      return Gave(own + claimed.value);
    }

    /** Prepares messages for one instance, at most eight. It stops before only if the instance
        has enough, the heartbeat's budget is used up, or it ran dry: no candidate was
        offered, or preparing one broke. `None` stands for an error that ends the run. */
    method PrepareAvailable(i: Instance, targetLimit: int) returns (fill: Option<Fill>, ghost ranDry: bool)
      requires Valid()
      modifies this`rows, this`shared, this`answered, this`preparedMessages, this`messagesRemaining, this`attempts,
               this`uncounted, this`failures, this`clean
      ensures Valid()
      ensures fill.Some? ==> preparedMessages == old(preparedMessages) + fill.value.preparedCount
      ensures attempts <= old(attempts) + MAX_PREPARED_PER_TARGET
      ensures fill.Some? ==>
                || fill.value.readyCount >= targetLimit || messagesRemaining == 0
                || attempts == old(attempts) + MAX_PREPARED_PER_TARGET || ranDry
    {
      ranDry := false;
      OthersTakeRows();
      var protected := ListProtected(i);
      var counted: Reply<nat> := Arbitrary();
      if protected.Threw? || counted.Threw? {
        return None, ranDry;
      }
      Share(i.route, protected.value);
      ghost var tries;
      fill, ranDry, tries := PrepareUnknown(i, counted.value, targetLimit);
    }

    /** The loop of it, from the candidates the route knows. */
    method PrepareUnknown(i: Instance, count: nat, targetLimit: int)
      returns (fill: Option<Fill>, ghost ranDry: bool, ghost tries: seq<Try>)
      requires Valid() && OwnRowsAreKnown(rows, i, KnownTo(i.route))
      modifies this`rows, this`shared, this`answered, this`preparedMessages, this`messagesRemaining, this`attempts,
               this`uncounted, this`failures, this`clean
      ensures Valid()
      ensures fill.Some? ==> preparedMessages == old(preparedMessages) + fill.value.preparedCount
      ensures attempts <= old(attempts) + MAX_PREPARED_PER_TARGET
      ensures fill.Some? ==>
                || fill.value.readyCount >= targetLimit || messagesRemaining == 0
                || attempts == old(attempts) + MAX_PREPARED_PER_TARGET || ranDry
      ensures AreFreshTries(tries, targetLimit) && attempts == old(attempts) + |tries|
    {
      ranDry, tries := false, [];
      var ready := KnownTo(i.route);
      var readyCount: nat := count;
      var made: nat := 0;
      for attempt := 0 to MAX_PREPARED_PER_TARGET
        invariant Valid()
        invariant KnownTo(i.route) <= ready && OwnRowsAreKnown(rows, i, KnownTo(i.route))
        invariant AreFreshTries(tries, targetLimit) && |tries| == attempt
        invariant forall x | x in tries :: x.added in ready
        invariant attempts == old(attempts) + attempt && preparedMessages == old(preparedMessages) + made
      {
        OthersTakeRows();
        var preflight: Reply<Preflight> := Arbitrary();
        if readyCount >= targetLimit || messagesRemaining == 0 {
          break;
        }
        if preflight.Threw? {
          return None, ranDry, tries;
        }
        if preflight.value.candidate.None? {
          ranDry := true;
          break;
        }
        ghost var before, counted := ready, readyCount;
        var outcome, candidate := PrepareOne(i, ready);
        tries := tries + [Try(before, counted,
                              if outcome.Readied? then candidate.value else preflight.value.candidate.value)];
        if outcome.Broke? {
          ranDry := true;
          break;
        }
        ready := ready + {if outcome.Readied? then candidate.value else preflight.value.candidate.value};
        if outcome.Readied? {
          readyCount, made := outcome.readyCount, made + 1;
        }
      }
      return Some(Fill(readyCount, made)), ranDry, tries;
    }

    /** Reads pages of offers for one target while each leads on: at most three, no more than
        were set, and no more than the heartbeat has left; none if the position is taken. False
        on an error that ends the run. */
    method Discover(pagesPerRun: int, position: Reply<bool>, pages: nat -> Page) returns (ok: bool)
      requires Valid()
      modifies this`pagesRemaining, this`pagesRead, this`discoveredPages, this`failures
      ensures Valid()
      ensures pagesRead <= old(pagesRead) + MAX_DISCOVERY_PAGES_PER_RUN
      ensures position != Gave(true) ==> pagesRead == old(pagesRead) && ok == (position.Gave? || old(pagesRemaining) == 0)
      ensures old(pagesRemaining) == 0 ==> pagesRead == old(pagesRead) && ok
      ensures position == Gave(true) && old(pagesRemaining) > 0 ==>
                var read := pagesRead - old(pagesRead);
                && 1 <= read <= PageLimit(pagesPerRun, old(pagesRemaining))
                && (forall k: nat | k < read - 1 :: pages(k).LeadsOn())
                && (read < PageLimit(pagesPerRun, old(pagesRemaining)) ==> !pages(read - 1).LeadsOn())
                && ok == (pages(read - 1).Breaks() ==> pages(read - 1).released)
                && failures == old(failures) + (if pages(read - 1).Breaks() && ok then 1 else 0)
    {
      if pagesRemaining == 0 {
        return true;
      }
      if position.Threw? || !position.value {
        return position.Gave?;
      }
      ok := ReadPages(PageLimit(pagesPerRun, pagesRemaining), pages);
    }

    /** The loop of it. */
    method ReadPages(maxPages: nat, pages: nat -> Page) returns (ok: bool)
      requires Valid() && 1 <= maxPages <= pagesRemaining
      modifies this`pagesRemaining, this`pagesRead, this`discoveredPages, this`failures
      ensures Valid()
      ensures var read := pagesRead - old(pagesRead);
        && 1 <= read <= maxPages
        && (forall k: nat | k < read - 1 :: pages(k).LeadsOn())
        && (read < maxPages ==> !pages(read - 1).LeadsOn())
        && ok == (pages(read - 1).Breaks() ==> pages(read - 1).released)
        && failures == old(failures) + (if pages(read - 1).Breaks() && ok then 1 else 0)
    {
      for page := 0 to maxPages
        invariant Valid() && pagesRead == old(pagesRead) + page && pagesRemaining >= maxPages - page
        invariant failures == old(failures) && forall k: nat | k < page :: pages(k).LeadsOn()
      {
        pagesRemaining := pagesRemaining - 1;
        pagesRead := pagesRead + 1;
        if pages(page).Breaks() {
          if !pages(page).released {
            return false;
          }
          failures := failures + 1;
          break;
        }
        discoveredPages := discoveredPages + 1;
        if !pages(page).advanced.value || !pages(page).hasNextPage.value {
          break;
        }
      }
      return true;
    }

    /** Adds a fill to the report. */
    method Report(fill: Fill)
      requires Valid()
      modifies this`prepared
      ensures Valid() && prepared == old(prepared) + fill.preparedCount
    {
      prepared := prepared + fill.preparedCount;
    }

    /** Discovers offers, then fills again. */
    method DiscoverAndFill(s: Settings, i: Instance, replenished: bool) returns (fill: Option<Fill>, ghost found: bool)
      requires Valid()
      modifies this`pagesRemaining, this`pagesRead, this`discoveredPages, this`failures, this`rows,
               this`shared, this`answered, this`preparedMessages, this`messagesRemaining, this`attempts,
               this`uncounted, this`clean, this`discoveries
      ensures Valid() && attempts <= old(attempts) + MAX_PREPARED_PER_TARGET
      ensures pagesRead <= old(pagesRead) + MAX_DISCOVERY_PAGES_PER_RUN && discoveries == old(discoveries) + 1
      ensures !found || !replenished ==> fill.None? && attempts == old(attempts)
      ensures fill.Some? ==> preparedMessages == old(preparedMessages) + fill.value.preparedCount
    {
      discoveries := discoveries + 1;
      var position: Reply<bool> := Arbitrary();
      var pages: nat -> Page := Arbitrary();
      var ok := Discover(s.pagesPerRun, position, pages);
      found := ok;
      if !ok || !replenished {
        return None, found;
      }
      ghost var ranDry;
      fill, ranDry := PrepareAvailable(i, s.preparedTarget);
    }

    /** Fills one instance that does not have enough. Exactly if that leaves it short while
        candidates are short too, it discovers offers and fills again: there was no candidate,
        or few usable ones, or not yet as many as wanted for an instance that is low. False on
        an error that ends the run. */
    method Refill(s: Settings, i: Instance, existing: nat, preflight: Reply<Preflight>)
      returns (ok: bool, ghost first: Option<Fill>)
      requires Valid() && prepared == preparedMessages && messagesRemaining > 0
      modifies this
      ensures Valid() && (ok ==> prepared == preparedMessages)
      ensures skipped == old(skipped) && processed == old(processed)
      ensures attempts <= old(attempts) + 2 * MAX_PREPARED_PER_TARGET
      ensures discoveries == old(discoveries) + if preflight.Gave? && first.Some? && first.value.readyCount < s.preparedTarget
                && (|| preflight.value.candidate.None?
                    || preflight.value.usableCount < s.usableLowWatermark
                    || (existing < s.preparedLowWatermark && preflight.value.usableCount < s.usableTarget)) then 1 else 0
      ensures pagesRead <= old(pagesRead) + (discoveries - old(discoveries)) * MAX_DISCOVERY_PAGES_PER_RUN
      ensures preflight.Threw? ==> !ok && attempts == old(attempts)
    {
      first := None;
      if preflight.Threw? {
        return false, first;
      }
      var fill, ranDry := PrepareAvailable(i, s.preparedTarget);
      first := fill;
      if fill.None? {
        return false, first;
      }
      Report(fill.value);
      var discoveryNeeded := preflight.value.candidate.None? || preflight.value.usableCount < s.usableLowWatermark
                             || (existing < s.preparedLowWatermark && preflight.value.usableCount < s.usableTarget);
      if fill.value.readyCount < s.preparedTarget && discoveryNeeded {
        var replenished: bool := Arbitrary();
        ghost var found;
        fill, found := DiscoverAndFill(s, i, replenished);
        if fill.None? {
          return false, first;
        }
        Report(fill.value);
      }
      ok := CountCovered(s.preparedTarget);
    }

    method CountCovered(preparedTarget: nat) returns (ok: bool)
      requires Valid()
      modifies this`preparedReady, this`futureSlotsCovered
      ensures Valid()
    {
      var finalReady: Reply<nat> := Arbitrary();
      if finalReady.Threw? {
        return false;
      }
      preparedReady := preparedReady + finalReady.value;
      futureSlotsCovered := futureSlotsCovered + Min(finalReady.value, preparedTarget);
      return true;
    }

    /** One heartbeat over the instances of all targets. It stays within every budget and
        accounts for every instance as processed or skipped. What it reports as prepared,
        with the failures to count again, are the rows the store answered; and if no row was
        ever asked for a known candidate, those were all newly stored, each once. Unless a
        budget is used up, it processes exactly the instances that had too few. */
    method Run(s: Settings, instances: seq<Instance>, existing: seq<Reply<nat>>) returns (ok: bool)
      requires |existing| == |instances|
      requires Valid() && processed == skipped == prepared == preparedMessages == 0
      modifies this
      ensures pagesRead <= MAX_DISCOVERY_PAGES_PER_HEARTBEAT
      ensures attempts <= MAX_PREPARED_MESSAGES_PER_HEARTBEAT && processed <= MAX_TARGETS_PER_HEARTBEAT
      ensures preparedMessages + uncounted == |answered| && uncounted <= failures
      ensures clean ==> EachStoredOnce() && NewRows(answered) == preparedMessages + uncounted
      ensures ok ==> prepared == preparedMessages && processed + skipped == |instances|
      ensures ok && |instances| <= MAX_TARGETS_PER_HEARTBEAT && messagesRemaining > 0 ==>
                processed == ShortAmong(existing, s.preparedTarget, |existing|)
    {
      for k := 0 to |instances|
        invariant Valid()
        modifies this`shared
      {
        var protected := ListProtected(instances[k]);
        if protected.Threw? {
          FinishAccounts();
          return false;
        }
        Share(instances[k].route, protected.value);
      }
      ok := FillInstances(s, instances, existing);
      FinishAccounts();
    }

    /** What was answered, if it was all new. */
    lemma FinishAccounts()
      requires Valid()
      ensures clean ==> NewRows(answered) == |answered|
    {
      if clean {
        AllNew(answered);
      }
    }

    method FillInstances(s: Settings, instances: seq<Instance>, existing: seq<Reply<nat>>) returns (ok: bool)
      requires |existing| == |instances|
      requires Valid() && processed == skipped == prepared == preparedMessages == 0
      modifies this
      ensures Valid() && processed <= MAX_TARGETS_PER_HEARTBEAT
      ensures ok ==> prepared == preparedMessages && processed + skipped == |instances|
      ensures ok && |instances| <= MAX_TARGETS_PER_HEARTBEAT && messagesRemaining > 0 ==>
                processed == ShortAmong(existing, s.preparedTarget, |existing|)
    {
      for k := 0 to |instances|
        invariant processed == ShortAmong(existing, s.preparedTarget, k)
        invariant Valid() && prepared == preparedMessages
        invariant processed + skipped == k && processed <= MAX_TARGETS_PER_HEARTBEAT
        invariant processed <= k
      {
        if k >= MAX_TARGETS_PER_HEARTBEAT {
          skipped := skipped + (|instances| - k);
          break;
        }
        if existing[k].Threw? {
          return false;
        }
        if existing[k].value >= s.preparedTarget {
          ok := SkipStocked(s, instances[k], existing[k].value);
          if !ok {
            return false;
          }
          continue;
        }
        if messagesRemaining == 0 {
          skipped := skipped + (|instances| - k);
          break;
        }
        var preflight: Reply<Preflight> := Arbitrary();
        ghost var first;
        ok, first := Refill(s, instances[k], existing[k].value, preflight);
        if !ok {
          return false;
        }
        processed := processed + 1;
      }
      return true;
    }

    /** An instance that has enough. */
    method SkipStocked(s: Settings, i: Instance, existing: nat) returns (ok: bool)
      requires Valid()
      modifies this`shared, this`preparedReady, this`futureSlotsCovered, this`skipped
      ensures Valid() && (ok ==> skipped == old(skipped) + 1)
    {
      var protected := ListProtected(i);
      if protected.Threw? {
        return false;
      }
      Share(i.route, protected.value);
      preparedReady := preparedReady + existing;
      futureSlotsCovered := futureSlotsCovered + Min(existing, s.preparedTarget);
      skipped := skipped + 1;
      return true;
    }
  }

  /** The condition is needed. Candidate A has a message ready for this instance and is not
      offered again; B is offered, turns out unusable, and preparation answers A instead.
      The store returns the row it has: nothing is stored and one message is reported. */
  method KnownCandidateIsReportedAgain() returns (s: Supervisor)
    ensures s.rows == map[Row(1, "A") := "instance"]
    ensures NewRows(s.answered) == 0 && s.preparedMessages == 1 && s.failures == 0 && !s.clean
  {
    s := new Supervisor(map[Row(1, "A") := "instance"]);
    var protected := {"A"};
    s.Share(1, protected);
    s.messagesRemaining := s.messagesRemaining - 1;
    s.attempts := s.attempts + 1;
    var outcome := s.AskForRow(Instance(1, "instance"), protected, "A", false, Gave(1));
  }
}
