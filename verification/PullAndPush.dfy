/**
 Logs asked for and logs sent: what eth_getLogs returns for a range, against the subscription filter
 over the stored logs and against the blocks of that range filtered one by one, over every run of the
 service.
 */
module PullAndPush {
  import opened Model
  import opened BlockConversion
  import opened BlockProperties
  import opened IndexStore
  import opened EmittedData
  import opened IndexerRuns
  import opened RunTheorems
  import opened Schedules
  import opened RetainedMarker
  import opened Cache
  import opened CacheRefinement
  import opened LogCodec
  import opened LogFilters

  // ---------------------------------------------------------------- what the cache adds

  lemma {:induction false} RangeSplit(logs: map<nat, seq<Log>>, first: nat, mid: nat, end: nat)
    requires first <= mid <= end
    ensures RangeLogs(logs, first, end) == RangeLogs(logs, first, mid) + RangeLogs(logs, mid, end)
  {
    if mid < end {
      RangeSplit(logs, first, mid, end - 1);
    }
  }

  lemma {:induction false} RangeMember(logs: map<nat, seq<Log>>, first: nat, end: nat, l: Log)
    ensures l in RangeLogs(logs, first, end) <==> exists n :: first <= n < end && n in logs && l in logs[n]
  {
    if first < end {
      RangeMember(logs, first, end - 1, l);
      if exists n :: first <= n < end && n in logs && l in logs[n] {
        var n :| first <= n < end && n in logs && l in logs[n];
        assert n == end - 1 || l in RangeLogs(logs, first, end - 1);
      }
    }
  }

  lemma {:induction false} NothingSelected(logs: seq<EthLog>, c: Criteria)
    ensures Selected(logs, None, None, c) == [] <==> forall l :: l in logs ==> !Matches(l, c)
  {
    if logs != [] {
      NothingSelected(logs[..|logs| - 1], c);
      assert logs == logs[..|logs| - 1] + [logs[|logs| - 1]];
    }
  }

  lemma NoRowSelected(rows: seq<Log>, c: Criteria)
    ensures Selected(FromModels(rows), None, None, c) == [] <==> forall l :: l in rows ==> !Matches(FromModel(l), c)
  {
    NothingSelected(FromModels(rows), c);
    if forall l :: l in rows ==> !Matches(FromModel(l), c) {
      forall e | e in FromModels(rows) ensures !Matches(e, c) {
        var i :| 0 <= i < |rows| && FromModels(rows)[i] == e;
        assert rows[i] in rows;
      }
    }
    if forall e :: e in FromModels(rows) ==> !Matches(e, c) {
      forall l | l in rows ensures !Matches(FromModel(l), c) {
        var i :| 0 <= i < |rows| && rows[i] == l;
        assert FromModels(rows)[i] in FromModels(rows);
      }
    }
  }

  /** A cached log of the range that the store has lost to a prune, and that is asked for. */
  ghost predicate PrunedMatch(w: World, max: nat, first: nat, last: nat, c: Criteria)
    requires w.since <= Observed(w)
  {
    exists n, l :: first <= n <= last && n < w.deleted && n in LogMap(CacheBlocks(w, max))
                   && l in LogMap(CacheBlocks(w, max))[n] && Matches(FromModel(l), c)
  }

  /** Where the retained part of a range begins. */
  function RetainedFrom(w: World, first: nat, last: nat): nat { Min(Max(first, w.deleted), last + 1) }

  lemma PrunedPartSelected(w: World, max: nat, first: nat, last: nat, c: Criteria)
    requires w.since <= Observed(w) && first <= last
    ensures
      var part := RangeLogs(LogMap(CacheBlocks(w, max)), first, RetainedFrom(w, first, last));
      Selected(FromModels(part), None, None, c) == [] <==> !PrunedMatch(w, max, first, last, c)
  {
    var logs, end := LogMap(CacheBlocks(w, max)), RetainedFrom(w, first, last);
    var part := RangeLogs(logs, first, end);
    NoRowSelected(part, c);
    forall l ensures l in part <==> exists n :: first <= n < end && n in logs && l in logs[n] {
      RangeMember(logs, first, end, l);
    }
    if PrunedMatch(w, max, first, last, c) {
      var n, l :| first <= n <= last && n < w.deleted && n in logs && l in logs[n] && Matches(FromModel(l), c);
      assert n < end;
      assert l in part;
    }
    if l :| l in part && Matches(FromModel(l), c) {
      var n :| first <= n < end && n in logs && l in logs[n];
      assert PrunedMatch(w, max, first, last, c);
    }
  }

  /** The retained part of a cached range is the store's listing of the whole range. */
  lemma RetainedPartListed(w: World, max: nat, first: nat, last: nat)
    requires LogsSettled(w) && LogsFrom(w.store.logs, w.deleted) && first <= last
    requires forall n :: first <= n <= last ==> n in LogMap(CacheBlocks(w, max))
    ensures
      var part := RangeLogs(LogMap(CacheBlocks(w, max)), RetainedFrom(w, first, last), last + 1);
      IsListing(w.store.logs, first, last, part)
  {
    var mid := RetainedFrom(w, first, last);
    var part := RangeLogs(LogMap(CacheBlocks(w, max)), mid, last + 1);
    if mid <= last {
      CachedRoundsListed(w, max, mid, last);
    }
    forall l ensures l in part <==> l in w.store.logs.Values && InRange(l, first, last) {
      if l in w.store.logs.Values {
        assert l.round >= w.deleted;
      }
    }
  }

  lemma SelectedRowsConcat(a: seq<Log>, b: seq<Log>, c: Criteria)
    ensures Selected(FromModels(a + b), None, None, c) ==
            Selected(FromModels(a), None, None, c) + Selected(FromModels(b), None, None, c)
  {
    FromModelsConcat(a, b);
    SelectedConcat(FromModels(a), FromModels(b), None, None, c);
  }

  lemma AllLogsStrict(w: World, first: nat)
    requires LogsSettled(w) && LogsFrom(w.store.logs, w.deleted)
    ensures StrictlyOrdered(w.store.logs, first)
  {
    StoredLogsStrict(w);
  }

  lemma RetainedPartUnique(w: World, max: nat, first: nat, last: nat, listing: seq<Log>)
    requires LogsSettled(w) && LogsFrom(w.store.logs, w.deleted) && first <= last
    requires forall n :: first <= n <= last ==> n in LogMap(CacheBlocks(w, max))
    requires IsListing(w.store.logs, first, last, listing)
    ensures RangeLogs(LogMap(CacheBlocks(w, max)), RetainedFrom(w, first, last), last + 1) == listing
  {
    var part := RangeLogs(LogMap(CacheBlocks(w, max)), RetainedFrom(w, first, last), last + 1);
    assert IsListing(w.store.logs, first, last, part) by {
      RetainedPartListed(w, max, first, last);
    }
    assert StrictlyOrdered(w.store.logs, first) by {
      AllLogsStrict(w, first);
    }
    ListingUnique(w.store.logs, first, last, part, listing);
  }

  lemma NothingAdded<T>(x: seq<T>, y: seq<T>)
    ensures x + y == y <==> x == []
  {
    assert |x + y| == |x| + |y|;
  }

  /** A first part of a range makes no difference exactly if nothing is selected of it. */
  lemma FirstPartSelected(logs: map<nat, seq<Log>>, first: nat, mid: nat, end: nat, listing: seq<Log>, c: Criteria)
    requires first <= mid <= end && RangeLogs(logs, mid, end) == listing
    ensures
      var rows, part := RangeLogs(logs, first, end), RangeLogs(logs, first, mid);
      Selected(FromModels(rows), None, None, c) == Selected(FromModels(listing), None, None, c) <==>
      Selected(FromModels(part), None, None, c) == []
  {
    var part := RangeLogs(logs, first, mid);
    RangeSplit(logs, first, mid, end);
    SelectedRowsConcat(part, listing, c);
    NothingAdded(Selected(FromModels(part), None, None, c), Selected(FromModels(listing), None, None, c));
  }

  lemma CachedAnswerSelected(w: World, max: nat, first: nat, last: nat, listing: seq<Log>, c: Criteria)
    requires w.since <= Observed(w) && first <= last
    requires RangeLogs(LogMap(CacheBlocks(w, max)), RetainedFrom(w, first, last), last + 1) == listing
    ensures
      var rows := RangeLogs(LogMap(CacheBlocks(w, max)), first, last + 1);
      Selected(FromModels(rows), None, None, c) == Selected(FromModels(listing), None, None, c) <==>
      !PrunedMatch(w, max, first, last, c)
  {
    PrunedPartSelected(w, max, first, last, c);
    FirstPartSelected(LogMap(CacheBlocks(w, max)), first, RetainedFrom(w, first, last), last + 1, listing, c);
  }

  lemma AnswerSelected(w: World, max: nat, first: nat, last: nat, rows: seq<Log>, listing: seq<Log>, c: Criteria)
    requires LogsSettled(w) && LogsFrom(w.store.logs, w.deleted)
    requires IsAnswer(w.store.logs, CacheBlocks(w, max), max, first, last, rows)
    requires IsListing(w.store.logs, first, last, listing)
    ensures
      Selected(FromModels(rows), None, None, c) == Selected(FromModels(listing), None, None, c) <==>
      !(FromCache(CacheBlocks(w, max), max, first, last) && PrunedMatch(w, max, first, last, c))
  {
    if FromCache(CacheBlocks(w, max), max, first, last) {
      RetainedPartUnique(w, max, first, last, listing);
      CachedAnswerSelected(w, max, first, last, listing, c);
    } else {
      AllLogsStrict(w, first);
      ListingUnique(w.store.logs, first, last, rows, listing);
    }
  }

  /** eth_getLogs for a range is the subscription filter, with the range as its bounds, over all stored
      logs: exactly unless the cache answers and still has a matching log of a pruned round.  In particular
      always for a range that no committed prune has reached. */
  lemma PullIsBoundedFilter(cfg: Config, events: seq<Event>, max: nat, top: nat, all: seq<Log>, first: nat, last: nat,
                            rows: seq<Log>, c: Criteria)
    requires AllAdmissible(events) && SafePlans(cfg, events) && last <= top
    requires Run(cfg, events).since <= Observed(Run(cfg, events))
    requires IsListing(Run(cfg, events).store.logs, 0, top, all)
    requires IsAnswer(Run(cfg, events).store.logs, CacheBlocks(Run(cfg, events), max), max, first, last, rows)
    ensures
      var w := Run(cfg, events);
      Selected(FromModels(rows), None, None, c) == Selected(FromModels(all), Some(first), Some(last), c) <==>
      !(FromCache(CacheBlocks(w, max), max, first, last) && PrunedMatch(w, max, first, last, c))
    ensures Run(cfg, events).deleted <= first ==> !PrunedMatch(Run(cfg, events), max, first, last, c)
  {
    var w := Run(cfg, events);
    LogsSettle(cfg, events);
    PrunedHolds(cfg, events);
    BetweenIsListing(w.store.logs, top, all, first, last);
    AnswerSelected(w, max, first, last, rows, Between(all, first, last), c);
    SelectedBetween(all, first, last, c);
  }

  // ---------------------------------------------------------------- a run in which they differ

  const Anything := Criteria([], [])

  const OneLog := Content("", [], "")

  /** A block with one successful transaction that emits one log. */
  const LogBlock :=
    RawBlock(1, "a", [Eth(EthTx("t", false, TxBody(0, 0, 0, 0, "")), true, [EvmLogs([OneLog])], None)], 0, 0)

  const TheLog := Log(OneLog, 1, "a", "t", 0, 0, false)

  lemma LogEventFacts(events: seq<RuntimeEvent>)
    requires events == [EvmLogs([OneLog])]
    ensures Contents(events) == [OneLog] && GasAmounts(events) == [] && Fees(events) == 0 && Decodable(events)
  {
    var none: seq<RuntimeEvent> := [];
    assert events[..|events| - 1] == none && events[|events| - 1].EvmLogs?;
    assert Contents(none) == [] && GasAmounts(none) == [] && Fees(none) == 0;
  }

  lemma LogBlockFacts()
    ensures Convertible(LogBlock) && EthFacts(LogBlock.items) == [Facts(LogBlock.items[0])]
    ensures FailuresEmitNothing(EthFacts(LogBlock.items)) && ModelsOf(LogBlock).logs == [TheLog]
  {
    var item := LogBlock.items[0];
    LogEventFacts(item.events);
    var none: seq<Item> := [];
    assert LogBlock.items[..|LogBlock.items| - 1] == none && EthFacts(none) == [];
    assert EthFacts(LogBlock.items) == [Facts(item)];
    var noFacts: seq<TxFacts> := [];
    assert [Facts(item)][..0] == noFacts && BlockLogs(noFacts, 1, "a") == [];
    assert BlockLogs([Facts(item)], 1, "a") == Numbered(Facts(item), 1, "a", 0, 0);
  }

  lemma LogBlockCommits()
    ensures Sound(EmptyStore, LogBlock) && DataLogs(Emitted(ModelsOf(LogBlock))) == [TheLog]
  {
    LogBlockFacts();
    var m := ModelsOf(LogBlock);
    assert m.txs[..0] == [] && m.receipts[..0] == [];
    assert |m.txs| == 1 && |m.receipts| == 1;
    EmittedLogs(EmptyStore, LogBlock);
  }

  /** Rounds 1 and 2 are indexed, and round 1 is pruned from the store but not from the cache. */
  const PrunedFromStore: seq<Event> :=
    [Plan(0, 2)] + IndexEvents(LogBlock) + IndexEvents(B) + Mark + [DeletePrune(true)]

  ghost predicate OnlyCached(w: World) {
    && w.since == 0 && w.worker.Idle? && w.deleted == 2 && |w.history| == 2
    && RoundOf(w.history[0]) == 1 && DataLogs(w.history[0].data) == [TheLog] && RoundOf(w.history[1]) == 2
  }

  lemma LogBlockIndexed() returns (w: World)
    ensures Leads(Init(Unpruned), [Plan(0, 2)] + IndexEvents(LogBlock), w)
    ensures w.cfg == Unpruned && w.worker == Indexing(2, 2, 1) && w.pruner.Waiting? && w.cacheLast == 1
    ensures w.since == 0 && w.deleted == 0 && w.store.blocks.Keys == {"a"} && w.store.blocks["a"].round == 1
    ensures |w.history| == 1 && RoundOf(w.history[0]) == 1 && DataLogs(w.history[0].data) == [TheLog]
  {
    var w1 := Step(Init(Unpruned), Plan(0, 2));
    LeadsByStep(Init(Unpruned), Plan(0, 2));
    assert w1.worker == Indexing(1, 2, 1) && w1.store == EmptyStore;
    LogBlockCommits();
    BlockLeads(w1, LogBlock);
    w := AfterBlock(w1, LogBlock);
    LeadsOn(Init(Unpruned), [Plan(0, 2)], w1, IndexEvents(LogBlock), w);
  }

  lemma PrunedFromStoreLeads() returns (w: World)
    ensures Leads(Init(Unpruned), PrunedFromStore, w) && OnlyCached(w)
  {
    var events := [Plan(0, 2)] + IndexEvents(LogBlock);
    var w1 := LogBlockIndexed();
    EmptyBlockCommits(w1.store, 2, "b");
    BlockLeads(w1, B);
    var w2 := AfterBlock(w1, B);
    LeadsOn(Init(Unpruned), events, w1, IndexEvents(B), w2);
    MarkLeads(w2);
    var w3 := Marking(w2);
    LeadsOn(Init(Unpruned), events + IndexEvents(B), w2, Mark, w3);
    LeadsOnByStep(Init(Unpruned), events + IndexEvents(B) + Mark, w3, DeletePrune(true));
    w := Step(w3, DeletePrune(true));
  }

  lemma OnlyCachedMatches(w: World)
    requires OnlyCached(w)
    ensures FromCache(CacheBlocks(w, DEFAULT_BLOCK_CACHE_SIZE), DEFAULT_BLOCK_CACHE_SIZE, 1, 1)
    ensures PrunedMatch(w, DEFAULT_BLOCK_CACHE_SIZE, 1, 1, Anything)
  {
    var blocks := CacheBlocks(w, DEFAULT_BLOCK_CACHE_SIZE);
    assert blocks == Shown(w) && blocks[..1][0] == w.history[0].data;
    assert BlockAt(blocks, 1) == BlockAt(blocks[..1], 1) == Some(w.history[0].data);
    assert Lookup(LogMap(blocks), 1) == Some([TheLog]);
    assert TheLog in LogMap(blocks)[1] && Matches(FromModel(TheLog), Anything);
  }

  /** In this run eth_getLogs for round 1 and the filter over the stored logs differ. */
  lemma CacheOutlivesStore(rows: seq<Log>, all: seq<Log>)
    requires Run(Unpruned, PrunedFromStore).since <= Observed(Run(Unpruned, PrunedFromStore))
    requires
      var w := Run(Unpruned, PrunedFromStore);
      && IsListing(w.store.logs, 0, 2, all)
      && IsAnswer(w.store.logs, CacheBlocks(w, DEFAULT_BLOCK_CACHE_SIZE), DEFAULT_BLOCK_CACHE_SIZE, 1, 1, rows)
    ensures AllAdmissible(PrunedFromStore) && SafePlans(Unpruned, PrunedFromStore)
    ensures Selected(FromModels(rows), None, None, Anything) != Selected(FromModels(all), Some(1), Some(1), Anything)
  {
    var w := PrunedFromStoreLeads();
    LeadsFromStart(Unpruned, PrunedFromStore, w);
    OnlyCachedMatches(w);
    PullIsBoundedFilter(Unpruned, PrunedFromStore, DEFAULT_BLOCK_CACHE_SIZE, 2, all, 1, 1, rows, Anything);
  }

  // ---------------------------------------------------------------- pushed block by block

  function LogsOf(h: seq<Indexed>, i: nat, j: nat): seq<Log>
    requires i <= j <= |h|
  {
    if i == j then [] else LogsOf(h, i, j - 1) + DataLogs(h[j - 1].data)
  }

  function Join<T>(parts: seq<seq<T>>): seq<T> {
    if parts == [] then [] else Join(parts[..|parts| - 1]) + parts[|parts| - 1]
  }

  /** The decoded logs of blocks i..j-1, block by block. */
  function Decoded(h: seq<Indexed>, i: nat, j: nat): (r: seq<seq<EthLog>>)
    requires i <= j <= |h|
    ensures |r| == j - i
  {
    seq(j - i, k requires 0 <= k < j - i => FromModels(DataLogs(h[i + k].data)))
  }

  /** What a subscription with these criteria receives for each of these lists. */
  ghost function Answers(parts: seq<seq<EthLog>>, c: Criteria): (r: seq<seq<EthLog>>)
    ensures |r| == |parts|
  {
    seq(|parts|, k requires 0 <= k < |parts| => Selected(parts[k], None, None, c))
  }

  /** Filtering part by part is filtering the whole. */
  lemma {:induction false} SelectedJoin(parts: seq<seq<EthLog>>, c: Criteria)
    ensures Selected(Join(parts), None, None, c) == Join(Answers(parts, c))
  {
    if parts != [] {
      var init, last := parts[..|parts| - 1], parts[|parts| - 1];
      SelectedJoin(init, c);
      assert Answers(parts, c)[..|parts| - 1] == Answers(init, c);
      SelectedConcat(Join(init), last, None, None, c);
    }
  }

  lemma JoinAppend<T>(parts: seq<seq<T>>, x: seq<T>)
    ensures Join(parts + [x]) == Join(parts) + x
  {
    assert (parts + [x])[..|parts|] == parts;
  }

  lemma DecodedAppend(h: seq<Indexed>, i: nat, j: nat)
    requires i <= j < |h|
    ensures Decoded(h, i, j + 1) == Decoded(h, i, j) + [FromModels(DataLogs(h[j].data))]
  {
  }

  lemma FromModelsConcat(a: seq<Log>, b: seq<Log>)
    ensures FromModels(a + b) == FromModels(a) + FromModels(b)
  {
  }

  lemma {:induction false} DecodedJoin(h: seq<Indexed>, i: nat, j: nat)
    requires i <= j <= |h|
    ensures FromModels(LogsOf(h, i, j)) == Join(Decoded(h, i, j))
  {
    if i < j {
      DecodedJoin(h, i, j - 1);
      DecodedAppend(h, i, j - 1);
      JoinAppend(Decoded(h, i, j - 1), FromModels(DataLogs(h[j - 1].data)));
      FromModelsConcat(LogsOf(h, i, j - 1), DataLogs(h[j - 1].data));
    }
  }

  lemma NoRoundBetween(h: seq<Indexed>, i: nat, k: nat)
    requires Increasing(h) && i < |h| && 0 < k < |h|
    ensures !(RoundOf(h[k - 1]) < RoundOf(h[i]) < RoundOf(h[k]))
  {
    assert i < k - 1 ==> RoundOf(h[i]) < RoundOf(h[k - 1]);
    assert i > k ==> RoundOf(h[k]) < RoundOf(h[i]);
  }

  ghost predicate LogsInOrder(w: World) { LogsSettled(w) && Increasing(w.history) }

  /** No stored log lies in a round between two consecutive blocks. */
  lemma GapIsEmpty(w: World, k: nat, l: Log)
    requires LogsInOrder(w) && 0 < k < |w.history| && l in w.store.logs.Values
    ensures !(RoundOf(w.history[k - 1]) < l.round < RoundOf(w.history[k]))
  {
    var i := LogOrigin(w, l);
    NoRoundBetween(w.history, i, k);
  }

  lemma ListingAcrossGap(w: World, first: nat, k: nat, r: seq<Log>)
    requires LogsInOrder(w) && 0 < k < |w.history| && first <= RoundOf(w.history[k - 1])
    requires IsListing(w.store.logs, first, RoundOf(w.history[k - 1]), r)
    ensures IsListing(w.store.logs, first, RoundOf(w.history[k]) - 1, r)
  {
    forall l ensures l in r <==> l in w.store.logs.Values && InRange(l, first, RoundOf(w.history[k]) - 1) {
      if l in w.store.logs.Values {
        GapIsEmpty(w, k, l);
      }
    }
  }

  lemma ListingNextBlock(w: World, first: nat, k: nat, r: seq<Log>)
    requires LogsInOrder(w) && 0 < k < |w.history| && w.deleted <= first <= RoundOf(w.history[k - 1])
    requires IsListing(w.store.logs, first, RoundOf(w.history[k - 1]), r)
    ensures IsListing(w.store.logs, first, RoundOf(w.history[k]), r + DataLogs(w.history[k].data))
  {
    assert RoundOf(w.history[k - 1]) < RoundOf(w.history[k]);
    ListingAcrossGap(w, first, k, r);
    RoundListing(w, k);
    ListingsConcatenate(w.store.logs, first, RoundOf(w.history[k]), r, DataLogs(w.history[k].data));
  }

  ghost predicate ExtendsListing(table: map<(Hash, nat), Log>, h: seq<Indexed>, first: nat, k: nat)
    requires 0 < k < |h|
  {
    forall r :: IsListing(table, first, RoundOf(h[k - 1]), r) ==>
                IsListing(table, first, RoundOf(h[k]), r + DataLogs(h[k].data))
  }

  lemma {:induction false} ListingGrows(table: map<(Hash, nat), Log>, h: seq<Indexed>, i: nat, j: nat)
    requires i < j <= |h|
    requires IsListing(table, RoundOf(h[i]), RoundOf(h[i]), DataLogs(h[i].data))
    requires forall k :: i < k < j ==> ExtendsListing(table, h, RoundOf(h[i]), k)
    ensures IsListing(table, RoundOf(h[i]), RoundOf(h[j - 1]), LogsOf(h, i, j))
  {
    if i < j - 1 {
      ListingGrows(table, h, i, j - 1);
      assert ExtendsListing(table, h, RoundOf(h[i]), j - 1);
    } else {
      assert LogsOf(h, i, i) == [];
      assert LogsOf(h, i, j) == DataLogs(h[i].data);
    }
  }

  /** The logs of retained consecutive blocks are the store's listing of their range. */
  lemma HistoryListing(w: World, i: nat, j: nat)
    requires LogsInOrder(w) && i < j <= |w.history| && RoundOf(w.history[i]) >= w.deleted
    ensures IsListing(w.store.logs, RoundOf(w.history[i]), RoundOf(w.history[j - 1]), LogsOf(w.history, i, j))
  {
    RoundListing(w, i);
    forall k | i < k < j ensures ExtendsListing(w.store.logs, w.history, RoundOf(w.history[i]), k) {
      forall r | IsListing(w.store.logs, RoundOf(w.history[i]), RoundOf(w.history[k - 1]), r)
        ensures IsListing(w.store.logs, RoundOf(w.history[i]), RoundOf(w.history[k]), r + DataLogs(w.history[k].data))
      {
        assert i == k - 1 || RoundOf(w.history[i]) < RoundOf(w.history[k - 1]);
        ListingNextBlock(w, RoundOf(w.history[i]), k, r);
      }
    }
    ListingGrows(w.store.logs, w.history, i, j);
  }

  lemma PushedIsListed(w: World, i: nat, j: nat, rows: seq<Log>)
    requires LogsInOrder(w) && i < j <= |w.history| && RoundOf(w.history[i]) >= w.deleted
    requires IsListing(w.store.logs, RoundOf(w.history[i]), RoundOf(w.history[j - 1]), rows)
    ensures LogsOf(w.history, i, j) == rows
  {
    HistoryListing(w, i, j);
    StoredLogsStrict(w);
    ListingUnique(w.store.logs, RoundOf(w.history[i]), RoundOf(w.history[j - 1]), LogsOf(w.history, i, j), rows);
  }

  /** The answer for a range that no committed prune has reached is the store's listing. */
  lemma AnswerIsListing(w: World, max: nat, first: nat, last: nat, rows: seq<Log>)
    requires LogsSettled(w) && w.deleted <= first
    requires IsAnswer(w.store.logs, CacheBlocks(w, max), max, first, last, rows)
    ensures IsListing(w.store.logs, first, last, rows)
  {
    if FromCache(CacheBlocks(w, max), max, first, last) {
      CachedRoundsListed(w, max, first, last);
    }
  }

  /** Rows that eth_getLogs may read for the range of blocks i..j-1, none of which a prune has passed. */
  ghost predicate AnswersBlocks(w: World, i: nat, j: nat, max: nat, rows: seq<Log>) {
    && i < j <= |w.history| && w.since <= Observed(w) && w.deleted <= RoundOf(w.history[i])
    && IsAnswer(w.store.logs, CacheBlocks(w, max), max, RoundOf(w.history[i]), RoundOf(w.history[j - 1]), rows)
  }

  lemma AnswersBlocksRows(w: World, i: nat, j: nat, max: nat, rows: seq<Log>)
    requires LogsInOrder(w) && AnswersBlocks(w, i, j, max, rows)
    ensures LogsOf(w.history, i, j) == rows
  {
    AnswerIsListing(w, max, RoundOf(w.history[i]), RoundOf(w.history[j - 1]), rows);
    PushedIsListed(w, i, j, rows);
  }

  /** Blocks filtered one by one are, put together, the answer to eth_getLogs for their range. */
  lemma PushedIsPulled(w: World, i: nat, j: nat, max: nat, rows: seq<Log>, c: Criteria)
    requires LogsInOrder(w) && AnswersBlocks(w, i, j, max, rows)
    ensures Join(Answers(Decoded(w.history, i, j), c)) == Selected(FromModels(rows), None, None, c)
  {
    AnswersBlocksRows(w, i, j, max, rows);
    DecodedJoin(w.history, i, j);
    SelectedJoin(Decoded(w.history, i, j), c);
  }
}
