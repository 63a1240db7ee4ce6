/**
 Over every run of the service, what the cache answers is what the store would answer, as long as
 the answer concerns rounds that no committed prune has passed.
 */
module CacheRefinement {
  import opened Model
  import opened Tables
  import opened BlockConversion
  import opened IndexStore
  import opened StoreProperties
  import opened EmittedData
  import opened IndexerRuns
  import opened RunTheorems
  import opened Cache

  /** How many blocks of the history the observers know of: all but one that is on its way to them. */
  function Observed(w: World): nat {
    if (w.worker.Committed? || w.worker.Published?) && w.history != [] then |w.history| - 1 else |w.history|
  }

  /** What the observer has been shown since the process started. */
  function Shown(w: World): (r: seq<BlockData>)
    requires w.since <= Observed(w)
    ensures |r| == Observed(w) - w.since
  {
    seq(Observed(w) - w.since, i requires 0 <= i < Observed(w) - w.since => w.history[w.since + i].data)
  }

  /** The blocks that a cache of this capacity holds (CachingBackend.Valid). */
  function CacheBlocks(w: World, max: nat): seq<BlockData>
    requires w.since <= Observed(w)
  {
    Latest(Shown(w), max)
  }

  lemma CachedIsHistory(w: World, max: nat, k: nat) returns (i: nat)
    requires w.since <= Observed(w) && k < |CacheBlocks(w, max)|
    ensures i < |w.history| && CacheBlocks(w, max)[k] == w.history[i].data
    ensures i == Observed(w) - |CacheBlocks(w, max)| + k
  {
    i := Observed(w) - |CacheBlocks(w, max)| + k;
  }

  /** A block on its way to the observers is next in line for the cache: its round is new, and so is its
      hash if the node never reuses one. */
  lemma PublishedBlockIsNext(w: World, max: nat, k: nat)
    requires PhaseInv(w) && Increasing(w.history) && w.worker.Published? && k < |CacheBlocks(w, max)|
    requires forall i :: 0 <= i < |w.history| - 1 ==> w.history[i].data.block.hash != w.worker.data.block.hash
    ensures Precedes(CacheBlocks(w, max)[k], w.worker.data)
  {
    var i := CachedIsHistory(w, max, k);
    assert RoundOf(w.history[i]) < RoundOf(w.history[|w.history| - 1]);
  }

  /** The observer call shows the cache exactly that block. */
  lemma NotifyShowsBlock(w: World)
    requires PhaseInv(w) && w.worker.Published?
    ensures Shown(AfterNotify(w)) == Shown(w) + [w.worker.data]
  {
  }

  // ---------------------------------------------------------------- transactions and receipts

  lemma TxKept(w: World, i: nat, t: Tx)
    requires DataInv(w.history) && RetainedInv(w.store, w.history, w.deleted)
    requires i < |w.history| && t in w.history[i].data.uniqueTxes
    ensures RoundOf(w.history[i]) >= w.deleted ==> Lookup(w.store.txs, t.hash) == Some(t)
    ensures RowsFrom(w.store.txs, w.deleted) && Lookup(w.store.txs, t.hash) == Some(t) ==>
              RoundOf(w.history[i]) >= w.deleted
  {
    var bd := w.history[i].data;
    assert WellFormed(bd) && OwnRow(t, bd);
    assert RoundOf(w.history[i]) >= w.deleted ==> Retained(w.store, bd);
  }

  /** A cached transaction is the store's row for its hash if its block is not below the highest committed
      prune bound, and only if, as long as rounds rise. */
  lemma CachedTxIsStored(cfg: Config, events: seq<Event>, max: nat, h: Hash)
    requires AllAdmissible(events)
    ensures
      var w := Run(cfg, events);
      && w.since <= Observed(w)
      && var e := Newest(TxLayers(CacheBlocks(w, max)), h);
      e.Some? ==>
        && (e.value.blockNumber >= w.deleted ==> Lookup(w.store.txs, h) == Some(e.value.row))
        && (SafePlans(cfg, events) && Lookup(w.store.txs, h) == Some(e.value.row) ==> e.value.blockNumber >= w.deleted)
  {
    PhasesHold(cfg, events);
    RowsHold(cfg, events);
    if SafePlans(cfg, events) {
      PrunedHolds(cfg, events);
    }
    var w := Run(cfg, events);
    var layers := TxLayers(CacheBlocks(w, max));
    if Newest(layers, h).Some? {
      var k := NewestMeans(layers, h);
      var i := CachedIsHistory(w, max, k);
      TxKept(w, i, Newest(layers, h).value.row);
    }
  }

  // ---------------------------------------------------------------- receipts and headers

  ghost predicate AscendingIndex(logs: seq<Log>) {
    forall i, j :: 0 <= i < j < |logs| ==> logs[i].index < logs[j].index
  }

  lemma {:induction false} WithHashAscending(logs: seq<Log>, h: Hash)
    requires AscendingIndex(logs)
    ensures AscendingIndex(WithHash(logs, h))
  {
    if logs != [] {
      var init, last := logs[..|logs| - 1], logs[|logs| - 1];
      WithHashAscending(init, h);
      var s := WithHash(init, h);
      forall i | 0 <= i < |s| ensures s[i].index < last.index {
        WithHashMember(init, h, s[i]);
        assert s[i] in init;
      }
    }
  }

  lemma ReceiptInOrder(bd: BlockData, r: Receipt)
    requires WellFormed(bd) && r in bd.receipts
    ensures AscendingIndex(r.logs)
  {
    assert OwnLogs(r, bd);
    WithHashAscending(DataLogs(bd), r.hash);
  }

  lemma ReceiptKept(w: World, i: nat, r: Receipt)
    requires DataInv(w.history) && RetainedInv(w.store, w.history, w.deleted)
    requires i < |w.history| && r in w.history[i].data.receipts
    ensures RoundOf(w.history[i]) >= w.deleted ==> Lookup(w.store.receipts, r.hash) == Some(Persisted(r))
    ensures RowsFrom(w.store.receipts, w.deleted) && Lookup(w.store.receipts, r.hash) == Some(Persisted(r)) ==>
              RoundOf(w.history[i]) >= w.deleted
  {
    var bd := w.history[i].data;
    assert WellFormed(bd) && OwnRow(r, bd);
    assert RoundOf(w.history[i]) >= w.deleted ==> Retained(w.store, bd);
  }

  /** A cached receipt is the store's under the same conditions, and if it is not below the bound its logs
      are those that the receipt's log relation joins, each once and in the order of their indices. */
  lemma CachedReceiptIsStored(cfg: Config, events: seq<Event>, max: nat, h: Hash)
    requires AllAdmissible(events)
    ensures
      var w := Run(cfg, events);
      && w.since <= Observed(w)
      && var e := Newest(ReceiptLayers(CacheBlocks(w, max)), h);
      e.Some? ==>
        && (e.value.blockNumber >= w.deleted ==> Lookup(w.store.receipts, h) == Some(Persisted(e.value.row)))
        && (SafePlans(cfg, events) && Lookup(w.store.receipts, h) == Some(Persisted(e.value.row)) ==>
              e.value.blockNumber >= w.deleted)
        && (e.value.blockNumber >= w.deleted ==>
              forall l :: l in e.value.row.logs <==> l in w.store.logs.Values && l.txHash == h)
        && AscendingIndex(e.value.row.logs)
  {
    PhasesHold(cfg, events);
    RowsHold(cfg, events);
    LiveHolds(cfg, events);
    if SafePlans(cfg, events) {
      PrunedHolds(cfg, events);
    }
    var w := Run(cfg, events);
    var layers := ReceiptLayers(CacheBlocks(w, max));
    var e := Newest(layers, h);
    if e.Some? {
      var k := NewestMeans(layers, h);
      var i := CachedIsHistory(w, max, k);
      ReceiptKept(w, i, e.value.row);
      ReceiptInOrder(w.history[i].data, e.value.row);
      if e.value.blockNumber >= w.deleted {
        ReceiptLogsAreJoin(w, i, e.value.row);
      }
    }
  }

  /** The logs a retained receipt carries are exactly the rows its log relation selects. */
  lemma ReceiptLogsAreJoin(w: World, i: nat, r: Receipt)
    requires LiveDistinct(w.history, w.deleted) && RowsInv(w)
    requires i < |w.history| && RoundOf(w.history[i]) >= w.deleted && r in w.history[i].data.receipts
    ensures Lookup(w.store.receipts, r.hash) == Some(Persisted(r))
    ensures forall l :: l in r.logs <==> l in w.store.logs.Values && l.txHash == r.hash
  {
    var bd := w.history[i].data;
    assert WellFormed(bd) && Retained(w.store, bd);
    assert OwnRow(r, bd) && OwnLogs(r, bd);
    forall l ensures l in r.logs ==> l in w.store.logs.Values && l.txHash == r.hash {
      WithHashMember(DataLogs(bd), r.hash, l);
      if l in r.logs {
        assert Lookup(w.store.logs, Key(l)) == Some(l);
      }
    }
    forall l | l in w.store.logs.Values && l.txHash == r.hash ensures l in r.logs {
      JoinedLogIsOwn(w, i, r, l);
    }
  }

  lemma JoinedLogIsOwn(w: World, i: nat, r: Receipt, l: Log)
    requires LiveDistinct(w.history, w.deleted) && RowsInv(w)
    requires i < |w.history| && RoundOf(w.history[i]) >= w.deleted && r in w.history[i].data.receipts
    requires l in w.store.logs.Values && l.txHash == r.hash
    ensures l in r.logs
  {
    var bd := w.history[i].data;
    assert WellFormed(bd) && Retained(w.store, bd) && OwnRow(r, bd) && OwnLogs(r, bd);
    var k :| k in w.store.logs && w.store.logs[k] == l;
    assert LogHasRow(w.store, l);
    assert MetaOf(Lookup(w.store.txs, r.hash)) == MetaOf(Lookup(w.store.receipts, r.hash));
    assert l.round == bd.block.round;
    var j :| 0 <= j < |w.history| && l in DataLogs(w.history[j].data);
    LogRound(w.history[j].data, l);
    assert j == i;
    WithHashMember(DataLogs(bd), r.hash, l);
  }

  lemma LogRound(bd: BlockData, l: Log)
    requires WellFormed(bd) && l in DataLogs(bd)
    ensures l.round == bd.block.round
  {
    var k :| 0 <= k < |DataLogs(bd)| && DataLogs(bd)[k] == l;
  }

  // ---------------------------------------------------------------- blocks

  lemma BlockKept(w: World, i: nat)
    requires HeadersInv(w.store.blocks, w.history, w.deleted) && i < |w.history|
    ensures
      var b := w.history[i].data.block;
      && (b.round >= w.deleted ==> Lookup(w.store.blocks, b.hash) == Some(BlockRow(b)))
      && (BlocksFrom(w.store.blocks, w.deleted) && Lookup(w.store.blocks, b.hash) == Some(BlockRow(b)) ==>
            b.round >= w.deleted)
  {
  }

  /** A cached header is the store's row of its hash under the same conditions. */
  lemma CachedBlockIsStored(cfg: Config, events: seq<Event>, max: nat, n: nat)
    ensures
      var w := Run(cfg, events);
      && w.since <= Observed(w)
      && var b := BlockAt(CacheBlocks(w, max), n);
      b.Some? ==>
        && (n >= w.deleted ==> Lookup(w.store.blocks, b.value.block.hash) == Some(BlockRow(b.value.block)))
        && (SafePlans(cfg, events) && Lookup(w.store.blocks, b.value.block.hash) == Some(BlockRow(b.value.block)) ==>
              n >= w.deleted)
  {
    PhasesHold(cfg, events);
    LiveHolds(cfg, events);
    if SafePlans(cfg, events) {
      PrunedHolds(cfg, events);
    }
    var w := Run(cfg, events);
    BlockAtMeans(CacheBlocks(w, max), n);
    var b := BlockAt(CacheBlocks(w, max), n);
    if b.Some? {
      var k :| 0 <= k < |CacheBlocks(w, max)| && CacheBlocks(w, max)[k] == b.value;
      var i := CachedIsHistory(w, max, k);
      BlockKept(w, i);
    }
  }

  // ---------------------------------------------------------------- log ranges

  /** The part of the run invariant that log ranges depend on. */
  ghost predicate LogsSettled(w: World) {
    && w.since <= Observed(w) && LiveDistinct(w.history, w.deleted)
    && LogRowsInv(w.store, w.history) && DataInv(w.history) && RetainedInv(w.store, w.history, w.deleted)
  }

  lemma LogsSettle(cfg: Config, events: seq<Event>)
    requires AllAdmissible(events)
    ensures LogsSettled(Run(cfg, events))
  {
    PhasesHold(cfg, events);
    LiveHolds(cfg, events);
    RowsHold(cfg, events);
  }

  /** A stored log sits in a block of its round, and if no prune has passed it there is only one. */
  lemma LogOrigin(w: World, l: Log) returns (i: nat)
    requires LogsSettled(w) && l in w.store.logs.Values
    ensures i < |w.history| && l in DataLogs(w.history[i].data) && RoundOf(w.history[i]) == l.round
    ensures l.round >= w.deleted ==> forall j :: 0 <= j < |w.history| && RoundOf(w.history[j]) == l.round ==> j == i
  {
    var k :| k in w.store.logs && w.store.logs[k] == l;
    assert FromHistory(w.history, l);
    i :| 0 <= i < |w.history| && l in DataLogs(w.history[i].data);
    LogRound(w.history[i].data, l);
  }

  lemma RetainedLog(w: World, i: nat, l: Log)
    requires LogsSettled(w) && i < |w.history| && RoundOf(w.history[i]) >= w.deleted && l in DataLogs(w.history[i].data)
    ensures l in w.store.logs.Values && l.round == RoundOf(w.history[i])
  {
    LogRound(w.history[i].data, l);
    assert Lookup(w.store.logs, Key(l)) == Some(l);
  }

  lemma BlockOrder(logs: seq<Log>, round: nat)
    requires InBlockOrder(logs, round)
    ensures forall i, j :: 0 <= i < j < |logs| ==> logs[i] != logs[j] && LogOrder(logs[i], logs[j])
  {
  }

  /** The logs of a retained block are the store's listing of its round. */
  lemma RoundListing(w: World, i: nat)
    requires LogsSettled(w) && i < |w.history| && RoundOf(w.history[i]) >= w.deleted
    ensures IsListing(w.store.logs, RoundOf(w.history[i]), RoundOf(w.history[i]), DataLogs(w.history[i].data))
  {
    var round, logs := RoundOf(w.history[i]), DataLogs(w.history[i].data);
    assert WellFormed(w.history[i].data);
    BlockOrder(logs, round);
    forall l ensures l in logs <==> l in w.store.logs.Values && InRange(l, round, round) {
      if l in logs {
        RetainedLog(w, i, l);
      }
      if l in w.store.logs.Values && InRange(l, round, round) {
        var j := LogOrigin(w, l);
      }
    }
  }

  lemma ListingsConcatenate(table: map<(Hash, nat), Log>, first: nat, n: nat, a: seq<Log>, b: seq<Log>)
    requires first < n && IsListing(table, first, n - 1, a) && IsListing(table, n, n, b)
    ensures IsListing(table, first, n, a + b)
  {
    assert forall i :: 0 <= i < |a| ==> a[i] in a;
    assert forall i :: 0 <= i < |b| ==> b[i] in b;
  }

  /** Within a round, position decides: no two stored logs share (round, tx index, index). */
  lemma LogOrderIsStrict(w: World, a: Log, b: Log)
    requires LogsSettled(w) && a.round >= w.deleted
    requires a in w.store.logs.Values && b in w.store.logs.Values && LogOrder(a, b) && LogOrder(b, a)
    ensures a == b
  {
    var i := LogOrigin(w, a);
    var j := LogOrigin(w, b);
    var logs := DataLogs(w.history[i].data);
    assert WellFormed(w.history[i].data);
    BlockOrder(logs, RoundOf(w.history[i]));
    var p :| 0 <= p < |logs| && logs[p] == a;
    var q :| 0 <= q < |logs| && logs[q] == b;
  }

  ghost predicate StrictlyOrdered(table: map<(Hash, nat), Log>, first: nat) {
    forall a, b :: a in table.Values && b in table.Values && a.round >= first && LogOrder(a, b) && LogOrder(b, a) ==>
      a == b
  }

  lemma {:induction false} ListingUnique(table: map<(Hash, nat), Log>, first: nat, last: nat, r: seq<Log>, s: seq<Log>)
    requires IsListing(table, first, last, r) && IsListing(table, first, last, s)
    requires StrictlyOrdered(table, first)
    ensures r == s
  {
    SortedSame(r, s);
  }

  lemma {:induction false} SortedSame(r: seq<Log>, s: seq<Log>)
    requires forall l :: l in r <==> l in s
    requires forall i, j :: 0 <= i < j < |r| ==> r[i] != r[j] && LogOrder(r[i], r[j])
    requires forall i, j :: 0 <= i < j < |s| ==> s[i] != s[j] && LogOrder(s[i], s[j])
    requires forall a, b :: a in r && b in r && LogOrder(a, b) && LogOrder(b, a) ==> a == b
    ensures r == s
  {
    assert r == [] || r[0] in r;
    assert s == [] || s[0] in s;
    if r != [] {
      var c, d := r[..|r| - 1], s[..|s| - 1];
      var x, y := r[|r| - 1], s[|s| - 1];
      assert x in r && y in s;
      assert x in s && y in r;
      assert LogOrder(x, y) && LogOrder(y, x);
      forall l ensures l in c ==> l in d {
        if l in c {
          assert l in r && l != x;
          var j :| 0 <= j < |s| && s[j] == l;
          assert d[j] == l;
        }
      }
      forall l ensures l in d ==> l in c {
        if l in d {
          assert l in s && l != y;
          var j :| 0 <= j < |r| && r[j] == l;
          assert c[j] == l;
        }
      }
      SortedSame(c, d);
    }
  }

  lemma CachedRoundListing(w: World, max: nat, n: nat)
    requires LogsSettled(w) && w.deleted <= n && n in LogMap(CacheBlocks(w, max))
    ensures RoundListed(w.store.logs, LogMap(CacheBlocks(w, max)), n)
  {
    var blocks := CacheBlocks(w, max);
    assert Lookup(LogMap(blocks), n) == LogsAt(blocks, n);
    BlockAtMeans(blocks, n);
    var k :| 0 <= k < |blocks| && blocks[k] == BlockAt(blocks, n).value;
    var i := CachedIsHistory(w, max, k);
    RoundListing(w, i);
  }

  ghost predicate RoundListed(table: map<(Hash, nat), Log>, logs: map<nat, seq<Log>>, n: nat) {
    n in logs && IsListing(table, n, n, logs[n])
  }

  lemma RangeAppend(logs: map<nat, seq<Log>>, first: nat, n: nat)
    requires first <= n && n in logs
    ensures RangeLogs(logs, first, n + 1) == RangeLogs(logs, first, n) + logs[n]
  {
  }

  lemma {:induction false} RangeIsListing(table: map<(Hash, nat), Log>, logs: map<nat, seq<Log>>, first: nat, end: nat)
    requires first < end && AllListed(table, logs, first, end)
    ensures IsListing(table, first, end - 1, RangeLogs(logs, first, end))
  {
    assert RoundListed(table, logs, end - 1);
    var before, last := RangeLogs(logs, first, end - 1), logs[end - 1];
    assert RangeLogs(logs, first, end) == before + last by {
      RangeAppend(logs, first, end - 1);
    }
    if first < end - 1 {
      RangeIsListing(table, logs, first, end - 1);
      ListingsConcatenate(table, first, end - 1, before, last);
    } else {
      assert before + last == last;
    }
  }

  ghost predicate AllListed(table: map<(Hash, nat), Log>, logs: map<nat, seq<Log>>, first: nat, end: nat) {
    forall n :: first <= n < end ==> RoundListed(table, logs, n)
  }

  lemma CachedAllListed(w: World, max: nat, first: nat, last: nat)
    requires LogsSettled(w) && w.deleted <= first <= last
    requires forall n :: first <= n <= last ==> n in LogMap(CacheBlocks(w, max))
    ensures AllListed(w.store.logs, LogMap(CacheBlocks(w, max)), first, last + 1)
  {
    forall n | first <= n < last + 1 ensures RoundListed(w.store.logs, LogMap(CacheBlocks(w, max)), n) {
      CachedRoundListing(w, max, n);
    }
  }

  lemma CachedRoundsListed(w: World, max: nat, first: nat, last: nat)
    requires LogsSettled(w) && w.deleted <= first <= last
    requires forall n :: first <= n <= last ==> n in LogMap(CacheBlocks(w, max))
    ensures IsListing(w.store.logs, first, last, RangeLogs(LogMap(CacheBlocks(w, max)), first, last + 1))
  {
    CachedAllListed(w, max, first, last);
    RangeIsListing(w.store.logs, LogMap(CacheBlocks(w, max)), first, last + 1);
  }

  lemma StoredLogsStrict(w: World)
    requires LogsSettled(w)
    ensures StrictlyOrdered(w.store.logs, w.deleted)
  {
    forall a, b | a in w.store.logs.Values && b in w.store.logs.Values && a.round >= w.deleted
                  && LogOrder(a, b) && LogOrder(b, a)
      ensures a == b
    {
      LogOrderIsStrict(w, a, b);
    }
  }

  /** A range answered from the cache is the store's ordered listing of that range: any listing the
      database could return is this very sequence. */
  lemma CachedRangeIsStoreRange(cfg: Config, events: seq<Event>, max: nat, first: nat, last: nat, listing: seq<Log>)
    requires AllAdmissible(events)
    requires Run(cfg, events).since <= Observed(Run(cfg, events))
    requires Run(cfg, events).deleted <= first <= last
    requires forall n :: first <= n <= last ==> n in LogMap(CacheBlocks(Run(cfg, events), max))
    requires IsListing(Run(cfg, events).store.logs, first, last, listing)
    ensures RangeLogs(LogMap(CacheBlocks(Run(cfg, events), max)), first, last + 1) == listing
  {
    var w := Run(cfg, events);
    var cached := RangeLogs(LogMap(CacheBlocks(w, max)), first, last + 1);
    assert IsListing(w.store.logs, first, last, cached) && StrictlyOrdered(w.store.logs, first) by {
      LogsSettle(cfg, events);
      CachedRoundsListed(w, max, first, last);
      StoredLogsStrict(w);
    }
    ListingUnique(w.store.logs, first, last, cached, listing);
  }
}
