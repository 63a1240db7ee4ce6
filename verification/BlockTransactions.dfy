/**
 The transaction list of a block: the cache keeps the whole list (indexer/utils.go: blockToModels), while
 the store joins the rows that name the block (storage/psql/psql.go: GetBlockByNumber).  A row belongs to
 one block only, so a hash that occurs more than once leaves one of the lists short.
 */
module BlockTransactions {
  import opened Model
  import opened Tables
  import opened BlockConversion
  import opened IndexStore
  import opened IndexerRuns
  import opened RunTheorems
  import opened CacheRefinement

  function TxsOf(x: Indexed): seq<Tx> { x.data.block.transactions }

  /** The hash of transaction t of block i occurs elsewhere in the history. */
  ghost predicate Shared(h: seq<Indexed>, i: nat, t: Tx) {
    exists j, u :: 0 <= j < |h| && u in TxsOf(h[j]) && u.hash == t.hash && (j != i || u != t)
  }

  ghost predicate FromBlock(h: seq<Indexed>, t: Tx) {
    exists i :: 0 <= i < |h| && t in TxsOf(h[i])
  }

  ghost predicate OwnTxs(x: Indexed) {
    forall t :: t in TxsOf(x) ==> t.round == RoundOf(x) && t.blockHash == x.data.block.hash && t.logs == []
  }

  ghost predicate OwnTxsInv(h: seq<Indexed>) {
    forall i :: 0 <= i < |h| ==> OwnTxs(h[i])
  }

  /** Every stored row comes from the list of a committed block. */
  ghost predicate TxRowsInv(txs: Table<TxBody>, h: seq<Indexed>) {
    forall k :: k in txs ==> txs[k].hash == k && FromBlock(h, txs[k])
  }

  ghost predicate StoredOrShared(txs: Table<TxBody>, h: seq<Indexed>, i: nat, t: Tx) {
    Lookup(txs, t.hash) == Some(t) || Shared(h, i, t)
  }

  /** A transaction of a retained block is stored, unless its hash occurs elsewhere. */
  ghost predicate StoredInv(txs: Table<TxBody>, h: seq<Indexed>, deleted: nat) {
    forall i, t :: 0 <= i < |h| && RoundOf(h[i]) >= deleted && t in TxsOf(h[i]) ==> StoredOrShared(txs, h, i, t)
  }

  ghost predicate TxInv(w: World) {
    OwnTxsInv(w.history) && TxRowsInv(w.store.txs, w.history) && StoredInv(w.store.txs, w.history, w.deleted)
  }

  // ---------------------------------------------------------------- a commit

  lemma SharedGrows(h: seq<Indexed>, x: Indexed, i: nat, t: Tx)
    requires Shared(h, i, t)
    ensures Shared(h + [x], i, t)
  {
    var j, u :| 0 <= j < |h| && u in TxsOf(h[j]) && u.hash == t.hash && (j != i || u != t);
    assert (h + [x])[j] == h[j];
  }

  lemma SharedWithNew(h: seq<Indexed>, x: Indexed, i: nat, t: Tx, u: Tx)
    requires u in TxsOf(x) && u.hash == t.hash && (i != |h| || u != t)
    ensures Shared(h + [x], i, t)
  {
    assert (h + [x])[|h|] == x;
  }

  lemma SharedWithOld(h: seq<Indexed>, x: Indexed, t: Tx, u: Tx)
    requires FromBlock(h, u) && u.hash == t.hash
    ensures Shared(h + [x], |h|, t)
  {
    var j :| 0 <= j < |h| && u in TxsOf(h[j]);
    assert (h + [x])[j] == h[j];
  }

  /** An old transaction keeps its row, unless the new block has a success of the same hash. */
  lemma OldTxStored(txs: Table<TxBody>, h: seq<Indexed>, x: Indexed, i: nat, t: Tx)
    requires i < |h| && StoredOrShared(txs, h, i, t)
    ensures StoredOrShared(Merge(txs, TxsOf(x)), h + [x], i, t)
  {
    var rows := TxsOf(x);
    if Shared(h, i, t) {
      SharedGrows(h, x, i, t);
    } else {
      assert Lookup(Merge(txs, rows), t.hash) == StoredRow(txs, rows, t.hash);
      FirstSuccessMeans(rows, t.hash);
      if FirstSuccess(rows, t.hash).Some? {
        SharedWithNew(h, x, i, t, FirstSuccess(rows, t.hash).value);
      }
    }
  }

  /** A new transaction gets its row, unless the hash has one already or again in the block. */
  lemma NewTxStored(txs: Table<TxBody>, h: seq<Indexed>, x: Indexed, t: Tx)
    requires TxRowsInv(txs, h) && OwnTxs(x) && t in TxsOf(x)
    ensures StoredOrShared(Merge(txs, TxsOf(x)), h + [x], |h|, t)
  {
    var rows := TxsOf(x);
    assert Lookup(Merge(txs, rows), t.hash) == StoredRow(txs, rows, t.hash);
    FirstSuccessMeans(rows, t.hash);
    FirstWithMeans(rows, t.hash);
    if FirstSuccess(rows, t.hash).Some? && FirstSuccess(rows, t.hash).value != t {
      SharedWithNew(h, x, |h|, t, FirstSuccess(rows, t.hash).value);
    } else if FirstSuccess(rows, t.hash).None? && t.hash in txs {
      SharedWithOld(h, x, t, txs[t.hash]);
    } else if FirstSuccess(rows, t.hash).None? && FirstWith(rows, t.hash).value != t {
      SharedWithNew(h, x, |h|, t, FirstWith(rows, t.hash).value);
    }
  }

  lemma CommitKeepsStored(txs: Table<TxBody>, h: seq<Indexed>, deleted: nat, x: Indexed)
    requires TxRowsInv(txs, h) && OwnTxs(x) && StoredInv(txs, h, deleted)
    ensures StoredInv(Merge(txs, TxsOf(x)), h + [x], deleted)
  {
    var h' := h + [x];
    forall i, t | 0 <= i < |h'| && RoundOf(h'[i]) >= deleted && t in TxsOf(h'[i])
      ensures StoredOrShared(Merge(txs, TxsOf(x)), h', i, t)
    {
      if i < |h| {
        OldTxStored(txs, h, x, i, t);
      } else {
        NewTxStored(txs, h, x, t);
      }
    }
  }

  lemma CommitKeepsTxRows(txs: Table<TxBody>, h: seq<Indexed>, x: Indexed)
    requires TxRowsInv(txs, h) && OwnTxs(x)
    ensures TxRowsInv(Merge(txs, TxsOf(x)), h + [x])
  {
    var rows, h' := TxsOf(x), h + [x];
    forall k | k in Merge(txs, rows) ensures Merge(txs, rows)[k].hash == k && FromBlock(h', Merge(txs, rows)[k]) {
      assert Lookup(Merge(txs, rows), k) == StoredRow(txs, rows, k);
      FirstSuccessMeans(rows, k);
      FirstWithMeans(rows, k);
      if FirstSuccess(rows, k).None? && k in txs {
        var i :| 0 <= i < |h| && txs[k] in TxsOf(h[i]);
        assert h'[i] == h[i];
      } else {
        assert h'[|h|] == x;
      }
    }
  }

  lemma NewBlockOwnsTxs(b: RawBlock, x: Indexed)
    requires Convertible(b) && x.data == Emitted(ModelsOf(b))
    ensures OwnTxs(x) && TxsOf(x) == ModelsOf(b).txs
  {
  }

  lemma CommitKeepsTxs(w: World, b: RawBlock)
    requires TxInv(w) && w.worker.Indexing? && Convertible(b)
    ensures TxInv(AfterCommit(w, b))
  {
    var x := Indexed(Emitted(ModelsOf(b)), ModelsOf(b).logs, w.worker.floor);
    NewBlockOwnsTxs(b, x);
    CommitKeepsTxRows(w.store.txs, w.history, x);
    CommitKeepsStored(w.store.txs, w.history, w.deleted, x);
  }

  // ---------------------------------------------------------------- every run

  lemma DeleteKeepsStored(txs: Table<TxBody>, h: seq<Indexed>, deleted: nat, bound: nat)
    requires OwnTxsInv(h) && StoredInv(txs, h, deleted)
    ensures StoredInv(KeepRows(txs, bound), h, Max(deleted, bound))
  {
    forall i, t | 0 <= i < |h| && RoundOf(h[i]) >= Max(deleted, bound) && t in TxsOf(h[i])
      ensures StoredOrShared(KeepRows(txs, bound), h, i, t)
    {
      assert OwnTxs(h[i]) && StoredOrShared(txs, h, i, t);
    }
  }

  lemma StepKeepsTxs(w: World, e: Event)
    requires TxInv(w)
    ensures TxInv(Step(w, e))
  {
    if e.Attempt? && w.worker.Indexing? && e.block.round == w.worker.round && Commits(w.store, e.block, e.dbOk) {
      CommitKeepsTxs(w, e.block);
    } else if e.DeletePrune? && w.pruner.Marked? && e.ok {
      DeleteKeepsStored(w.store.txs, w.history, w.deleted, w.pruner.bound);
    }
  }

  lemma {:induction false} TxsHold(cfg: Config, events: seq<Event>)
    ensures TxInv(Run(cfg, events))
  {
    if events != [] {
      TxsHold(cfg, events[..|events| - 1]);
      StepKeepsTxs(Run(cfg, events[..|events| - 1]), events[|events| - 1]);
    }
  }

  // ---------------------------------------------------------------- the join

  /** What the store joins to a block. */
  ghost predicate Joined(s: Store, hash: Hash, t: Tx) { t in s.txs.Values && t.blockHash == hash }

  lemma JoinedIsListed(w: World, i: nat, t: Tx)
    requires TxInv(w) && Increasing(w.history) && HeadersInv(w.store.blocks, w.history, w.deleted)
    requires RowsFrom(w.store.txs, w.deleted) && i < |w.history| && RoundOf(w.history[i]) >= w.deleted
    requires Joined(w.store, w.history[i].data.block.hash, t)
    ensures t in TxsOf(w.history[i]) && Lookup(w.store.txs, t.hash) == Some(t)
  {
    var k :| k in w.store.txs && w.store.txs[k] == t;
    assert FromBlock(w.history, t);
    var j :| 0 <= j < |w.history| && t in TxsOf(w.history[j]);
    assert OwnTxs(w.history[j]);
    var b, c := w.history[i].data.block, w.history[j].data.block;
    assert Lookup(w.store.blocks, b.hash) == Some(BlockRow(b)) && Lookup(w.store.blocks, c.hash) == Some(BlockRow(c));
    assert BlockRow(b).round == BlockRow(c).round;
    assert i == j;
  }

  lemma ListedIsJoined(w: World, i: nat, t: Tx)
    requires TxInv(w) && i < |w.history| && RoundOf(w.history[i]) >= w.deleted && t in TxsOf(w.history[i])
    ensures Lookup(w.store.txs, t.hash) == Some(t) ==> Joined(w.store, w.history[i].data.block.hash, t)
    ensures Lookup(w.store.txs, t.hash) == Some(t) || Shared(w.history, i, t)
  {
    assert OwnTxs(w.history[i]) && StoredOrShared(w.store.txs, w.history, i, t);
  }

  /** A cached block not below the highest committed prune bound: the store joins exactly those of its
      transactions that own the row of their hash, and every transaction whose hash occurs once in the
      history is among them. */
  lemma CachedTransactionsAreJoined(cfg: Config, events: seq<Event>, max: nat, k: nat, t: Tx) returns (i: nat)
    requires SafePlans(cfg, events) && Run(cfg, events).since <= Observed(Run(cfg, events))
    requires k < |CacheBlocks(Run(cfg, events), max)|
    requires CacheBlocks(Run(cfg, events), max)[k].block.round >= Run(cfg, events).deleted
    ensures
      var w := Run(cfg, events);
      var b := CacheBlocks(w, max)[k].block;
      && i < |w.history| && w.history[i].data.block == b
      && (Joined(w.store, b.hash, t) <==> t in b.transactions && Lookup(w.store.txs, t.hash) == Some(t))
      && (t in b.transactions && !Shared(w.history, i, t) ==> Joined(w.store, b.hash, t))
  {
    var w := Run(cfg, events);
    TxsHold(cfg, events);
    RoundsHold(cfg, events);
    PrunedHolds(cfg, events);
    i := CachedIsHistory(w, max, k);
    if Joined(w.store, w.history[i].data.block.hash, t) {
      JoinedIsListed(w, i, t);
    }
    if t in TxsOf(w.history[i]) {
      ListedIsJoined(w, i, t);
    }
  }
}
