/**
 The database as a value, and the backend that writes it (indexer/utils.go: the storing half of
 StoreBlockData; indexer/backend.go: Prune; storage/psql/psql.go for what each statement does).

 A storage transaction works on a copy and assigns it at the end, so a failure leaves no trace.
 `dbOk` parameters stand for the database itself failing.
 */
module IndexStore {
  import opened Model
  import opened Tables
  import opened BlockConversion

  datatype Store = Store(txs: Table<TxBody>, receipts: Table<ReceiptBody>, logs: map<(Hash, nat), Log>,
                         blocks: map<Hash, Block>, continues: Option<nat>, lastRetained: Option<nat>)

  const EmptyStore := Store(map[], map[], map[], map[], None, None)

  /** Primary key of the log table. */
  function Key(l: Log): (Hash, nat) { (l.txHash, l.index) }

  // ---------------------------------------------------------------- indexing

  predicate FreshLogs(table: map<(Hash, nat), Log>, logs: seq<Log>) {
    && (forall i :: 0 <= i < |logs| ==> Key(logs[i]) !in table)
    && (forall i, j :: 0 <= i < j < |logs| ==> Key(logs[i]) != Key(logs[j]))
  }

  function AddLogs(table: map<(Hash, nat), Log>, logs: seq<Log>): map<(Hash, nat), Log> {
    if logs == [] then table else AddLogs(table, logs[..|logs| - 1])[Key(logs[|logs| - 1]) := logs[|logs| - 1]]
  }

  /** Hash is the primary key and round carries a unique index. */
  predicate FreshBlock(blocks: map<Hash, Block>, b: Block) {
    b.hash !in blocks && forall h :: h in blocks ==> blocks[h].round != b.round
  }

  ghost predicate Accepts(s: Store, m: Models) {
    && !DuplicateSuccess(s.txs, m.txs)
    && !DuplicateSuccess(s.receipts, m.receipts)
    && FreshLogs(s.logs, m.logs)
    && FreshBlock(s.blocks, m.block)
  }

  function BlockRow(b: Block): Block { b.(transactions := []) }

  function StoreAfter(s: Store, m: Models): Store {
    Store(Merge(s.txs, m.txs), Merge(s.receipts, m.receipts), AddLogs(s.logs, m.logs),
          s.blocks[m.block.hash := BlockRow(m.block)], Some(m.block.round), s.lastRetained)
  }

  function Emitted(m: Models): BlockData {
    BlockData(m.block, Successes(m.receipts), Successes(m.txs), m.median)
  }

  // ---------------------------------------------------------------- pruning

  function KeepRows<T>(table: Table<T>, bound: nat): Table<T> {
    map h | h in table && table[h].round >= bound :: table[h]
  }

  /** Every table loses its rows of rounds strictly below the bound. */
  function DeleteBelow(s: Store, bound: nat): Store {
    s.(txs := KeepRows(s.txs, bound), receipts := KeepRows(s.receipts, bound),
       logs := map k | k in s.logs && s.logs[k].round >= bound :: s.logs[k],
       blocks := map h | h in s.blocks && s.blocks[h].round >= bound :: s.blocks[h])
  }

  // ---------------------------------------------------------------- queries

  predicate LogOrder(a: Log, b: Log) {
    a.round < b.round ||
    (a.round == b.round && (a.txIndex < b.txIndex || (a.txIndex == b.txIndex && a.index <= b.index)))
  }

  predicate InRange(l: Log, first: nat, last: nat) { first <= l.round <= last }

  /** `r` lists the rows of the range, each once, ordered by (round, tx_index, index). */
  ghost predicate IsListing(table: map<(Hash, nat), Log>, first: nat, last: nat, r: seq<Log>) {
    && (forall l :: l in r <==> l in table.Values && InRange(l, first, last))
    && (forall i, j :: 0 <= i < j < |r| ==> r[i] != r[j] && LogOrder(r[i], r[j]))
  }

  /** A listing is sorted by round, within a round by transaction, and within a transaction by index. */
  lemma ListingOrder(table: map<(Hash, nat), Log>, first: nat, last: nat, r: seq<Log>, i: nat, j: nat)
    requires IsListing(table, first, last, r) && i < j < |r|
    ensures first <= r[i].round <= r[j].round <= last
    ensures r[i].round == r[j].round ==> r[i].txIndex <= r[j].txIndex
    ensures r[i].round == r[j].round && r[i].txIndex == r[j].txIndex ==> r[i].index <= r[j].index
  {
    assert r[i] in r && r[j] in r;
  }

  lemma {:induction false} LeastLogExists(rows: set<Log>) returns (l: Log)
    requires rows != {}
    ensures l in rows && forall m :: m in rows ==> LogOrder(l, m)
    decreases |rows|
  {
    l :| l in rows;
    var rest := rows - {l};
    if rest != {} {
      var k := LeastLogExists(rest);
      if !LogOrder(l, k) {
        forall m | m in rows ensures LogOrder(k, m) {
          if m != l {
            assert m in rest;
          }
        }
        l := k;
      } else {
        forall m | m in rows ensures LogOrder(l, m) {
          if m != l {
            assert m in rest && LogOrder(k, m);
          }
        }
      }
    }
  }

  class IndexBackend {
    var store: Store

    constructor ()
      ensures store == EmptyStore
    {
      store := EmptyStore;
    }

    /** Converts and stores a block; all tables change together or not at all. */
    method StoreBlockData(b: RawBlock, dbOk: bool) returns (r: Option<BlockData>)
      modifies this
      ensures r.Some? <==> dbOk && Convertible(b) && Accepts(old(store), ModelsOf(b))
      ensures r.Some? ==> r.value == Emitted(ModelsOf(b)) && store == StoreAfter(old(store), ModelsOf(b))
      ensures r.None? ==> store == old(store)
    {
      var converted := Convert(b);
      if converted.None? {
        return None;
      }
      var m := converted.value;
      var okTxs, txs, upsertedTxes := StoreRows(store.txs, m.txs);
      if !okTxs {
        return None;
      }
      var okReceipts, receipts, upsertedReceipts := StoreRows(store.receipts, m.receipts);
      if !okReceipts {
        return None;
      }
      var okLogs, logs := InsertLogs(store.logs, m.logs);
      if !okLogs {
        return None;
      }
      if m.block.hash in store.blocks || exists h :: h in store.blocks && store.blocks[h].round == m.block.round {
        return None;
      }
      if !dbOk {
        return None;
      }
      store := Store(txs, receipts, logs, store.blocks[m.block.hash := m.block.(transactions := [])],
                     Some(m.block.round), store.lastRetained);
      r := Some(BlockData(m.block, upsertedReceipts, upsertedTxes, m.median));
    }

    /** Writes the marker; false stands for a database error. */
    method StoreLastRetainedRound(round: nat, dbOk: bool)
      modifies this
      ensures store == if dbOk then old(store).(lastRetained := Some(round)) else old(store)
    {
      if dbOk {
        store := store.(lastRetained := Some(round));
      }
    }

    /** The deleting transaction. */
    method DeleteRounds(round: nat, dbOk: bool)
      modifies this
      ensures store == if dbOk then DeleteBelow(old(store), round) else old(store)
    {
      if dbOk {
        store := DeleteBelow(store, round);
      }
    }

    /** The marker is written outside the deleting transaction, before it. */
    method Prune(round: nat, markerOk: bool, deletesOk: bool) returns (ok: bool)
      modifies this
      ensures ok <==> markerOk && deletesOk
      ensures !markerOk ==> store == old(store)
      ensures markerOk && !deletesOk ==> store == old(store).(lastRetained := Some(round))
      ensures ok ==> store == DeleteBelow(old(store), round).(lastRetained := Some(round))
    {
      StoreLastRetainedRound(round, markerOk);
      if !markerOk {
        return false;
      }
      DeleteRounds(round, deletesOk);
      ok := deletesOk;
    }

    method QueryTransaction(h: Hash) returns (r: Option<Tx>)
      ensures r == Lookup(store.txs, h)
    {
      r := if h in store.txs then Some(store.txs[h]) else None;
    }

    /** ORDER BY round, tx_index, index over the rows of the range. */
    method GetLogs(first: nat, last: nat) returns (r: seq<Log>)
      ensures IsListing(store.logs, first, last, r)
    {
      var rows := set k | k in store.logs && InRange(store.logs[k], first, last) :: store.logs[k];
      var rest := rows;
      r := [];
      while rest != {}
        invariant rest <= rows
        invariant forall l :: l in r <==> l in rows && l !in rest
        invariant forall i, l :: 0 <= i < |r| && l in rest ==> LogOrder(r[i], l)
        invariant forall i, j :: 0 <= i < j < |r| ==> r[i] != r[j] && LogOrder(r[i], r[j])
        decreases rest
      {
        ghost var least := LeastLogExists(rest);
        var l :| l in rest && forall m :: m in rest ==> LogOrder(l, m);
        r := r + [l];
        rest := rest - {l};
      }
      assert forall l :: l in rows <==> l in store.logs.Values && InRange(l, first, last);
    }
  }

  /** Plain inserts: the first key that already exists is an error. */
  method InsertLogs(table: map<(Hash, nat), Log>, logs: seq<Log>)
    returns (ok: bool, result: map<(Hash, nat), Log>)
    ensures ok <==> FreshLogs(table, logs)
    ensures ok ==> result == AddLogs(table, logs)
  {
    result := table;
    var i := 0;
    while i < |logs|
      invariant 0 <= i <= |logs|
      invariant result == AddLogs(table, logs[..i])
      invariant FreshLogs(table, logs[..i])
    {
      assert logs[..i + 1][..i] == logs[..i];
      FreshStep(table, logs[..i + 1]);
      if Key(logs[i]) in result {
        FreshPrefix(table, logs, i + 1);
        ok := false;
        return;
      }
      result := result[Key(logs[i]) := logs[i]];
      i := i + 1;
    }
    assert logs[..i] == logs;
    ok := true;
  }

  lemma FreshPrefix(table: map<(Hash, nat), Log>, logs: seq<Log>, n: nat)
    requires n <= |logs| && !FreshLogs(table, logs[..n])
    ensures !FreshLogs(table, logs)
  {
  }

  lemma FreshStep(table: map<(Hash, nat), Log>, logs: seq<Log>)
    requires logs != [] && FreshLogs(table, logs[..|logs| - 1])
    ensures FreshLogs(table, logs) <==> Key(logs[|logs| - 1]) !in AddLogs(table, logs[..|logs| - 1])
  {
    var init := logs[..|logs| - 1];
    AddLogsKeys(table, init);
    assert forall i :: 0 <= i < |init| ==> init[i] == logs[i];
  }

  lemma {:induction false} AddLogsKeys(table: map<(Hash, nat), Log>, logs: seq<Log>)
    ensures forall k :: k in AddLogs(table, logs) <==> k in table || exists i :: 0 <= i < |logs| && Key(logs[i]) == k
  {
    if logs != [] {
      var init := logs[..|logs| - 1];
      AddLogsKeys(table, init);
      forall k ensures k in AddLogs(table, logs) <==> k in table || exists i :: 0 <= i < |logs| && Key(logs[i]) == k {
        if exists i :: 0 <= i < |logs| && Key(logs[i]) == k {
          var i :| 0 <= i < |logs| && Key(logs[i]) == k;
          assert i < |init| ==> Key(init[i]) == k;
        }
        if exists i :: 0 <= i < |init| && Key(init[i]) == k {
          var i :| 0 <= i < |init| && Key(init[i]) == k;
          assert Key(logs[i]) == k;
        }
        assert Key(logs[|logs| - 1]) == k ==> exists i :: 0 <= i < |logs| && Key(logs[i]) == k;
      }
    }
  }

  /** Fresh logs are all there afterwards and the old ones have not moved. */
  lemma {:induction false} AddLogsMeans(table: map<(Hash, nat), Log>, logs: seq<Log>)
    requires FreshLogs(table, logs)
    ensures forall k :: k in table ==> k in AddLogs(table, logs) && AddLogs(table, logs)[k] == table[k]
    ensures forall i :: 0 <= i < |logs| ==>
              Key(logs[i]) in AddLogs(table, logs) && AddLogs(table, logs)[Key(logs[i])] == logs[i]
  {
    if logs != [] {
      AddLogsMeans(table, logs[..|logs| - 1]);
    }
  }
}
