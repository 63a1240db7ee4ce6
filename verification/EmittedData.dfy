/** The shape of every BlockData the indexer emits. */
module EmittedData {
  import opened Model
  import opened Tables
  import opened BlockConversion
  import opened BlockProperties
  import opened IndexStore
  import opened StoreProperties

  function DataLogs(bd: BlockData): seq<Log> { Flatten(bd.receipts) }

  ghost predicate DistinctRows<T>(rows: seq<Row<T>>) {
    forall i, j :: 0 <= i < j < |rows| ==> rows[i].hash != rows[j].hash
  }

  /** Numbered 0, 1, 2, ... within the block, transactions in order. */
  ghost predicate InBlockOrder(logs: seq<Log>, round: nat) {
    && (forall k :: 0 <= k < |logs| ==> logs[k].index == k && logs[k].round == round)
    && (forall j, k :: 0 <= j < k < |logs| ==> logs[j].txIndex <= logs[k].txIndex)
  }

  ghost predicate OwnRow<T>(r: Row<T>, bd: BlockData) {
    r.success && r.round == bd.block.round && r.blockHash == bd.block.hash
  }

  ghost predicate OwnLogs(r: Receipt, bd: BlockData) {
    && r.logs == WithHash(DataLogs(bd), r.hash)
    && forall l :: l in r.logs ==>
         l.txHash == r.hash && l.round == r.round && l.blockHash == r.blockHash && l.txIndex == r.index
  }

  /** Transactions and receipts are equally long and hash-aligned successes of the block, and the
      receipts split the block's logs. */
  ghost predicate WellFormed(bd: BlockData) {
    && SameMetas(bd.uniqueTxes, bd.receipts)
    && DistinctRows(bd.uniqueTxes)
    && (forall t :: t in bd.uniqueTxes ==> OwnRow(t, bd) && t.logs == [])
    && (forall r :: r in bd.receipts ==> OwnRow(r, bd) && OwnLogs(r, bd))
    && InBlockOrder(DataLogs(bd), bd.block.round)
  }

  lemma {:induction false} WithHashMember(logs: seq<Log>, h: Hash, l: Log)
    ensures l in WithHash(logs, h) <==> l in logs && l.txHash == h
  {
    if logs != [] {
      WithHashMember(logs[..|logs| - 1], h, l);
      assert logs == logs[..|logs| - 1] + [logs[|logs| - 1]];
    }
  }

  lemma {:induction false} FlattenMember<T>(rows: seq<Row<T>>, l: Log)
    ensures l in Flatten(rows) <==> exists r :: r in rows && l in r.logs
  {
    if rows != [] {
      var init, last := rows[..|rows| - 1], rows[|rows| - 1];
      FlattenMember(init, l);
      assert rows == init + [last];
      assert last in rows;
      if exists r :: r in rows && l in r.logs {
        var r :| r in rows && l in r.logs;
        assert r in init || r == last;
      }
    }
  }

  lemma {:induction false} SuccessesPairwise<T>(rows: seq<Row<T>>)
    requires forall i, j :: 0 <= i < j < |rows| && rows[i].success && rows[j].success ==> rows[i].hash != rows[j].hash
    ensures DistinctRows(Successes(rows))
  {
    if rows != [] {
      var init, last := rows[..|rows| - 1], rows[|rows| - 1];
      SuccessesPairwise(init);
      var s := Successes(init);
      forall i | 0 <= i < |s| && last.success ensures s[i].hash != last.hash {
        SuccessMember(init, s[i]);
        assert s[i] in init && s[i].success;
        var k :| 0 <= k < |init| && init[k] == s[i];
        assert rows[k] == s[i] && rows[|rows| - 1] == last;
      }
    }
  }

  /** What the run invariant needs to know about an accepted block. */
  ghost predicate Sound(s: Store, b: RawBlock) {
    Convertible(b) && Accepts(s, ModelsOf(b)) && FailuresEmitNothing(EthFacts(b.items))
  }

  lemma SoundSuccessesDistinct(s: Store, b: RawBlock)
    requires Sound(s, b)
    ensures DistinctSuccesses(EthFacts(b.items))
  {
    var m := ModelsOf(b);
    var facts := EthFacts(b.items);
    forall i, j | 0 <= i < j < |facts| && facts[i].success && facts[j].success
      ensures facts[i].tx.hash != facts[j].tx.hash
    {
      assert m.txs[i] == TxRow(facts, i, b.round, b.hash) && m.txs[j] == TxRow(facts, j, b.round, b.hash);
      SuccessesDistinct(s.txs, m.txs, i, j);
    }
  }

  lemma ModelsAligned(b: RawBlock)
    requires Convertible(b)
    ensures SameMetas(ModelsOf(b).txs, ModelsOf(b).receipts)
  {
  }

  lemma EmittedLogs(s: Store, b: RawBlock)
    requires Sound(s, b)
    ensures DataLogs(Emitted(ModelsOf(b))) == ModelsOf(b).logs
    ensures InBlockOrder(ModelsOf(b).logs, b.round)
  {
    SoundSuccessesDistinct(s, b);
    ReceiptsSplitLogs(b);
    LogsNumbered(EthFacts(b.items), b.round, b.hash);
  }

  lemma LogOfReceipt(s: Store, b: RawBlock, i: nat, l: Log)
    requires Sound(s, b) && i < |EthFacts(b.items)| && EthFacts(b.items)[i].success
    requires l in WithHash(ModelsOf(b).logs, EthFacts(b.items)[i].tx.hash)
    ensures l.txHash == EthFacts(b.items)[i].tx.hash && l.round == b.round && l.blockHash == b.hash && l.txIndex == i
  {
    var facts, logs := EthFacts(b.items), ModelsOf(b).logs;
    SoundSuccessesDistinct(s, b);
    LogsNumbered(facts, b.round, b.hash);
    WithHashMember(logs, facts[i].tx.hash, l);
    var k :| 0 <= k < |logs| && logs[k] == l;
    assert InPlace(logs[k], k, facts, b.round, b.hash);
  }

  lemma EmittedReceipt(s: Store, b: RawBlock, r: Receipt)
    requires Sound(s, b) && r in Emitted(ModelsOf(b)).receipts
    ensures OwnRow(r, Emitted(ModelsOf(b))) && OwnLogs(r, Emitted(ModelsOf(b)))
  {
    var m, facts := ModelsOf(b), EthFacts(b.items);
    SuccessMember(m.receipts, r);
    EmittedLogs(s, b);
    ReadablePriced(b.items);
    var i :| 0 <= i < |m.receipts| && m.receipts[i] == r;
    assert r == ReceiptRow(facts, i, b.round, b.hash, m.logs);
    forall l | l in r.logs
      ensures l.txHash == r.hash && l.round == r.round && l.blockHash == r.blockHash && l.txIndex == r.index
    {
      LogOfReceipt(s, b, i, l);
    }
  }

  /** Every block that is stored is emitted in this shape. */
  lemma EmittedIsWellFormed(s: Store, b: RawBlock)
    requires Sound(s, b)
    ensures WellFormed(Emitted(ModelsOf(b)))
  {
    var m := ModelsOf(b);
    var bd := Emitted(m);
    ModelsAligned(b);
    SuccessesAligned(m.txs, m.receipts);
    SuccessesMeans(m.txs);
    forall i, j | 0 <= i < j < |m.txs| && m.txs[i].success && m.txs[j].success
      ensures m.txs[i].hash != m.txs[j].hash
    {
      SuccessesDistinct(s.txs, m.txs, i, j);
    }
    SuccessesPairwise(m.txs);
    forall r | r in bd.receipts ensures OwnRow(r, bd) && OwnLogs(r, bd) {
      EmittedReceipt(s, b, r);
    }
    EmittedLogs(s, b);
  }
}
