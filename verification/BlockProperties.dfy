/** What holds of every converted block. */
module BlockProperties {
  import opened Model
  import opened Tables
  import opened BlockConversion

  // ---------------------------------------------------------------- log numbering

  /** A log at its place: numbered by it, and of the transaction its tx index names, which did emit logs. */
  ghost predicate InPlace(l: Log, k: nat, facts: seq<TxFacts>, round: nat, bh: Hash) {
    && l.index == k && l.round == round && l.blockHash == bh
    && l.txIndex < |facts| && l.txHash == facts[l.txIndex].tx.hash && facts[l.txIndex].contents != []
  }

  /** Every log is in its place, and the list walks through the transactions in order. */
  ghost predicate WellNumbered(logs: seq<Log>, facts: seq<TxFacts>, round: nat, bh: Hash) {
    && (forall k :: 0 <= k < |logs| ==> InPlace(logs[k], k, facts, round, bh))
    && (forall j, k :: 0 <= j < k < |logs| ==> logs[j].txIndex <= logs[k].txIndex)
  }

  lemma {:induction false} LogsNumbered(facts: seq<TxFacts>, round: nat, bh: Hash)
    ensures WellNumbered(BlockLogs(facts, round, bh), facts, round, bh)
  {
    if facts != [] {
      var init := facts[..|facts| - 1];
      LogsNumbered(init, round, bh);
      var before, logs := BlockLogs(init, round, bh), BlockLogs(facts, round, bh);
      forall k | 0 <= k < |logs| ensures InPlace(logs[k], k, facts, round, bh) {
        if k < |before| {
          assert InPlace(before[k], k, init, round, bh);
        }
      }
    }
  }

  // ---------------------------------------------------------------- receipts split the logs

  /** The logs of transaction i, numbered as in the block. */
  function Segment(facts: seq<TxFacts>, i: nat, round: nat, bh: Hash): seq<Log>
    requires i < |facts|
  {
    Numbered(facts[i], round, bh, |BlockLogs(facts[..i], round, bh)|, i)
  }

  lemma {:induction false} WithHashConcat(a: seq<Log>, b: seq<Log>, h: Hash)
    ensures WithHash(a + b, h) == WithHash(a, h) + WithHash(b, h)
  {
    if b == [] {
      assert a + b == a;
    } else {
      var c := b[..|b| - 1];
      assert (a + b)[..|a + b| - 1] == a + c;
      WithHashConcat(a, c, h);
    }
  }

  lemma {:induction false} WithHashUniform(logs: seq<Log>, g: Hash, h: Hash)
    requires forall k :: 0 <= k < |logs| ==> logs[k].txHash == g
    ensures WithHash(logs, h) == if g == h then logs else []
  {
    if logs != [] {
      WithHashUniform(logs[..|logs| - 1], g, h);
    }
  }

  lemma HashStep(facts: seq<TxFacts>, round: nat, bh: Hash, h: Hash)
    requires facts != []
    ensures
      var n := |facts| - 1;
      WithHash(BlockLogs(facts, round, bh), h) ==
      WithHash(BlockLogs(facts[..n], round, bh), h) +
      (if facts[n].tx.hash == h then Segment(facts, n, round, bh) else [])
  {
    var n := |facts| - 1;
    WithHashConcat(BlockLogs(facts[..n], round, bh), Segment(facts, n, round, bh), h);
    WithHashUniform(Segment(facts, n, round, bh), facts[n].tx.hash, h);
  }

  lemma {:induction false} NoLogsOfHash(facts: seq<TxFacts>, round: nat, bh: Hash, h: Hash)
    requires forall j :: 0 <= j < |facts| && facts[j].tx.hash == h ==> facts[j].contents == []
    ensures WithHash(BlockLogs(facts, round, bh), h) == []
  {
    if facts != [] {
      NoLogsOfHash(facts[..|facts| - 1], round, bh, h);
      HashStep(facts, round, bh, h);
    }
  }

  /** No other transaction with this hash has logs. */
  ghost predicate OwnsItsLogs(facts: seq<TxFacts>, i: nat)
    requires i < |facts|
  {
    forall j :: 0 <= j < |facts| && j != i && facts[j].tx.hash == facts[i].tx.hash ==> facts[j].contents == []
  }

  lemma {:induction false} HashSelectsSegment(facts: seq<TxFacts>, i: nat, round: nat, bh: Hash)
    requires i < |facts| && OwnsItsLogs(facts, i)
    ensures WithHash(BlockLogs(facts, round, bh), facts[i].tx.hash) == Segment(facts, i, round, bh)
  {
    var n := |facts| - 1;
    HashStep(facts, round, bh, facts[i].tx.hash);
    if i == n {
      NoLogsOfHash(facts[..n], round, bh, facts[i].tx.hash);
    } else {
      assert facts[..n][..i] == facts[..i];
      HashSelectsSegment(facts[..n], i, round, bh);
      assert facts[n].tx.hash == facts[i].tx.hash ==> Segment(facts, n, round, bh) == [];
    }
  }

  ghost predicate FailuresEmitNothing(facts: seq<TxFacts>) {
    forall i :: 0 <= i < |facts| && !facts[i].success ==> facts[i].contents == []
  }

  ghost predicate DistinctSuccesses(facts: seq<TxFacts>) {
    forall i, j :: 0 <= i < j < |facts| && facts[i].success && facts[j].success ==> facts[i].tx.hash != facts[j].tx.hash
  }

  ghost predicate DistinctHashes(facts: seq<TxFacts>) {
    forall i, j :: 0 <= i < j < |facts| ==> facts[i].tx.hash != facts[j].tx.hash
  }

  /** Receipts that belong to `facts` and carry the logs of their own transactions. */
  ghost predicate CarryOwnLogs(receipts: seq<Receipt>, facts: seq<TxFacts>, round: nat, bh: Hash) {
    && |receipts| == |facts|
    && forall i :: 0 <= i < |facts| ==>
         && receipts[i].success == facts[i].success
         && (receipts[i].success ==> receipts[i].logs == Segment(facts, i, round, bh))
  }

  lemma {:induction false} SegmentsConcatenate(receipts: seq<Receipt>, facts: seq<TxFacts>, round: nat, bh: Hash)
    requires CarryOwnLogs(receipts, facts, round, bh) && FailuresEmitNothing(facts)
    ensures Flatten(Successes(receipts)) == BlockLogs(facts, round, bh)
  {
    if facts != [] {
      var n := |facts| - 1;
      var init := facts[..n];
      assert forall i :: 0 <= i < n ==> init[..i] == facts[..i];
      SegmentsConcatenate(receipts[..n], init, round, bh);
      FlattenSuccessStep(receipts);
    }
  }

  lemma {:induction false} FlattenSuccessStep(receipts: seq<Receipt>)
    requires receipts != []
    ensures Flatten(Successes(receipts)) ==
            Flatten(Successes(receipts[..|receipts| - 1])) +
            (if receipts[|receipts| - 1].success then receipts[|receipts| - 1].logs else [])
  {
    var s := Successes(receipts[..|receipts| - 1]);
    var t := Successes(receipts);
    if receipts[|receipts| - 1].success {
      assert t[..|t| - 1] == s && t[|t| - 1] == receipts[|receipts| - 1];
    } else {
      assert t == s;
    }
  }

  lemma ReceiptCarriesSegment(b: RawBlock, i: nat)
    requires Convertible(b) && i < |EthFacts(b.items)| && OwnsItsLogs(EthFacts(b.items), i)
    ensures ModelsOf(b).receipts[i].success == EthFacts(b.items)[i].success
    ensures ModelsOf(b).receipts[i].logs == Segment(EthFacts(b.items), i, b.round, b.hash)
  {
    HashSelectsSegment(EthFacts(b.items), i, b.round, b.hash);
  }

  /** The logs of the receipts that reach the observers are the block's logs, in order, as soon as no
      success is repeated in the block and failed transactions emit none. */
  lemma ReceiptsSplitLogs(b: RawBlock)
    requires Convertible(b)
    requires FailuresEmitNothing(EthFacts(b.items)) && DistinctSuccesses(EthFacts(b.items))
    ensures Flatten(Successes(ModelsOf(b).receipts)) == ModelsOf(b).logs
  {
    var facts := EthFacts(b.items);
    forall i | 0 <= i < |facts| && facts[i].success
      ensures ModelsOf(b).receipts[i].logs == Segment(facts, i, b.round, b.hash)
    {
      ReceiptCarriesSegment(b, i);
    }
    SegmentsConcatenate(ModelsOf(b).receipts, facts, b.round, b.hash);
  }

  function LogCount(facts: seq<TxFacts>, ofSuccesses: bool): nat {
    if facts == [] then 0 else
    var last := facts[|facts| - 1];
    LogCount(facts[..|facts| - 1], ofSuccesses) +
    (if ofSuccesses && !last.success then 0 else |last.contents|)
  }

  lemma {:induction false} EmittedBySuccesses(receipts: seq<Receipt>, facts: seq<TxFacts>, round: nat, bh: Hash)
    requires CarryOwnLogs(receipts, facts, round, bh)
    ensures |Flatten(Successes(receipts))| == LogCount(facts, true)
    ensures |BlockLogs(facts, round, bh)| == LogCount(facts, false)
  {
    if facts != [] {
      var n := |facts| - 1;
      assert forall i :: 0 <= i < n ==> facts[..n][..i] == facts[..i];
      EmittedBySuccesses(receipts[..n], facts[..n], round, bh);
      FlattenSuccessStep(receipts);
    }
  }

  lemma {:induction false} EqualCounts(facts: seq<TxFacts>)
    ensures LogCount(facts, true) <= LogCount(facts, false)
    ensures LogCount(facts, true) == LogCount(facts, false) ==> FailuresEmitNothing(facts)
  {
    if facts != [] {
      EqualCounts(facts[..|facts| - 1]);
    }
  }

  /** For a block of distinct hashes that hypothesis is exactly what is needed: the observers see all
      of the block's logs if and only if no failed transaction emitted one. */
  lemma ObserversSeeAllLogs(b: RawBlock)
    requires Convertible(b) && DistinctHashes(EthFacts(b.items))
    ensures Flatten(Successes(ModelsOf(b).receipts)) == ModelsOf(b).logs <==> FailuresEmitNothing(EthFacts(b.items))
  {
    var facts := EthFacts(b.items);
    forall i | 0 <= i < |facts| ensures ModelsOf(b).receipts[i].logs == Segment(facts, i, b.round, b.hash) {
      ReceiptCarriesSegment(b, i);
    }
    EmittedBySuccesses(ModelsOf(b).receipts, facts, b.round, b.hash);
    EqualCounts(facts);
    if FailuresEmitNothing(facts) {
      ReceiptsSplitLogs(b);
    }
  }

  lemma {:induction false} AllSegmentsConcatenate(receipts: seq<Receipt>, facts: seq<TxFacts>, round: nat, bh: Hash)
    requires |receipts| == |facts|
    requires forall i :: 0 <= i < |facts| ==> receipts[i].logs == Segment(facts, i, round, bh)
    ensures Flatten(receipts) == BlockLogs(facts, round, bh)
  {
    if facts != [] {
      var n := |facts| - 1;
      assert forall i :: 0 <= i < n ==> facts[..n][..i] == facts[..i];
      AllSegmentsConcatenate(receipts[..n], facts[..n], round, bh);
    }
  }

  /** A block with distinct hashes: all receipts together, failed ones included, carry its logs in order. */
  lemma AllReceiptsSplitLogs(b: RawBlock)
    requires Convertible(b) && DistinctHashes(EthFacts(b.items))
    ensures Flatten(ModelsOf(b).receipts) == ModelsOf(b).logs
  {
    var facts := EthFacts(b.items);
    forall i | 0 <= i < |facts| ensures ModelsOf(b).receipts[i].logs == Segment(facts, i, b.round, b.hash) {
      ReceiptCarriesSegment(b, i);
    }
    AllSegmentsConcatenate(ModelsOf(b).receipts, facts, b.round, b.hash);
  }

  // ---------------------------------------------------------------- gas and fees

  /** Cumulative gas grows by each receipt's own gas and ends at the header's figure. */
  lemma CumulativeGas(b: RawBlock, i: nat)
    requires Convertible(b) && i < |EthFacts(b.items)|
    ensures
      var m := ModelsOf(b);
      && m.receipts[i].body.cumulativeGasUsed ==
         (if i == 0 then 0 else m.receipts[i - 1].body.cumulativeGasUsed) + m.receipts[i].body.gasUsed
      && (i == |m.receipts| - 1 ==> m.receipts[i].body.cumulativeGasUsed == m.block.header.gasUsed)
  {
    var facts := EthFacts(b.items);
    assert facts[..i + 1][..i] == facts[..i];
    assert facts[..|facts|] == facts;
    ReadablePriced(b.items);
    assert GasSum(facts[..i + 1]) == GasSum(facts[..i]) + facts[i].gasUsed;
    if i > 0 {
      assert ModelsOf(b).receipts[i - 1] == ReceiptRow(facts, i - 1, b.round, b.hash, ModelsOf(b).logs);
    }
  }

  /** Fees the block's fee-observed transactions transferred. */
  function Transferred(facts: seq<TxFacts>): nat {
    if facts == [] then 0 else Transferred(facts[..|facts| - 1]) + facts[|facts| - 1].fees
  }

  /** What their receipts account for: effective price times gas used. */
  function Accounted(facts: seq<TxFacts>): nat
    requires Priced(facts)
  {
    if facts == [] then 0 else
    var last := facts[|facts| - 1];
    Accounted(facts[..|facts| - 1]) + (if last.fees > 0 then EffectivePrice(last) * last.gasUsed else 0)
  }

  function RoundingBound(facts: seq<TxFacts>): nat
    requires Priced(facts)
  {
    if facts == [] then 0 else
    var last := facts[|facts| - 1];
    RoundingBound(facts[..|facts| - 1]) + (if last.fees > 0 then last.gasUsed - 1 else 0)
  }

  lemma DivisionLoss(fees: nat, gas: nat)
    requires gas > 0
    ensures 0 <= fees - (fees / gas) * gas <= gas - 1
  {
    assert fees == (fees / gas) * gas + fees % gas;
  }

  /** Fees are conserved up to the rounding of one integer division per transaction. */
  lemma {:induction false} FeesConserved(facts: seq<TxFacts>)
    requires Priced(facts)
    ensures 0 <= Transferred(facts) - Accounted(facts) <= RoundingBound(facts)
  {
    if facts != [] {
      var init, last := facts[..|facts| - 1], facts[|facts| - 1];
      FeesConserved(init);
      if last.fees > 0 {
        DivisionLoss(last.fees, last.gasUsed);
      }
    }
  }

  // ---------------------------------------------------------------- median

  /** In a block of Ethereum transactions only, the reported price is that of the (upper) middle one. */
  lemma {:induction false} MedianOfEthBlock(items: seq<Item>, k: nat)
    requires k <= |items| && items != []
    requires forall i :: 0 <= i < |items| ==> items[i].Eth?
    ensures MedianOf(items, k) == if k > |items| / 2 then Some(items[|items| / 2].tx.body.gasPrice) else None
  {
    if k > 0 {
      MedianOfEthBlock(items, k - 1);
    }
  }

  /** A middle price is missing only if every later transaction is unreadable or not an Ethereum one. */
  lemma {:induction false} MedianMissing(items: seq<Item>, k: nat)
    requires k <= |items|
    ensures MedianOf(items, k).None? <==> forall i :: 0 <= i < k ==> MedianCandidate(items[i], i, |items|).None?
  {
    if k > 0 {
      MedianMissing(items, k - 1);
    }
  }
}
