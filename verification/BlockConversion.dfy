/**
 From a runtime block to database rows (indexer/utils.go: the decoding half of StoreBlockData,
 Logs2EthLogs, ethToModelLogs, blockToModels).

 A transaction result is given in decoded form; what the CBOR and RLP decoders reject is a
 constructor of its own (`BadEth`, `BadEvm`, `BadCore`).
 */
module BlockConversion {
  import opened Model

  datatype Transfer = Transfer(toFeeAccumulator: bool, native: bool, amount: nat)

  datatype RuntimeEvent =
    | EvmLogs(contents: seq<Content>)
    | BadEvm
    | Core(gasUsed: seq<Option<nat>>)       // None: an entry that is not a gas-used event
    | BadCore
    | Transfers(transfers: seq<Option<Transfer>>)  // None: an entry the source skips
    | Ignored

  datatype EthTx = EthTx(hash: Hash, creates: bool, body: TxBody)

  datatype Item =
    | NonEth(gasPrice: Option<nat>)
    | BadEth
    | Eth(tx: EthTx, success: bool, events: seq<RuntimeEvent>, output: Option<string>)

  datatype RawBlock = RawBlock(round: nat, hash: Hash, items: seq<Item>, gasLimit: nat, minGasPrice: nat)

  /** What one Ethereum transaction of the block amounts to. */
  datatype TxFacts = TxFacts(tx: EthTx, success: bool, contents: seq<Content>, gasUsed: nat, fees: nat,
                             output: Option<string>)

  datatype Models = Models(block: Block, txs: seq<Tx>, receipts: seq<Receipt>, logs: seq<Log>,
                           median: Option<nat>)

  // ---------------------------------------------------------------- one transaction

  predicate Decodable(events: seq<RuntimeEvent>) {
    forall i :: 0 <= i < |events| ==> !events[i].BadEvm? && !events[i].BadCore?
  }

  function Contents(events: seq<RuntimeEvent>): seq<Content> {
    if events == [] then [] else
    var last := events[|events| - 1];
    Contents(events[..|events| - 1]) + (if last.EvmLogs? then last.contents else [])
  }

  function Amounts(entries: seq<Option<nat>>): seq<nat> {
    if entries == [] then [] else
    var last := entries[|entries| - 1];
    Amounts(entries[..|entries| - 1]) + (if last.Some? then [last.value] else [])
  }

  /** Every gas-used amount of the transaction, in event order. */
  function GasAmounts(events: seq<RuntimeEvent>): seq<nat> {
    if events == [] then [] else
    var last := events[|events| - 1];
    GasAmounts(events[..|events| - 1]) + (if last.Core? then Amounts(last.gasUsed) else [])
  }

  function Fee(t: Option<Transfer>): nat {
    if t.Some? && t.value.toFeeAccumulator && t.value.native then t.value.amount else 0
  }

  function FeesOf(transfers: seq<Option<Transfer>>): nat {
    if transfers == [] then 0 else FeesOf(transfers[..|transfers| - 1]) + Fee(transfers[|transfers| - 1])
  }

  function Fees(events: seq<RuntimeEvent>): nat {
    if events == [] then 0 else
    var last := events[|events| - 1];
    Fees(events[..|events| - 1]) + (if last.Transfers? then FeesOf(last.transfers) else 0)
  }

  /** A second gas-used event is an error unless everything before it was zero. */
  predicate OneGasAmount(amounts: seq<nat>) {
    forall i :: 0 <= i < |amounts| - 1 ==> amounts[i] == 0
  }

  function LastAmount(amounts: seq<nat>): nat {
    if amounts == [] then 0 else amounts[|amounts| - 1]
  }

  function GasUsed(tx: EthTx, events: seq<RuntimeEvent>): nat {
    var used := LastAmount(GasAmounts(events));
    if used == 0 then tx.body.gas else used
  }

  predicate Readable(item: Item) {
    match item
    case NonEth(_) => true
    case BadEth => false
    case Eth(tx, _, events, _) =>
      Decodable(events) && OneGasAmount(GasAmounts(events)) && (Fees(events) > 0 ==> GasUsed(tx, events) > 0)
  }

  function Facts(item: Item): TxFacts
    requires item.Eth?
  {
    TxFacts(item.tx, item.success, Contents(item.events), GasUsed(item.tx, item.events),
            Fees(item.events), item.output)
  }

  /** The price per unit of gas: fees actually paid if any were seen, the asking price otherwise. */
  function EffectivePrice(f: TxFacts): nat
    requires f.fees > 0 ==> f.gasUsed > 0
  {
    if f.fees > 0 then f.fees / f.gasUsed else f.tx.body.gasPrice
  }

  lemma {:induction false} GasAmountsPrefix(events: seq<RuntimeEvent>, i: nat)
    requires i <= |events|
    ensures GasAmounts(events[..i]) <= GasAmounts(events)
    decreases |events|
  {
    if i < |events| {
      GasAmountsPrefix(events[..|events| - 1], i);
      assert events[..|events| - 1][..i] == events[..i];
    } else {
      assert events[..i] == events;
    }
  }

  lemma SecondAmountStays(events: seq<RuntimeEvent>, i: nat)
    requires i <= |events| && !OneGasAmount(GasAmounts(events[..i]))
    ensures !OneGasAmount(GasAmounts(events))
  {
    GasAmountsPrefix(events, i);
    var k :| 0 <= k < |GasAmounts(events[..i])| - 1 && GasAmounts(events[..i])[k] != 0;
    assert GasAmounts(events)[k] != 0;
  }

  /** The loop over one core event's entries: accepts the amounts while all earlier ones are zero. */
  method ReadGas(entries: seq<Option<nat>>, ghost earlier: seq<nat>, used: nat)
    returns (ok: bool, total: nat)
    requires OneGasAmount(earlier) && used == LastAmount(earlier)
    ensures ok <==> OneGasAmount(earlier + Amounts(entries))
    ensures ok ==> total == LastAmount(earlier + Amounts(entries))
  {
    total := used;
    var i := 0;
    assert earlier + Amounts(entries[..0]) == earlier;
    while i < |entries|
      invariant 0 <= i <= |entries|
      invariant OneGasAmount(earlier + Amounts(entries[..i]))
      invariant total == LastAmount(earlier + Amounts(entries[..i]))
    {
      assert entries[..i + 1][..i] == entries[..i];
      ghost var seen := earlier + Amounts(entries[..i]);
      if entries[i].Some? {
        ghost var next := earlier + Amounts(entries[..i + 1]);
        assert next == seen + [entries[i].value];
        if total != 0 {
          assert next[|seen| - 1] != 0 && |next| == |seen| + 1;
          AmountsPrefix(entries, i + 1);
          assert next <= earlier + Amounts(entries);
          ok := false;
          return;
        }
        total := entries[i].value;
      } else {
        assert earlier + Amounts(entries[..i + 1]) == seen;
      }
      i := i + 1;
    }
    assert entries[..i] == entries;
    ok := true;
  }

  lemma {:induction false} AmountsPrefix(entries: seq<Option<nat>>, i: nat)
    requires i <= |entries|
    ensures Amounts(entries[..i]) <= Amounts(entries)
  {
    if i < |entries| {
      AmountsPrefix(entries[..|entries| - 1], i);
      assert entries[..|entries| - 1][..i] == entries[..i];
    } else {
      assert entries[..i] == entries;
    }
  }

  method ReadFees(transfers: seq<Option<Transfer>>) returns (fees: nat)
    ensures fees == FeesOf(transfers)
  {
    fees := 0;
    for i := 0 to |transfers|
      invariant fees == FeesOf(transfers[..i])
    {
      assert transfers[..i + 1][..i] == transfers[..i];
      if transfers[i].Some? {
        var t := transfers[i].value;
        if t.toFeeAccumulator && t.native {
          fees := fees + t.amount;
        }
      }
    }
    assert transfers[..|transfers|] == transfers;
  }

  lemma EventStep(events: seq<RuntimeEvent>, i: nat)
    requires i < |events|
    ensures
      var e := events[i];
      && Contents(events[..i + 1]) == Contents(events[..i]) + (if e.EvmLogs? then e.contents else [])
      && Fees(events[..i + 1]) == Fees(events[..i]) + (if e.Transfers? then FeesOf(e.transfers) else 0)
      && GasAmounts(events[..i + 1]) == GasAmounts(events[..i]) + (if e.Core? then Amounts(e.gasUsed) else [])
  {
    assert events[..i + 1][..i] == events[..i];
  }

  /** Reads the events of one Ethereum transaction; fails exactly when it is not Readable. */
  method ReadTx(item: Item) returns (r: Option<TxFacts>)
    requires item.Eth?
    ensures r.Some? <==> Readable(item)
    ensures r.Some? ==> r.value == Facts(item)
  {
    var events := item.events;
    var used, fees, contents := 0, 0, [];
    var i := 0;
    while i < |events|
      invariant 0 <= i <= |events|
      invariant Decodable(events[..i])
      invariant contents == Contents(events[..i])
      invariant fees == Fees(events[..i])
      invariant OneGasAmount(GasAmounts(events[..i])) && used == LastAmount(GasAmounts(events[..i]))
    {
      EventStep(events, i);
      match events[i] {
        case EvmLogs(cs) => contents := contents + cs;
        case BadEvm => return None;
        case Core(entries) =>
          var ok, total := ReadGas(entries, GasAmounts(events[..i]), used);
          if !ok {
            SecondAmountStays(events, i + 1);
            return None;
          }
          used := total;
        case BadCore => return None;
        case Transfers(ts) =>
          var f := ReadFees(ts);
          fees := fees + f;
        case Ignored =>
      }
      i := i + 1;
    }
    assert events[..i] == events;
    if used == 0 {
      used := item.tx.body.gas;
    }
    if fees > 0 && used == 0 {
      return None;  // the division of line 399
    }
    r := Some(TxFacts(item.tx, item.success, contents, used, fees, item.output));
  }

  // ---------------------------------------------------------------- the block

  predicate AllReadable(items: seq<Item>) {
    forall i :: 0 <= i < |items| ==> Readable(items[i])
  }

  /** The Ethereum transactions of the block, in order. */
  function EthFacts(items: seq<Item>): seq<TxFacts> {
    if items == [] then [] else
    var last := items[|items| - 1];
    EthFacts(items[..|items| - 1]) + (if last.Eth? then [Facts(last)] else [])
  }

  /** The logs of one transaction, numbered from `start`. */
  function Numbered(f: TxFacts, round: nat, blockHash: Hash, start: nat, txIndex: nat): (r: seq<Log>)
    ensures |r| == |f.contents|
  {
    seq(|f.contents|, i requires 0 <= i < |f.contents| =>
      Log(f.contents[i], round, blockHash, f.tx.hash, txIndex, start + i, false))
  }

  function BlockLogs(facts: seq<TxFacts>, round: nat, blockHash: Hash): seq<Log> {
    if facts == [] then [] else
    var before := BlockLogs(facts[..|facts| - 1], round, blockHash);
    before + Numbered(facts[|facts| - 1], round, blockHash, |before|, |facts| - 1)
  }

  /** The price an item offers as the block's median, given its position among `n` items. */
  function MedianCandidate(item: Item, i: nat, n: nat): Option<nat> {
    match item
    case NonEth(price) => if i >= n / 2 - 1 then price else None
    case BadEth => None
    case Eth(tx, _, _, _) => if i > n / 2 - 1 then Some(tx.body.gasPrice) else None
  }

  /** The first candidate among the first `k` items. */
  function MedianOf(items: seq<Item>, k: nat): Option<nat>
    requires k <= |items|
  {
    if k == 0 then None else
    var earlier := MedianOf(items, k - 1);
    if earlier.Some? then earlier else MedianCandidate(items[k - 1], k - 1, |items|)
  }

  function WithHash(logs: seq<Log>, h: Hash): seq<Log> {
    if logs == [] then [] else
    WithHash(logs[..|logs| - 1], h) + (if logs[|logs| - 1].txHash == h then [logs[|logs| - 1]] else [])
  }

  function GasSum(facts: seq<TxFacts>): nat {
    if facts == [] then 0 else GasSum(facts[..|facts| - 1]) + facts[|facts| - 1].gasUsed
  }

  predicate Creates(f: TxFacts) { f.tx.creates && f.success }

  /** The address of a created contract has to be read from the transaction's output. */
  predicate HasOutput(f: TxFacts) { Creates(f) ==> f.output.Some? }

  predicate OutputsDecode(facts: seq<TxFacts>) {
    forall i :: 0 <= i < |facts| ==> HasOutput(facts[i])
  }

  predicate Priced(facts: seq<TxFacts>) {
    forall i :: 0 <= i < |facts| && facts[i].fees > 0 ==> facts[i].gasUsed > 0
  }

  function TxRow(facts: seq<TxFacts>, i: nat, round: nat, blockHash: Hash): Tx
    requires i < |facts|
  {
    Row(facts[i].tx.hash, facts[i].success, round, blockHash, i, facts[i].tx.body, [])
  }

  function ReceiptRow(facts: seq<TxFacts>, i: nat, round: nat, blockHash: Hash, logs: seq<Log>): Receipt
    requires i < |facts| && HasOutput(facts[i]) && (facts[i].fees > 0 ==> facts[i].gasUsed > 0)
  {
    ReceiptOf(facts[i], i, GasSum(facts[..i + 1]), round, blockHash, WithHash(logs, facts[i].tx.hash))
  }

  /** A receipt, given the gas used up to and including its transaction and the logs of its hash. */
  function ReceiptOf(f: TxFacts, i: nat, cumulative: nat, round: nat, blockHash: Hash, own: seq<Log>): Receipt
    requires HasOutput(f) && (f.fees > 0 ==> f.gasUsed > 0)
  {
    Row(f.tx.hash, f.success, round, blockHash, i,
        ReceiptBody(cumulative, f.gasUsed, EffectivePrice(f), if Creates(f) then f.output.value else ""), own)
  }

  predicate Convertible(b: RawBlock) {
    AllReadable(b.items) && OutputsDecode(EthFacts(b.items))
  }

  lemma {:induction false} ReadablePriced(items: seq<Item>)
    requires AllReadable(items)
    ensures Priced(EthFacts(items))
  {
    if items != [] {
      ReadablePriced(items[..|items| - 1]);
      assert Readable(items[|items| - 1]);
    }
  }

  /** The rows of a block. */
  function ModelsOf(b: RawBlock): Models
    requires Convertible(b)
  {
    var facts := EthFacts(b.items);
    ReadablePriced(b.items);
    var logs := BlockLogs(facts, b.round, b.hash);
    var txs := seq(|facts|, i requires 0 <= i < |facts| => TxRow(facts, i, b.round, b.hash));
    var receipts := seq(|facts|, i requires 0 <= i < |facts| => ReceiptRow(facts, i, b.round, b.hash, logs));
    Models(Block(b.hash, b.round, Header(b.gasLimit, GasSum(facts), b.minGasPrice), txs),
           txs, receipts, logs, MedianOf(b.items, |b.items|))
  }

  // ---------------------------------------------------------------- the source's loops

  method Logs2EthLogs(f: TxFacts, round: nat, blockHash: Hash, start: nat, txIndex: nat) returns (logs: seq<Log>)
    ensures logs == Numbered(f, round, blockHash, start, txIndex)
  {
    logs := [];
    for i := 0 to |f.contents|
      invariant logs == Numbered(f, round, blockHash, start, txIndex)[..i]
    {
      logs := logs + [Log(f.contents[i], round, blockHash, f.tx.hash, txIndex, start + i, false)];
    }
  }

  /** The log list grouped by transaction hash, as one pass over the list. */
  method GroupLogs(logs: seq<Log>) returns (txLogs: map<Hash, seq<Log>>)
    ensures forall h :: Grouped(txLogs, h) == WithHash(logs, h)
  {
    txLogs := map[];
    for i := 0 to |logs|
      invariant forall h :: Grouped(txLogs, h) == WithHash(logs[..i], h)
    {
      assert logs[..i + 1][..i] == logs[..i];
      ghost var before := txLogs;
      txLogs := txLogs[logs[i].txHash := Grouped(txLogs, logs[i].txHash) + [logs[i]]];
      forall h ensures Grouped(txLogs, h) == WithHash(logs[..i + 1], h) {
        assert Grouped(before, h) == WithHash(logs[..i], h);
      }
    }
    assert logs[..|logs|] == logs;
  }

  function Grouped(txLogs: map<Hash, seq<Log>>, h: Hash): seq<Log> {
    if h in txLogs then txLogs[h] else []
  }

  lemma ReadStep(items: seq<Item>, i: nat)
    requires i < |items|
    ensures EthFacts(items[..i + 1]) == EthFacts(items[..i]) + (if items[i].Eth? then [Facts(items[i])] else [])
    ensures AllReadable(items[..i + 1]) <==> AllReadable(items[..i]) && Readable(items[i])
    ensures AllReadable(items) ==> Readable(items[i])
  {
    assert items[..i + 1][..i] == items[..i];
    assert items[..i + 1] == items[..i] + [items[i]];
  }

  lemma LogsStep(facts: seq<TxFacts>, f: TxFacts, round: nat, blockHash: Hash)
    ensures
      var before := BlockLogs(facts, round, blockHash);
      BlockLogs(facts + [f], round, blockHash) == before + Numbered(f, round, blockHash, |before|, |facts|)
  {
    assert (facts + [f])[..|facts|] == facts;
  }

  /** The decoding loop of StoreBlockData over the block's results. */
  method ReadBlock(b: RawBlock) returns (ok: bool, facts: seq<TxFacts>, logs: seq<Log>, median: Option<nat>)
    ensures ok <==> AllReadable(b.items)
    ensures ok ==> facts == EthFacts(b.items) && logs == BlockLogs(facts, b.round, b.hash)
    ensures ok ==> median == MedianOf(b.items, |b.items|)
  {
    var items := b.items;
    facts, logs, median := [], [], None;
    var i := 0;
    while i < |items|
      invariant 0 <= i <= |items|
      invariant AllReadable(items[..i])
      invariant facts == EthFacts(items[..i])
      invariant logs == BlockLogs(facts, b.round, b.hash)
      invariant median == MedianOf(items, i)
    {
      ReadStep(items, i);
      match items[i] {
        case NonEth(price) =>
          if i >= |items| / 2 - 1 && median.None? && price.Some? {
            median := price;
          }
        case BadEth =>
          ok := false;
          return;
        case Eth(tx, _, _, _) =>
          if i > |items| / 2 - 1 && median.None? {
            median := Some(tx.body.gasPrice);
          }
          var f := ReadTx(items[i]);
          if f.None? {
            ok := false;
            return;
          }
          var txLogs := Logs2EthLogs(f.value, b.round, b.hash, |logs|, |facts|);
          LogsStep(facts, f.value, b.round, b.hash);
          facts, logs := facts + [f.value], logs + txLogs;
      }
      i := i + 1;
    }
    assert items[..i] == items;
    ok := true;
  }

  /** Fails if the address of a created contract cannot be read. */
  method NewReceipt(f: TxFacts, i: nat, cumulative: nat, b: RawBlock, own: seq<Log>) returns (r: Option<Receipt>)
    requires f.fees > 0 ==> f.gasUsed > 0
    ensures r.Some? <==> HasOutput(f)
    ensures r.Some? ==> r.value == ReceiptOf(f, i, cumulative, b.round, b.hash, own)
  {
    var contract := "";
    if f.tx.creates && f.success {
      if f.output.None? {
        return None;
      }
      contract := f.output.value;
    }
    r := Some(Row(f.tx.hash, f.success, b.round, b.hash, i,
                  ReceiptBody(cumulative, f.gasUsed, EffectivePrice(f), contract), own));
  }

  ghost predicate AreTxRows(txs: seq<Tx>, facts: seq<TxFacts>, b: RawBlock, n: nat)
    requires n <= |facts|
  {
    |txs| == n && forall k :: 0 <= k < n ==> txs[k] == TxRow(facts, k, b.round, b.hash)
  }

  ghost predicate IsReceiptRow(r: Receipt, facts: seq<TxFacts>, b: RawBlock, logs: seq<Log>, k: nat)
    requires k < |facts| && Priced(facts)
  {
    HasOutput(facts[k]) && r == ReceiptRow(facts, k, b.round, b.hash, logs)
  }

  ghost predicate AreReceiptRows(receipts: seq<Receipt>, facts: seq<TxFacts>, b: RawBlock, logs: seq<Log>, n: nat)
    requires n <= |facts| && Priced(facts)
  {
    |receipts| == n && forall k :: 0 <= k < n ==> IsReceiptRow(receipts[k], facts, b, logs, k)
  }

  lemma GasStep(facts: seq<TxFacts>, n: nat)
    requires n < |facts|
    ensures GasSum(facts[..n + 1]) == GasSum(facts[..n]) + facts[n].gasUsed
  {
    assert facts[..n + 1][..n] == facts[..n];
  }

  lemma RowsHaveOutputs(receipts: seq<Receipt>, facts: seq<TxFacts>, b: RawBlock, logs: seq<Log>)
    requires Priced(facts) && AreReceiptRows(receipts, facts, b, logs, |facts|)
    ensures OutputsDecode(facts)
  {
    forall k | 0 <= k < |facts| ensures HasOutput(facts[k]) {
      assert IsReceiptRow(receipts[k], facts, b, logs, k);
    }
  }

  lemma ReceiptRowsAppend(receipts: seq<Receipt>, r: Receipt, facts: seq<TxFacts>, b: RawBlock, logs: seq<Log>, n: nat)
    requires Priced(facts) && n < |facts| && AreReceiptRows(receipts, facts, b, logs, n)
    requires IsReceiptRow(r, facts, b, logs, n)
    ensures AreReceiptRows(receipts + [r], facts, b, logs, n + 1)
  {
  }

  /** One transaction row and one receipt row per transaction, gas summed up on the way. */
  method BlockRows(b: RawBlock, facts: seq<TxFacts>, logs: seq<Log>)
    returns (ok: bool, txs: seq<Tx>, receipts: seq<Receipt>, cumulative: nat)
    requires Priced(facts)
    ensures ok <==> OutputsDecode(facts)
    ensures ok ==> AreTxRows(txs, facts, b, |facts|) && AreReceiptRows(receipts, facts, b, logs, |facts|)
    ensures ok ==> cumulative == GasSum(facts)
  {
    var txLogs := GroupLogs(logs);
    txs, receipts, cumulative := [], [], 0;
    var i := 0;
    while i < |facts|
      invariant 0 <= i <= |facts|
      invariant cumulative == GasSum(facts[..i])
      invariant AreTxRows(txs, facts, b, i) && AreReceiptRows(receipts, facts, b, logs, i)
    {
      var f := facts[i];
      cumulative := cumulative + f.gasUsed;
      var receipt := NewReceipt(f, i, cumulative, b, Grouped(txLogs, f.tx.hash));
      if receipt.None? {
        ok := false;
        return;
      }
      GasStep(facts, i);
      assert IsReceiptRow(receipt.value, facts, b, logs, i);
      ReceiptRowsAppend(receipts, receipt.value, facts, b, logs, i);
      txs := txs + [Row(f.tx.hash, f.success, b.round, b.hash, i, f.tx.body, [])];
      receipts := receipts + [receipt.value];
      i := i + 1;
    }
    assert facts[..i] == facts;
    RowsHaveOutputs(receipts, facts, b, logs);
    ok := true;
  }

  /** blockToModels: the rows, and the block with its header. */
  method BlockToModels(b: RawBlock, facts: seq<TxFacts>, logs: seq<Log>, median: Option<nat>)
    returns (r: Option<Models>)
    requires Priced(facts)
    ensures r.Some? <==> OutputsDecode(facts)
    ensures r.Some? ==>
              var m := r.value;
              && AreTxRows(m.txs, facts, b, |facts|) && AreReceiptRows(m.receipts, facts, b, logs, |facts|)
              && m.block == Block(b.hash, b.round, Header(b.gasLimit, GasSum(facts), b.minGasPrice), m.txs)
              && m.logs == logs && m.median == median
  {
    var ok, txs, receipts, cumulative := BlockRows(b, facts, logs);
    if !ok {
      return None;
    }
    r := Some(Models(Block(b.hash, b.round, Header(b.gasLimit, cumulative, b.minGasPrice), txs),
                     txs, receipts, logs, median));
  }

  /** The whole conversion: fails exactly on an inconvertible block, and yields its ModelsOf. */
  method Convert(b: RawBlock) returns (r: Option<Models>)
    ensures r.Some? <==> Convertible(b)
    ensures r.Some? ==> r.value == ModelsOf(b)
  {
    var ok, facts, logs, median := ReadBlock(b);
    if !ok {
      return None;
    }
    ReadablePriced(b.items);
    r := BlockToModels(b, facts, logs, median);
  }
}
