/**
 What the rows of a block say about the block itself, item by item and event by event, without the
 functions that compute them.
 */
module BlockMeaning {
  import opened Model
  import opened BlockConversion
  import opened BlockProperties
  import opened IndexStore

  // ---------------------------------------------------------------- gas

  /** Entry j of event i, if that is a gas-used amount. */
  function Entry(events: seq<RuntimeEvent>, i: nat, j: nat): Option<nat> {
    if i < |events| && events[i].Core? && j < |events[i].gasUsed| then events[i].gasUsed[j] else None
  }

  ghost predicate Reported(events: seq<RuntimeEvent>, a: nat) {
    exists i: nat, j: nat :: Entry(events, i, j) == Some(a)
  }

  /** The gas of a transaction: the nonzero amount it reports, and its limit if there is none. */
  ghost predicate IsGasOf(gas: nat, item: Item)
    requires item.Eth?
  {
    && (forall a: nat :: a > 0 && Reported(item.events, a) ==> gas == a)
    && ((forall a: nat :: Reported(item.events, a) ==> a == 0) ==> gas == item.tx.body.gas)
  }

  lemma {:induction false} AmountsMember(entries: seq<Option<nat>>, a: nat)
    ensures a in Amounts(entries) <==> Some(a) in entries
  {
    if entries != [] {
      AmountsMember(entries[..|entries| - 1], a);
      assert entries == entries[..|entries| - 1] + [entries[|entries| - 1]];
    }
  }

  lemma EntryOfInit(events: seq<RuntimeEvent>, i: nat, j: nat)
    requires events != []
    ensures
      var n := |events| - 1;
      Entry(events, i, j) ==
      if i == n then (if events[n].Core? && j < |events[n].gasUsed| then events[n].gasUsed[j] else None)
      else Entry(events[..n], i, j)
  {
  }

  lemma {:induction false} GasAmountsMember(events: seq<RuntimeEvent>, a: nat)
    ensures a in GasAmounts(events) <==> Reported(events, a)
  {
    if events != [] {
      var n := |events| - 1;
      GasAmountsMember(events[..n], a);
      if events[n].Core? {
        AmountsMember(events[n].gasUsed, a);
      }
      if Reported(events, a) {
        var i: nat, j: nat :| Entry(events, i, j) == Some(a);
        EntryOfInit(events, i, j);
        assert i < n ==> Reported(events[..n], a);
      }
      if Reported(events[..n], a) {
        var i: nat, j: nat :| Entry(events[..n], i, j) == Some(a);
        EntryOfInit(events, i, j);
      }
      if events[n].Core? && Some(a) in events[n].gasUsed {
        var j :| 0 <= j < |events[n].gasUsed| && events[n].gasUsed[j] == Some(a);
        assert Entry(events, n, j) == Some(a);
      }
    }
  }

  lemma GasMeans(item: Item)
    requires item.Eth? && Readable(item)
    ensures IsGasOf(GasUsed(item.tx, item.events), item)
  {
    var amounts := GasAmounts(item.events);
    forall a: nat | a > 0 && Reported(item.events, a) ensures LastAmount(amounts) == a {
      GasAmountsMember(item.events, a);
      var k :| 0 <= k < |amounts| && amounts[k] == a;
    }
    if (forall a: nat :: Reported(item.events, a) ==> a == 0) && amounts != [] {
      GasAmountsMember(item.events, LastAmount(amounts));
    }
  }

  // ---------------------------------------------------------------- what is refused

  /** No amount follows a nonzero one. */
  ghost predicate NoSecondAmount(events: seq<RuntimeEvent>) {
    forall i: nat, j: nat, k: nat, l: nat ::
      (i < k || (i == k && j < l)) && Entry(events, i, j).Some? && Entry(events, k, l).Some? ==>
        Entry(events, i, j).value == 0
  }

  ghost predicate NoSecondIn(entries: seq<Option<nat>>) {
    forall j, l :: 0 <= j < l < |entries| && entries[j].Some? && entries[l].Some? ==> entries[j].value == 0
  }

  lemma OneConcat(a: seq<nat>, b: seq<nat>)
    ensures OneGasAmount(a + b) <==>
            if b == [] then OneGasAmount(a) else (forall x :: x in a ==> x == 0) && OneGasAmount(b)
  {
    if b == [] {
      assert a + b == a;
    } else {
      if OneGasAmount(a + b) {
        forall x | x in a ensures x == 0 {
          var k :| 0 <= k < |a| && a[k] == x;
          assert (a + b)[k] == x;
        }
        forall k | 0 <= k < |b| - 1 ensures b[k] == 0 {
          assert (a + b)[|a| + k] == b[k];
        }
      }
      if (forall x :: x in a ==> x == 0) && OneGasAmount(b) {
        forall k | 0 <= k < |a + b| - 1 ensures (a + b)[k] == 0 {
          assert k < |a| ==> a[k] in a;
        }
      }
    }
  }

  lemma {:induction false} OneInEntries(entries: seq<Option<nat>>)
    ensures OneGasAmount(Amounts(entries)) <==> NoSecondIn(entries)
  {
    if entries != [] {
      var init, last := entries[..|entries| - 1], entries[|entries| - 1];
      OneInEntries(init);
      OneConcat(Amounts(init), if last.Some? then [last.value] else []);
      forall x ensures x in Amounts(init) <==> (x >= 0 && Some(x) in init) {
        if x >= 0 {
          AmountsMember(init, x);
        }
      }
      if NoSecondIn(entries) && last.Some? {
        forall x | x in Amounts(init) ensures x == 0 {
          var j :| 0 <= j < |init| && init[j] == Some(x);
          assert entries[j] == Some(x);
        }
      }
      if NoSecondIn(init) && (last.Some? ==> forall x :: x in Amounts(init) ==> x == 0) {
        forall j, l | 0 <= j < l < |entries| && entries[j].Some? && entries[l].Some? ensures entries[j].value == 0 {
          if l == |init| {
            assert init[j] == entries[j];
          }
        }
      }
    }
  }

  lemma NoSecondSplits(events: seq<RuntimeEvent>)
    requires events != []
    ensures
      var n := |events| - 1;
      var entries := if events[n].Core? then events[n].gasUsed else [];
      NoSecondAmount(events) <==>
      && NoSecondAmount(events[..n]) && NoSecondIn(entries)
      && ((exists j :: 0 <= j < |entries| && entries[j].Some?) ==> forall a: nat :: Reported(events[..n], a) ==> a == 0)
  {
    var n := |events| - 1;
    var init, entries := events[..n], if events[n].Core? then events[n].gasUsed else [];
    forall i: nat, j: nat
      ensures Entry(events, i, j) == if i == n then (if j < |entries| then entries[j] else None) else Entry(init, i, j)
    {
      EntryOfInit(events, i, j);
    }
    if NoSecondAmount(events) {
      forall i: nat, j: nat, k: nat, l: nat |
        (i < k || (i == k && j < l)) && Entry(init, i, j).Some? && Entry(init, k, l).Some?
        ensures Entry(init, i, j).value == 0
      {
        assert Entry(events, i, j) == Entry(init, i, j) && Entry(events, k, l) == Entry(init, k, l);
      }
      forall j, l | 0 <= j < l < |entries| && entries[j].Some? && entries[l].Some? ensures entries[j].value == 0 {
        assert Entry(events, n, j) == entries[j] && Entry(events, n, l) == entries[l];
      }
      if l :| 0 <= l < |entries| && entries[l].Some? {
        forall a: nat | Reported(init, a) ensures a == 0 {
          var i: nat, j: nat :| Entry(init, i, j) == Some(a);
          assert Entry(events, i, j) == Some(a) && Entry(events, n, l) == entries[l];
        }
      }
    }
    if && NoSecondAmount(init) && NoSecondIn(entries)
       && ((exists j :: 0 <= j < |entries| && entries[j].Some?) ==> forall a: nat :: Reported(init, a) ==> a == 0) {
      forall i: nat, j: nat, k: nat, l: nat |
        (i < k || (i == k && j < l)) && Entry(events, i, j).Some? && Entry(events, k, l).Some?
        ensures Entry(events, i, j).value == 0
      {
        if k == n && i < n {
          assert Reported(init, Entry(init, i, j).value);
        }
      }
    }
  }

  lemma ZeroesNeverSecond(events: seq<RuntimeEvent>)
    requires forall a: nat :: Reported(events, a) ==> a == 0
    ensures NoSecondAmount(events)
  {
    forall i: nat, j: nat | Entry(events, i, j).Some? ensures Entry(events, i, j).value == 0 {
      assert Reported(events, Entry(events, i, j).value);
    }
  }

  lemma {:induction false} OneGasAmountMeans(events: seq<RuntimeEvent>)
    ensures OneGasAmount(GasAmounts(events)) <==> NoSecondAmount(events)
  {
    if events != [] {
      var n := |events| - 1;
      var entries := if events[n].Core? then events[n].gasUsed else [];
      OneGasAmountMeans(events[..n]);
      NoSecondSplits(events);
      OneInEntries(entries);
      OneConcat(GasAmounts(events[..n]), Amounts(entries));
      assert GasAmounts(events) == GasAmounts(events[..n]) + Amounts(entries);
      forall x: nat ensures x in GasAmounts(events[..n]) <==> Reported(events[..n], x) {
        GasAmountsMember(events[..n], x);
      }
      AmountsEmpty(entries);
      if forall a: nat :: Reported(events[..n], a) ==> a == 0 {
        ZeroesNeverSecond(events[..n]);
      }
    }
  }

  lemma {:induction false} AmountsEmpty(entries: seq<Option<nat>>)
    ensures Amounts(entries) != [] <==> exists j :: 0 <= j < |entries| && entries[j].Some?
  {
    if Amounts(entries) != [] {
      AmountsMember(entries, Amounts(entries)[0]);
      assert Amounts(entries)[0] in Amounts(entries);
    }
    if j :| 0 <= j < |entries| && entries[j].Some? {
      AmountsMember(entries, entries[j].value);
    }
  }

  // ---------------------------------------------------------------- fees

  lemma {:induction false} FeesConcat(a: seq<RuntimeEvent>, b: seq<RuntimeEvent>)
    ensures Fees(a + b) == Fees(a) + Fees(b)
  {
    if b == [] {
      assert a + b == a;
    } else {
      assert (a + b)[..|a + b| - 1] == a + b[..|b| - 1];
      FeesConcat(a, b[..|b| - 1]);
    }
  }

  lemma {:induction false} TransfersConcat(a: seq<Option<Transfer>>, b: seq<Option<Transfer>>)
    ensures Fees([Transfers(a + b)]) == Fees([Transfers(a)]) + Fees([Transfers(b)])
  {
    if b == [] {
      assert a + b == a;
      FeesOfOne(Transfers(b));
    } else {
      var c := b[..|b| - 1];
      assert (a + b)[..|a + b| - 1] == a + c;
      TransfersConcat(a, c);
      FeesOfOne(Transfers(a + b));
      FeesOfOne(Transfers(b));
      FeesOfOne(Transfers(a + c));
      FeesOfOne(Transfers(c));
    }
  }

  lemma FeesOfOne(e: RuntimeEvent)
    ensures Fees([e]) == if e.Transfers? then FeesOf(e.transfers) else 0
  {
    assert [e][..0] == [];
  }

  /** Fees add up over events and over the transfers of an event; one transfer counts with its amount if it
      is of the native denomination and to the fee accumulator, and otherwise, like any other event, not. */
  lemma FeesMean(a: seq<RuntimeEvent>, b: seq<RuntimeEvent>, ts: seq<Option<Transfer>>, us: seq<Option<Transfer>>,
                 amount: nat, e: RuntimeEvent)
    ensures Fees([]) == 0 && Fees(a + b) == Fees(a) + Fees(b)
    ensures Fees([Transfers([])]) == 0 && Fees([Transfers(ts + us)]) == Fees([Transfers(ts)]) + Fees([Transfers(us)])
    ensures Fees([Transfers([Some(Transfer(true, true, amount))])]) == amount
    ensures Fees([Transfers([Some(Transfer(true, false, amount))])]) == 0
    ensures Fees([Transfers([Some(Transfer(false, true, amount))])]) == 0
    ensures Fees([Transfers([Some(Transfer(false, false, amount))])]) == 0
    ensures Fees([Transfers([None])]) == 0
    ensures !e.Transfers? ==> Fees([e]) == 0
  {
    FeesConcat(a, b);
    TransfersConcat(ts, us);
    FeesOfOne(e);
    FeesOfOne(Transfers([]));
    OneTransfer(Some(Transfer(true, true, amount)));
    OneTransfer(Some(Transfer(true, false, amount)));
    OneTransfer(Some(Transfer(false, true, amount)));
    OneTransfer(Some(Transfer(false, false, amount)));
    OneTransfer(None);
  }

  lemma OneTransfer(t: Option<Transfer>)
    ensures Fees([Transfers([t])]) == Fee(t)
  {
    FeesOfOne(Transfers([t]));
    assert [t][..0] == [];
  }

  // ---------------------------------------------------------------- logs

  /** A transaction's log contents are those of its EVM events, in order. */
  lemma {:induction false} ContentsMean(a: seq<RuntimeEvent>, b: seq<RuntimeEvent>, cs: seq<Content>, e: RuntimeEvent)
    ensures Contents([]) == [] && Contents(a + b) == Contents(a) + Contents(b)
    ensures Contents([EvmLogs(cs)]) == cs
    ensures !e.EvmLogs? ==> Contents([e]) == []
  {
    ContentsConcat(a, b);
    assert [EvmLogs(cs)][..0] == [] && [e][..0] == [];
  }

  lemma {:induction false} ContentsConcat(a: seq<RuntimeEvent>, b: seq<RuntimeEvent>)
    ensures Contents(a + b) == Contents(a) + Contents(b)
  {
    if b == [] {
      assert a + b == a;
    } else {
      assert (a + b)[..|a + b| - 1] == a + b[..|b| - 1];
      ContentsConcat(a, b[..|b| - 1]);
    }
  }

  /** The block's list has the contents of transaction k, in their order, from some place on, and nowhere
      else anything of it. */
  ghost predicate LogsOfTx(logs: seq<Log>, k: nat, contents: seq<Content>, start: nat) {
    && start + |contents| <= |logs|
    && (forall i :: 0 <= i < |contents| ==> logs[start + i].content == contents[i])
    && (forall p :: 0 <= p < |logs| ==> (logs[p].txIndex == k <==> start <= p < start + |contents|))
  }

  ghost predicate HasLogsOf(logs: seq<Log>, k: nat, contents: seq<Content>) {
    exists start: nat :: LogsOfTx(logs, k, contents, start)
  }

  lemma {:induction false} LogsOfTxFound(facts: seq<TxFacts>, k: nat, round: nat, bh: Hash)
    requires k < |facts|
    ensures LogsOfTx(BlockLogs(facts, round, bh), k, facts[k].contents, |BlockLogs(facts[..k], round, bh)|)
  {
    var n := |facts| - 1;
    var before := BlockLogs(facts[..n], round, bh);
    LogsNumbered(facts[..n], round, bh);
    assert forall p :: 0 <= p < |before| ==> InPlace(before[p], p, facts[..n], round, bh);
    if k < n {
      assert facts[..n][..k] == facts[..k];
      LogsOfTxFound(facts[..n], k, round, bh);
    }
  }

  // ---------------------------------------------------------------- rows

  ghost predicate Ascending(s: seq<nat>) {
    forall i, j :: 0 <= i < j < |s| ==> s[i] < s[j]
  }

  /** The positions of the block's Ethereum transactions, in order. */
  ghost predicate ArePositions(pos: seq<nat>, items: seq<Item>) {
    && Ascending(pos)
    && (forall k :: 0 <= k < |pos| ==> pos[k] < |items| && items[pos[k]].Eth?)
    && (forall p :: 0 <= p < |items| && items[p].Eth? ==> p in pos)
  }

  lemma PositionsExtend(init: seq<nat>, items: seq<Item>)
    requires items != [] && ArePositions(init, items[..|items| - 1])
    ensures ArePositions(if items[|items| - 1].Eth? then init + [|items| - 1] else init, items)
  {
    var n := |items| - 1;
    var pos := if items[n].Eth? then init + [n] else init;
    assert forall p :: 0 <= p < n ==> items[..n][p] == items[p];
    assert forall k :: 0 <= k < |init| ==> pos[k] == init[k];
    forall p | 0 <= p < |items| && items[p].Eth? ensures p in pos {
      if p < n {
        assert p in init;
      } else {
        assert pos[|init|] == n;
      }
    }
  }

  ghost predicate FactsAt(facts: seq<TxFacts>, items: seq<Item>, pos: seq<nat>) {
    |facts| == |pos| && forall k :: 0 <= k < |pos| ==>
      pos[k] < |items| && items[pos[k]].Eth? && facts[k] == Facts(items[pos[k]])
  }

  lemma FactsExtend(facts: seq<TxFacts>, init: seq<nat>, items: seq<Item>)
    requires items != [] && FactsAt(facts, items[..|items| - 1], init)
    ensures FactsAt(facts, items, init)
    ensures items[|items| - 1].Eth? ==> FactsAt(facts + [Facts(items[|items| - 1])], items, init + [|items| - 1])
  {
    var n := |items| - 1;
    forall k | 0 <= k < |init| ensures init[k] < n && items[init[k]].Eth? && facts[k] == Facts(items[init[k]]) {
      assert items[..n][init[k]] == items[init[k]];
    }
  }

  lemma EthFactsStep(items: seq<Item>)
    requires items != []
    ensures
      var n := |items| - 1;
      EthFacts(items) == if items[n].Eth? then EthFacts(items[..n]) + [Facts(items[n])] else EthFacts(items[..n])
  {
    assert EthFacts(items[..|items| - 1]) + [] == EthFacts(items[..|items| - 1]);
  }

  ghost predicate Positioned(pos: seq<nat>, items: seq<Item>) {
    ArePositions(pos, items) && FactsAt(EthFacts(items), items, pos)
  }

  lemma PositionedStep(init: seq<nat>, items: seq<Item>) returns (pos: seq<nat>)
    requires items != [] && Positioned(init, items[..|items| - 1])
    ensures Positioned(pos, items)
  {
    var n := |items| - 1;
    PositionsExtend(init, items);
    FactsExtend(EthFacts(items[..n]), init, items);
    EthFactsStep(items);
    if items[n].Eth? {
      pos := init + [n];
    } else {
      pos := init;
    }
  }

  lemma {:induction false} EthPositions(items: seq<Item>) returns (pos: seq<nat>)
    ensures Positioned(pos, items)
  {
    if items == [] {
      pos := [];
    } else {
      var init := EthPositions(items[..|items| - 1]);
      pos := PositionedStep(init, items);
    }
  }

  /** The row of a transaction: identity, status and place. */
  ghost predicate IsRowOf<T>(r: Row<T>, item: Item, k: nat, b: RawBlock)
    requires item.Eth?
  {
    r.hash == item.tx.hash && r.success == item.success && r.round == b.round && r.blockHash == b.hash && r.index == k
  }

  /** The price per unit of gas: the observed fees divided by the gas, and the asking price without any. */
  ghost predicate IsPriceOf(price: nat, gas: nat, item: Item)
    requires item.Eth?
  {
    if Fees(item.events) == 0 then price == item.tx.body.gasPrice
    else price * gas <= Fees(item.events) < (price + 1) * gas
  }

  lemma QuotientBounds(x: nat, y: nat)
    requires y > 0
    ensures (x / y) * y <= x < (x / y + 1) * y
  {
    assert x == (x / y) * y + x % y;
  }

  lemma PriceMeans(item: Item)
    requires item.Eth? && Readable(item)
    ensures IsPriceOf(EffectivePrice(Facts(item)), GasUsed(item.tx, item.events), item)
  {
    if Fees(item.events) > 0 {
      QuotientBounds(Fees(item.events), GasUsed(item.tx, item.events));
    }
  }

  ghost predicate IsReceiptOf(r: Receipt, item: Item)
    requires item.Eth?
  {
    && IsGasOf(r.body.gasUsed, item) && IsPriceOf(r.body.effectiveGasPrice, r.body.gasUsed, item)
    && (item.tx.creates && item.success ==> item.output.Some? && r.body.contractAddress == item.output.value)
    && (!(item.tx.creates && item.success) ==> r.body.contractAddress == "")
  }

  lemma ReceiptMeans(b: RawBlock, k: nat, item: Item)
    requires Convertible(b) && k < |EthFacts(b.items)| && item.Eth? && Readable(item)
    requires EthFacts(b.items)[k] == Facts(item)
    ensures IsRowOf(ModelsOf(b).receipts[k], item, k, b) && IsReceiptOf(ModelsOf(b).receipts[k], item)
  {
    ReadablePriced(b.items);
    var facts := EthFacts(b.items);
    assert ModelsOf(b).receipts[k] == ReceiptRow(facts, k, b.round, b.hash, ModelsOf(b).logs);
    assert HasOutput(facts[k]);
    GasMeans(item);
    PriceMeans(item);
  }

  /** Every Ethereum transaction of the block has, in order, one transaction row, one receipt and its logs,
      and each says what the transaction and its events say. */
  lemma RowsMean(b: RawBlock) returns (pos: seq<nat>)
    requires Convertible(b)
    ensures ArePositions(pos, b.items)
    ensures
      var m := ModelsOf(b);
      && |m.txs| == |m.receipts| == |pos|
      && (forall k :: 0 <= k < |pos| ==>
            IsRowOf(m.txs[k], b.items[pos[k]], k, b) && m.txs[k].body == b.items[pos[k]].tx.body && m.txs[k].logs == [])
      && (forall k :: 0 <= k < |pos| ==>
            IsRowOf(m.receipts[k], b.items[pos[k]], k, b) && IsReceiptOf(m.receipts[k], b.items[pos[k]]))
      && (forall k :: 0 <= k < |pos| ==> HasLogsOf(m.logs, k, Contents(b.items[pos[k]].events)))
  {
    pos := EthPositions(b.items);
    var m, facts := ModelsOf(b), EthFacts(b.items);
    forall k | 0 <= k < |pos|
      ensures IsRowOf(m.receipts[k], b.items[pos[k]], k, b) && IsReceiptOf(m.receipts[k], b.items[pos[k]])
      ensures HasLogsOf(m.logs, k, Contents(b.items[pos[k]].events))
    {
      assert Readable(b.items[pos[k]]);
      ReceiptMeans(b, k, b.items[pos[k]]);
      LogsOfTxFound(facts, k, b.round, b.hash);
      assert LogsOfTx(m.logs, k, Contents(b.items[pos[k]].events), |BlockLogs(facts[..k], b.round, b.hash)|);
    }
    forall k | 0 <= k < |pos|
      ensures IsRowOf(m.txs[k], b.items[pos[k]], k, b)
      ensures m.txs[k].body == b.items[pos[k]].tx.body && m.txs[k].logs == []
    {
      assert m.txs[k] == TxRow(facts, k, b.round, b.hash);
    }
  }

  // ---------------------------------------------------------------- the block

  /** What one item has to be like for its block to be converted. */
  ghost predicate ItemOk(item: Item) {
    && !item.BadEth?
    && (item.Eth? ==>
          && (forall i :: 0 <= i < |item.events| ==> !item.events[i].BadEvm? && !item.events[i].BadCore?)
          && NoSecondAmount(item.events)
          && (Fees(item.events) > 0 ==> item.tx.body.gas > 0 || exists a: nat :: a > 0 && Reported(item.events, a))
          && (item.tx.creates && item.success ==> item.output.Some?))
  }

  lemma ReadableMeans(item: Item)
    ensures Readable(item) && (item.Eth? ==> HasOutput(Facts(item))) <==> ItemOk(item)
  {
    if item.Eth? {
      OneGasAmountMeans(item.events);
      var amounts := GasAmounts(item.events);
      if OneGasAmount(amounts) {
        if a: nat :| a > 0 && Reported(item.events, a) {
          GasAmountsMember(item.events, a);
        }
        if LastAmount(amounts) > 0 {
          GasAmountsMember(item.events, LastAmount(amounts));
        }
      }
    }
  }

  /** A block is refused exactly for an item that is not like that. */
  lemma ConvertibleMeans(b: RawBlock)
    ensures Convertible(b) <==> forall p :: 0 <= p < |b.items| ==> ItemOk(b.items[p])
  {
    var pos := EthPositions(b.items);
    forall p | 0 <= p < |b.items|
      ensures Readable(b.items[p]) && (b.items[p].Eth? ==> HasOutput(Facts(b.items[p]))) <==> ItemOk(b.items[p])
    {
      ReadableMeans(b.items[p]);
    }
    if Convertible(b) {
      forall p | 0 <= p < |b.items| ensures ItemOk(b.items[p]) {
        if b.items[p].Eth? {
          var k :| 0 <= k < |pos| && pos[k] == p;
          assert HasOutput(EthFacts(b.items)[k]);
        }
      }
    }
    if forall p :: 0 <= p < |b.items| ==> ItemOk(b.items[p]) {
      forall k | 0 <= k < |EthFacts(b.items)| ensures HasOutput(EthFacts(b.items)[k]) {
        assert ItemOk(b.items[pos[k]]);
      }
    }
  }

  /** The price this item offers as the block's median: an Ethereum one from the upper middle on, another one
      already from the place before it. */
  ghost predicate Offers(items: seq<Item>, p: nat, price: nat)
    requires p < |items|
  {
    || (items[p].Eth? && p >= |items| / 2 && price == items[p].tx.body.gasPrice)
    || (items[p].NonEth? && p + 1 >= |items| / 2 && items[p].gasPrice == Some(price))
  }

  lemma {:induction false} FirstOffer(items: seq<Item>, k: nat, p: nat, price: nat)
    requires p < k <= |items| && Offers(items, p, price)
    requires forall q: nat, v: nat :: q < p ==> !Offers(items, q, v)
    ensures MedianOf(items, k) == Some(price)
  {
    if k - 1 > p {
      FirstOffer(items, k - 1, p, price);
    } else {
      NoOffer(items, p);
    }
  }

  lemma {:induction false} NoOffer(items: seq<Item>, k: nat)
    requires k <= |items| && forall q: nat, v: nat :: q < k ==> !Offers(items, q, v)
    ensures MedianOf(items, k) == None
  {
    if k > 0 {
      NoOffer(items, k - 1);
      var c := MedianCandidate(items[k - 1], k - 1, |items|);
      if c.Some? {
        assert Offers(items, k - 1, c.value);
      }
    }
  }

  /** The header, the emitted lists and the median of a converted block. */
  lemma BlockMeans(b: RawBlock, p: nat, price: nat)
    requires Convertible(b)
    ensures
      var bd, m := Emitted(ModelsOf(b)), ModelsOf(b);
      && bd.block.hash == b.hash && bd.block.round == b.round && bd.block.transactions == m.txs
      && bd.block.header.gasLimit == b.gasLimit && bd.block.header.baseFee == b.minGasPrice
      && (p < |b.items| && Offers(b.items, p, price) && (forall q: nat, v: nat :: q < p ==> !Offers(b.items, q, v)) ==>
            bd.medianGasPrice == Some(price))
      && ((forall q: nat, v: nat :: q < |b.items| ==> !Offers(b.items, q, v)) ==> bd.medianGasPrice == None)
  {
    if p < |b.items| && Offers(b.items, p, price) && (forall q: nat, v: nat :: q < p ==> !Offers(b.items, q, v)) {
      FirstOffer(b.items, |b.items|, p, price);
    }
    if forall q: nat, v: nat :: q < |b.items| ==> !Offers(b.items, q, v) {
      NoOffer(b.items, |b.items|);
    }
  }
}
