/**
 The caching backend (indexer/backend_cache.go).

 The reference is a scan: `Newest` walks the recent blocks from the newest to the oldest until one
 of them has the hash.  The class keeps five maps and a counter instead, and every map answers as
 the scan would.
 */
module Cache {
  import opened Model
  import opened Tables
  import opened IndexStore
  import opened EmittedData

  const DEFAULT_BLOCK_CACHE_SIZE: nat := 128
  const UINT64_MODULUS: nat := 0x1_0000_0000_0000_0000

  datatype Entry<T> = Entry(row: Row<T>, blockNumber: nat)

  /** One block's rows of one kind. */
  datatype Layer<T> = Layer(round: nat, rows: seq<Row<T>>)

  // ---------------------------------------------------------------- the reference

  /** The last row of a list with this hash: later rows of a block overwrite earlier ones. */
  function LastWith<T>(rows: seq<Row<T>>, h: Hash): Option<Row<T>> {
    if rows == [] then None
    else if rows[|rows| - 1].hash == h then Some(rows[|rows| - 1])
    else LastWith(rows[..|rows| - 1], h)
  }

  function Newest<T>(layers: seq<Layer<T>>, h: Hash): Option<Entry<T>> {
    if layers == [] then None else
    var last := layers[|layers| - 1];
    var found := LastWith(last.rows, h);
    if found.Some? then Some(Entry(found.value, last.round)) else Newest(layers[..|layers| - 1], h)
  }

  function TxLayers(blocks: seq<BlockData>): (r: seq<Layer<TxBody>>)
    ensures |r| == |blocks|
  {
    seq(|blocks|, i requires 0 <= i < |blocks| => Layer(blocks[i].block.round, blocks[i].uniqueTxes))
  }

  function ReceiptLayers(blocks: seq<BlockData>): (r: seq<Layer<ReceiptBody>>)
    ensures |r| == |blocks|
  {
    seq(|blocks|, i requires 0 <= i < |blocks| => Layer(blocks[i].block.round, blocks[i].receipts))
  }

  function BlockAt(blocks: seq<BlockData>, round: nat): Option<BlockData> {
    if blocks == [] then None
    else if blocks[|blocks| - 1].block.round == round then Some(blocks[|blocks| - 1])
    else BlockAt(blocks[..|blocks| - 1], round)
  }

  function BlockWithHash(blocks: seq<BlockData>, h: Hash): Option<Block> {
    if blocks == [] then None
    else if blocks[|blocks| - 1].block.hash == h then Some(blocks[|blocks| - 1].block)
    else BlockWithHash(blocks[..|blocks| - 1], h)
  }

  function LogsAt(blocks: seq<BlockData>, round: nat): Option<seq<Log>> {
    var b := BlockAt(blocks, round);
    if b.Some? then Some(DataLogs(b.value)) else None
  }

  // The answers of the scans, tabulated.

  ghost function EntryMap<T>(layers: seq<Layer<T>>): (m: map<Hash, Entry<T>>)
    ensures forall h :: Lookup(m, h) == Newest(layers, h)
  {
    var hashes := set i, j | 0 <= i < |layers| && 0 <= j < |layers[i].rows| :: layers[i].rows[j].hash;
    assert forall h :: h in hashes <==> Newest(layers, h).Some? by {
      forall h ensures h in hashes <==> Newest(layers, h).Some? {
        NewestExists(layers, h);
      }
    }
    map h | h in hashes :: Newest(layers, h).value
  }

  ghost function BlockMap(blocks: seq<BlockData>): (m: map<nat, BlockData>)
    ensures forall n :: Lookup(m, n) == BlockAt(blocks, n)
  {
    var rounds := set i | 0 <= i < |blocks| :: blocks[i].block.round;
    assert forall n :: n in rounds <==> BlockAt(blocks, n).Some? by {
      forall n ensures n in rounds <==> BlockAt(blocks, n).Some? {
        BlockAtMeans(blocks, n);
      }
    }
    map n | n in rounds :: BlockAt(blocks, n).value
  }

  ghost function LogMap(blocks: seq<BlockData>): (m: map<nat, seq<Log>>)
    ensures forall n :: Lookup(m, n) == LogsAt(blocks, n)
  {
    var bm := BlockMap(blocks);
    assert forall n :: Lookup(bm, n) == BlockAt(blocks, n);
    map n | n in bm :: DataLogs(bm[n])
  }

  ghost function HashMap(blocks: seq<BlockData>): (m: map<Hash, Block>)
    ensures forall h :: Lookup(m, h) == BlockWithHash(blocks, h)
  {
    if blocks == [] then map[] else
    HashMap(blocks[..|blocks| - 1])[blocks[|blocks| - 1].block.hash := blocks[|blocks| - 1].block]
  }

  lemma {:induction false} NewestExists<T>(layers: seq<Layer<T>>, h: Hash)
    ensures Newest(layers, h).Some? <==>
            exists i, j :: 0 <= i < |layers| && 0 <= j < |layers[i].rows| && layers[i].rows[j].hash == h
  {
    if layers != [] {
      var n := |layers| - 1;
      NewestExists(layers[..n], h);
      LastWithMeans(layers[n].rows, h);
      if exists i, j :: 0 <= i < |layers| && 0 <= j < |layers[i].rows| && layers[i].rows[j].hash == h {
        var i, j :| 0 <= i < |layers| && 0 <= j < |layers[i].rows| && layers[i].rows[j].hash == h;
        assert i < n ==> layers[..n][i].rows[j].hash == h;
      }
    }
  }

  ghost predicate Precedes(a: BlockData, b: BlockData) {
    a.block.round < b.block.round && a.block.hash != b.block.hash
  }

  ghost predicate FollowsAll(bd: BlockData, blocks: seq<BlockData>) {
    forall i :: 0 <= i < |blocks| ==> Precedes(blocks[i], bd)
  }

  ghost predicate Rising<T>(layers: seq<Layer<T>>) {
    forall i, j :: 0 <= i < j < |layers| ==> layers[i].round < layers[j].round
  }

  ghost predicate RisingBlocks(blocks: seq<BlockData>) {
    forall i, j :: 0 <= i < j < |blocks| ==> blocks[i].block.round < blocks[j].block.round
  }

  ghost predicate DistinctBlockHashes(blocks: seq<BlockData>) {
    forall i, j :: 0 <= i < j < |blocks| ==> blocks[i].block.hash != blocks[j].block.hash
  }

  // ---------------------------------------------------------------- the scan under eviction

  lemma {:induction false} LastWithMeans<T>(rows: seq<Row<T>>, h: Hash)
    ensures LastWith(rows, h).Some? <==> exists i :: 0 <= i < |rows| && rows[i].hash == h
    ensures LastWith(rows, h).Some? ==> LastWith(rows, h).value in rows && LastWith(rows, h).value.hash == h
  {
    if rows != [] {
      LastWithMeans(rows[..|rows| - 1], h);
      if exists i :: 0 <= i < |rows| && rows[i].hash == h {
        var i :| 0 <= i < |rows| && rows[i].hash == h;
        assert i < |rows| - 1 ==> rows[..|rows| - 1][i].hash == h;
      }
    }
  }

  /** Where a cached entry comes from. */
  lemma {:induction false} NewestMeans<T>(layers: seq<Layer<T>>, h: Hash) returns (i: nat)
    requires Newest(layers, h).Some?
    ensures i < |layers|
    ensures
      var e := Newest(layers, h).value;
      e.row in layers[i].rows && e.row.hash == h && e.blockNumber == layers[i].round
    ensures forall j :: i < j < |layers| ==> LastWith(layers[j].rows, h).None?
  {
    var n := |layers| - 1;
    LastWithMeans(layers[n].rows, h);
    if LastWith(layers[n].rows, h).Some? {
      i := n;
    } else {
      i := NewestMeans(layers[..n], h);
    }
  }

  /** Dropping the oldest block loses exactly the entries that came from it. */
  lemma {:induction false} EvictOldest<T>(layers: seq<Layer<T>>, h: Hash)
    requires layers != [] && Rising(layers)
    ensures
      var e := Newest(layers, h);
      Newest(layers[1..], h) ==
      if e.Some? && e.value.blockNumber == layers[0].round then None else e
    ensures
      var e := Newest(layers, h);
      e.Some? && e.value.blockNumber == layers[0].round ==> LastWith(layers[0].rows, h).Some?
  {
    var n := |layers| - 1;
    if n > 0 && LastWith(layers[n].rows, h).None? {
      assert layers[1..][..n - 1] == layers[..n][1..];
      EvictOldest(layers[..n], h);
    }
  }

  lemma {:induction false} EvictOldestBlock(blocks: seq<BlockData>, round: nat)
    requires blocks != [] && RisingBlocks(blocks)
    ensures BlockAt(blocks[1..], round) == if round == blocks[0].block.round then None else BlockAt(blocks, round)
    ensures BlockAt(blocks, blocks[0].block.round) == Some(blocks[0])
  {
    var n := |blocks| - 1;
    if n > 0 {
      assert blocks[1..][..n - 1] == blocks[..n][1..];
      EvictOldestBlock(blocks[..n], round);
    }
  }

  lemma {:induction false} EvictOldestHash(blocks: seq<BlockData>, h: Hash)
    requires blocks != [] && DistinctBlockHashes(blocks)
    ensures BlockWithHash(blocks[1..], h) == if h == blocks[0].block.hash then None else BlockWithHash(blocks, h)
  {
    var n := |blocks| - 1;
    if n > 0 {
      assert blocks[1..][..n - 1] == blocks[..n][1..];
      EvictOldestHash(blocks[..n], h);
    }
  }

  lemma {:induction false} BlockAtMeans(blocks: seq<BlockData>, round: nat)
    ensures BlockAt(blocks, round).Some? <==> exists i :: 0 <= i < |blocks| && blocks[i].block.round == round
    ensures BlockAt(blocks, round).Some? ==> BlockAt(blocks, round).value in blocks
    ensures BlockAt(blocks, round).Some? ==> BlockAt(blocks, round).value.block.round == round
  {
    if blocks != [] {
      BlockAtMeans(blocks[..|blocks| - 1], round);
      if exists i :: 0 <= i < |blocks| && blocks[i].block.round == round {
        var i :| 0 <= i < |blocks| && blocks[i].block.round == round;
        assert i < |blocks| - 1 ==> blocks[..|blocks| - 1][i].block.round == round;
      }
    }
  }

  /** Every row of a cached block has an entry, of that block or of a newer one. */
  lemma {:induction false} EveryRowHasEntry<T>(layers: seq<Layer<T>>, i: nat, row: Row<T>)
    requires Rising(layers) && i < |layers| && row in layers[i].rows
    ensures Newest(layers, row.hash).Some? && Newest(layers, row.hash).value.blockNumber >= layers[i].round
  {
    var n := |layers| - 1;
    LastWithMeans(layers[n].rows, row.hash);
    if i < n {
      EveryRowHasEntry(layers[..n], i, row);
    }
  }

  /** The counter the class keeps is the number of cached blocks. */
  lemma {:induction false} BlockMapSize(blocks: seq<BlockData>)
    requires RisingBlocks(blocks)
    ensures |BlockMap(blocks)| == |blocks|
  {
    if blocks == [] {
      assert BlockMap(blocks) == map[];
    } else {
      var init, last := blocks[..|blocks| - 1], blocks[|blocks| - 1];
      BlockMapSize(init);
      BlockAtMeans(init, last.block.round);
      assert Lookup(BlockMap(init), last.block.round) == BlockAt(init, last.block.round);
      assert init + [last] == blocks;
      InsertNewest(init, last, BlockMap(init)[last.block.round := last],
                   HashMap(init)[last.block.hash := last.block], LogMap(init)[last.block.round := DataLogs(last)]);
    }
  }

  lemma InsertNewest(recent: seq<BlockData>, bd: BlockData, numbers: map<nat, BlockData>, hashes: map<Hash, Block>,
                     logs: map<nat, seq<Log>>)
    requires numbers == BlockMap(recent)[bd.block.round := bd]
    requires hashes == HashMap(recent)[bd.block.hash := bd.block]
    requires logs == LogMap(recent)[bd.block.round := DataLogs(bd)]
    ensures numbers == BlockMap(recent + [bd]) && hashes == HashMap(recent + [bd]) && logs == LogMap(recent + [bd])
  {
    var all := recent + [bd];
    assert all[..|recent|] == recent;
    forall n ensures Lookup(numbers, n) == BlockAt(all, n) && Lookup(logs, n) == LogsAt(all, n) {
      assert Lookup(BlockMap(recent), n) == BlockAt(recent, n);
      assert Lookup(LogMap(recent), n) == LogsAt(recent, n);
    }
    SameLookups(numbers, BlockMap(all));
    SameLookups(logs, LogMap(all));
  }

  lemma EvictMaps(recent: seq<BlockData>)
    requires recent != [] && RisingBlocks(recent) && DistinctBlockHashes(recent)
    ensures BlockMap(recent) - {recent[0].block.round} == BlockMap(recent[1..])
    ensures LogMap(recent) - {recent[0].block.round} == LogMap(recent[1..])
    ensures HashMap(recent) - {recent[0].block.hash} == HashMap(recent[1..])
  {
    var oldest := recent[0].block;
    forall n
      ensures Lookup(BlockMap(recent) - {oldest.round}, n) == BlockAt(recent[1..], n)
      ensures Lookup(LogMap(recent) - {oldest.round}, n) == LogsAt(recent[1..], n)
    {
      EvictOldestBlock(recent, n);
      assert Lookup(BlockMap(recent), n) == BlockAt(recent, n);
      assert Lookup(LogMap(recent), n) == LogsAt(recent, n);
    }
    forall h ensures Lookup(HashMap(recent) - {oldest.hash}, h) == BlockWithHash(recent[1..], h) {
      EvictOldestHash(recent, h);
      assert Lookup(HashMap(recent), h) == BlockWithHash(recent, h);
    }
    SameLookups(BlockMap(recent) - {oldest.round}, BlockMap(recent[1..]));
    SameLookups(LogMap(recent) - {oldest.round}, LogMap(recent[1..]));
    SameLookups(HashMap(recent) - {oldest.hash}, HashMap(recent[1..]));
  }

  lemma OldestIsCached(recent: seq<BlockData>)
    requires recent != [] && RisingBlocks(recent) && DistinctBlockHashes(recent)
    ensures recent[0].block.round in BlockMap(recent) && BlockMap(recent)[recent[0].block.round] == recent[0]
    ensures RisingBlocks(recent[1..]) && DistinctBlockHashes(recent[1..])
  {
    EvictOldestBlock(recent, recent[0].block.round);
    assert Lookup(BlockMap(recent), recent[0].block.round) == Some(recent[0]);
  }

  lemma LayersAppend(recent: seq<BlockData>, bd: BlockData)
    ensures TxLayers(recent + [bd]) == TxLayers(recent) + [Layer(bd.block.round, bd.uniqueTxes)]
    ensures ReceiptLayers(recent + [bd]) == ReceiptLayers(recent) + [Layer(bd.block.round, bd.receipts)]
  {
  }

  lemma LayersTail(recent: seq<BlockData>)
    requires recent != [] && RisingBlocks(recent)
    ensures TxLayers(recent)[1..] == TxLayers(recent[1..]) && ReceiptLayers(recent)[1..] == ReceiptLayers(recent[1..])
    ensures Rising(TxLayers(recent)) && Rising(ReceiptLayers(recent))
  {
  }

  lemma InsertEntries<T>(layers: seq<Layer<T>>, layer: Layer<T>, m: map<Hash, Entry<T>>)
    requires forall h :: Lookup(m, h) ==
                         if LastWith(layer.rows, h).Some? then Some(Entry(LastWith(layer.rows, h).value, layer.round))
                         else Lookup(EntryMap(layers), h)
    ensures m == EntryMap(layers + [layer])
  {
    assert (layers + [layer])[..|layers|] == layers;
    forall h ensures Lookup(m, h) == Lookup(EntryMap(layers + [layer]), h) {
      assert Lookup(EntryMap(layers), h) == Newest(layers, h);
    }
    SameLookups(m, EntryMap(layers + [layer]));
  }

  lemma EvictEntries<T>(layers: seq<Layer<T>>, m: map<Hash, Entry<T>>)
    requires layers != [] && Rising(layers)
    requires forall h :: Lookup(m, h) ==
                         if LastWith(layers[0].rows, h).Some? && h in EntryMap(layers)
                            && EntryMap(layers)[h].blockNumber == layers[0].round then None
                         else Lookup(EntryMap(layers), h)
    ensures m == EntryMap(layers[1..])
  {
    forall h ensures Lookup(m, h) == Lookup(EntryMap(layers[1..]), h) {
      EvictOldest(layers, h);
      assert Lookup(EntryMap(layers), h) == Newest(layers, h);
    }
    SameLookups(m, EntryMap(layers[1..]));
  }

  // ---------------------------------------------------------------- the class

  class CachingBackend {
    const inner: IndexBackend
    const maxCacheSize: nat
    var cacheSize: nat
    var blockDataByNumber: map<nat, BlockData>
    var blockByHashHex: map<Hash, Block>
    var logsByBlockNumber: map<nat, seq<Log>>
    var txByHashHex: map<Hash, Entry<TxBody>>
    var receiptByTxHashHex: map<Hash, Entry<ReceiptBody>>
    var lastIndexedRound: nat

    /** Every block this cache has been shown, oldest first. */
    ghost var history: seq<BlockData>

    /** The five maps and the counter answer as scans of `recent` would. */
    ghost predicate Represents(recent: seq<BlockData>)
      reads `cacheSize, `blockDataByNumber, `blockByHashHex, `logsByBlockNumber, `txByHashHex, `receiptByTxHashHex
    {
      && RisingBlocks(recent) && DistinctBlockHashes(recent)
      && cacheSize == |recent|
      && blockDataByNumber == BlockMap(recent)
      && blockByHashHex == HashMap(recent)
      && logsByBlockNumber == LogMap(recent)
      && txByHashHex == EntryMap(TxLayers(recent))
      && receiptByTxHashHex == EntryMap(ReceiptLayers(recent))
    }

    /** The cache stands for the most recent blocks shown to it, at most maxCacheSize of them. */
    ghost predicate Valid()
      reads this
    {
      Represents(Latest(history, maxCacheSize))
    }

    constructor (inner: IndexBackend, blockSize: nat)
      ensures Valid() && history == [] && fresh(this) && this.inner == inner && lastIndexedRound == 0
      ensures maxCacheSize == if blockSize == 0 then DEFAULT_BLOCK_CACHE_SIZE else blockSize
    {
      this.inner := inner;
      maxCacheSize := if blockSize == 0 then DEFAULT_BLOCK_CACHE_SIZE else blockSize;
      cacheSize := 0;
      blockDataByNumber, blockByHashHex, logsByBlockNumber := map[], map[], map[];
      txByHashHex, receiptByTxHashHex := map[], map[];
      lastIndexedRound := 0;
      history := [];
    }

    /** Start's plain write of what it has read from the inner backend. */
    method AssignLastIndexedRound(round: nat)
      requires Valid()
      modifies `lastIndexedRound
      ensures Valid() && lastIndexedRound == round
    {
      lastIndexedRound := round;
    }

    /** A block newer than all cached ones, with a hash of its own. */
    ghost predicate IsNext(bd: BlockData)
      reads this
    {
      FollowsAll(bd, Latest(history, maxCacheSize))
    }

    /** Inserts a newly indexed block and evicts the oldest ones beyond the capacity. */
    method OnBlockIndexed(bd: BlockData)
      requires Valid() && IsNext(bd)
      modifies this
      ensures Valid() && history == old(history) + [bd]
      ensures lastIndexedRound == Max(old(lastIndexedRound), bd.block.round)
    {
      ghost var recent := Latest(history, maxCacheSize);
      LatestStep(history, bd, maxCacheSize);
      ghost var shown := history + [bd];
      assert Latest(shown, maxCacheSize) == Latest(recent + [bd], maxCacheSize);
      Insert(bd, recent);
      if bd.block.round > lastIndexedRound {
        lastIndexedRound := bd.block.round;
      }
      EvictExcess(recent + [bd]);
      assert Represents(Latest(shown, maxCacheSize));
      history := shown;
    }

    /** Evicts the lowest rounds, one by one, until the capacity is met. */
    method EvictExcess(ghost all: seq<BlockData>)
      requires Represents(all)
      modifies this
      ensures Represents(Latest(all, maxCacheSize))
      ensures history == old(history) && lastIndexedRound == old(lastIndexedRound)
    {
      if cacheSize <= maxCacheSize {
        return;
      }
      var rounds := SortedKeys(blockDataByNumber);
      KeysAreRounds(all, rounds, blockDataByNumber);
      var i := 0;
      while cacheSize > maxCacheSize
        invariant 0 <= i <= |rounds| && cacheSize >= maxCacheSize
        invariant Represents(all[i..])
        invariant history == old(history) && lastIndexedRound == old(lastIndexedRound)
        decreases cacheSize
      {
        PruneCache(rounds[i], all[i..]);
        assert all[i..][1..] == all[i + 1..];
        i := i + 1;
      }
      assert all[i..] == Latest(all, maxCacheSize);
    }

    method Insert(bd: BlockData, ghost recent: seq<BlockData>)
      requires Represents(recent)
      requires FollowsAll(bd, recent)
      modifies this
      ensures Represents(recent + [bd])
      ensures history == old(history) && lastIndexedRound == old(lastIndexedRound)
    {
      ghost var all := recent + [bd];
      blockDataByNumber := blockDataByNumber[bd.block.round := bd];
      blockByHashHex := blockByHashHex[bd.block.hash := bd.block];
      var logs := ReceiptLogs(bd.receipts);
      logsByBlockNumber := logsByBlockNumber[bd.block.round := logs];
      txByHashHex := CacheRows(txByHashHex, bd.block.round, bd.uniqueTxes, TxLayers(recent));
      receiptByTxHashHex := CacheRows(receiptByTxHashHex, bd.block.round, bd.receipts, ReceiptLayers(recent));
      cacheSize := cacheSize + 1;
      InsertNewest(recent, bd, blockDataByNumber, blockByHashHex, logsByBlockNumber);
      LayersAppend(recent, bd);
    }

    /** Evicts the oldest block. */
    method PruneCache(blockNumber: nat, ghost recent: seq<BlockData>)
      requires Represents(recent) && recent != [] && blockNumber == recent[0].block.round
      modifies this
      ensures Represents(recent[1..])
      ensures history == old(history) && lastIndexedRound == old(lastIndexedRound)
    {
      OldestIsCached(recent);
      EvictMaps(recent);
      LayersTail(recent);
      var bd := blockDataByNumber[blockNumber];
      txByHashHex := DropRows(txByHashHex, blockNumber, bd.uniqueTxes, TxLayers(recent));
      receiptByTxHashHex := DropRows(receiptByTxHashHex, blockNumber, bd.receipts, ReceiptLayers(recent));
      blockByHashHex := blockByHashHex - {bd.block.hash};
      logsByBlockNumber := logsByBlockNumber - {bd.block.round};
      blockDataByNumber := blockDataByNumber - {blockNumber};
      cacheSize := cacheSize - 1;
    }

    /** The cached row, else the inner backend's. */
    method QueryTransaction(h: Hash) returns (r: Option<Tx>)
      requires Valid()
      ensures
        var e := Newest(TxLayers(Latest(history, maxCacheSize)), h);
        r == if e.Some? then Some(e.value.row) else Lookup(inner.store.txs, h)
    {
      assert Lookup(txByHashHex, h) == Newest(TxLayers(Latest(history, maxCacheSize)), h);
      if h in txByHashHex {
        return Some(txByHashHex[h].row);
      }
      r := inner.QueryTransaction(h);
    }

    method CachedReceipt(h: Hash) returns (r: Option<Receipt>)
      requires Valid()
      ensures
        var e := Newest(ReceiptLayers(Latest(history, maxCacheSize)), h);
        r == if e.Some? then Some(e.value.row) else None
    {
      assert Lookup(receiptByTxHashHex, h) == Newest(ReceiptLayers(Latest(history, maxCacheSize)), h);
      r := if h in receiptByTxHashHex then Some(receiptByTxHashHex[h].row) else None;
    }

    /** The last indexed round seen, else the inner backend's. */
    method QueryLastIndexedRound() returns (r: Option<nat>)
      ensures r == if lastIndexedRound != 0 then Some(lastIndexedRound) else inner.store.continues
    {
      if lastIndexedRound != 0 {
        return Some(lastIndexedRound);
      }
      r := inner.store.continues;
    }

    /**
     A range is answered from the cache exactly when its size, computed in 64 bits, is below the
     capacity, it is not empty and all its rounds are cached; the answer is then the concatenation
     of their logs.  Every other range goes to the store.
     */
    method GetLogs(first: nat, last: nat) returns (r: seq<Log>, cached: bool)
      requires Valid() && first < UINT64_MODULUS && last < UINT64_MODULUS
      ensures cached <==>
                && (last - first + 1) % 0x1_0000_0000_0000_0000 < maxCacheSize && first <= last
                && forall n :: first <= n <= last ==> n in LogMap(Latest(history, maxCacheSize))
      ensures IsAnswer(inner.store.logs, Latest(history, maxCacheSize), maxCacheSize, first, last, r)
    {
      var reqSize := (last - first + 1) % UINT64_MODULUS;
      cached := false;
      if reqSize < maxCacheSize {
        cached, r := CachedLogs(logsByBlockNumber, first, last);
        if cached {
          return;
        }
      }
      r := inner.GetLogs(first, last);
    }
  }

  /** Whether a cache that holds these blocks answers a range itself. */
  ghost predicate FromCache(blocks: seq<BlockData>, max: nat, first: nat, last: nat) {
    && (last - first + 1) % UINT64_MODULUS < max && first <= last
    && forall n :: first <= n <= last ==> n in LogMap(blocks)
  }

  /** The answer to a range of rounds, by a cache that holds these blocks or by the table behind it. */
  ghost predicate IsAnswer(table: map<(Hash, nat), Log>, blocks: seq<BlockData>, max: nat, first: nat, last: nat,
                           rows: seq<Log>)
  {
    if FromCache(blocks, max, first, last) then rows == RangeLogs(LogMap(blocks), first, last + 1)
    else IsListing(table, first, last, rows)
  }

  /** The logs of rounds first..end-1, round by round. */
  function RangeLogs(logs: map<nat, seq<Log>>, first: nat, end: nat): seq<Log> {
    if end <= first then []
    else RangeLogs(logs, first, end - 1) + (if end - 1 in logs then logs[end - 1] else [])
  }

  /** Looks up round after round and stops at the first one that is missing. */
  method CachedLogs(logs: map<nat, seq<Log>>, first: nat, last: nat) returns (ok: bool, r: seq<Log>)
    ensures ok <==> first <= last && forall n :: first <= n <= last ==> n in logs
    ensures ok ==> r == RangeLogs(logs, first, last + 1)
  {
    r := [];
    ok := false;
    var i := first;
    while i <= last
      invariant first <= i && (first <= last ==> i <= last + 1) && (first > last ==> i == first)
      invariant ok <==> i > first
      invariant forall n :: first <= n < i ==> n in logs
      invariant r == RangeLogs(logs, first, i)
    {
      if i !in logs {
        return false, [];
      }
      ok := true;
      r := r + logs[i];
      i := i + 1;
    }
  }

  // ---------------------------------------------------------------- loops over rows

  /** The logs of a list of receipts, as an append loop. */
  method ReceiptLogs(receipts: seq<Receipt>) returns (logs: seq<Log>)
    ensures logs == Flatten(receipts)
  {
    logs := [];
    for i := 0 to |receipts|
      invariant logs == Flatten(receipts[..i])
    {
      assert receipts[..i + 1][..i] == receipts[..i];
      logs := logs + receipts[i].logs;
    }
    assert receipts[..|receipts|] == receipts;
  }

  /** Stores an entry for every row of a new block. */
  method CacheRows<T>(entries: map<Hash, Entry<T>>, round: nat, rows: seq<Row<T>>, ghost layers: seq<Layer<T>>)
    returns (r: map<Hash, Entry<T>>)
    requires entries == EntryMap(layers)
    ensures r == EntryMap(layers + [Layer(round, rows)])
  {
    r := entries;
    for i := 0 to |rows|
      invariant forall h :: Lookup(r, h) ==
                            if LastWith(rows[..i], h).Some? then Some(Entry(LastWith(rows[..i], h).value, round))
                            else Lookup(entries, h)
    {
      assert rows[..i + 1][..i] == rows[..i];
      r := r[rows[i].hash := Entry(rows[i], round)];
    }
    assert rows[..|rows|] == rows;
    InsertEntries(layers, Layer(round, rows), r);
  }

  /** Removes the entries of the oldest block's rows, unless a newer block has taken them over. */
  method DropRows<T>(entries: map<Hash, Entry<T>>, round: nat, rows: seq<Row<T>>, ghost layers: seq<Layer<T>>)
    returns (r: map<Hash, Entry<T>>)
    requires entries == EntryMap(layers) && Rising(layers) && layers != [] && layers[0] == Layer(round, rows)
    ensures r == EntryMap(layers[1..])
  {
    r := entries;
    for i := 0 to |rows|
      invariant forall h :: Lookup(r, h) ==
                            if LastWith(rows[..i], h).Some? && h in entries && entries[h].blockNumber == round then None
                            else Lookup(entries, h)
    {
      assert rows[..i + 1][..i] == rows[..i];
      var h := rows[i].hash;
      assert Lookup(r, h) ==
             if LastWith(rows[..i], h).Some? && h in entries && entries[h].blockNumber == round then None
             else Lookup(entries, h);
      if h in r && r[h].blockNumber == round {
        r := r - {h};
      }
    }
    assert rows[..|rows|] == rows;
    EvictEntries(layers, r);
  }

  method SortedKeys<V>(m: map<nat, V>) returns (keys: seq<nat>)
    ensures forall k :: k in keys <==> k in m
    ensures forall i, j :: 0 <= i < j < |keys| ==> keys[i] < keys[j]
  {
    var rest := m.Keys;
    keys := [];
    while rest != {}
      invariant rest <= m.Keys
      invariant forall k :: k in keys <==> k in m && k !in rest
      invariant forall i, k :: 0 <= i < |keys| && k in rest ==> keys[i] < k
      invariant forall i, j :: 0 <= i < j < |keys| ==> keys[i] < keys[j]
      decreases rest
    {
      ghost var least := LeastExists(rest);
      var k :| k in rest && forall n :: n in rest ==> k <= n;
      keys := keys + [k];
      rest := rest - {k};
    }
  }

  lemma {:induction false} LeastExists(s: set<nat>) returns (k: nat)
    requires s != {}
    ensures k in s && forall n :: n in s ==> k <= n
    decreases |s|
  {
    k :| k in s;
    var rest := s - {k};
    if rest != {} {
      var l := LeastExists(rest);
      if l < k {
        forall n | n in s ensures l <= n {
          assert n == k || n in rest;
        }
        k := l;
      } else {
        forall n | n in s ensures k <= n {
          assert n == k || n in rest;
        }
      }
    }
  }

  function Rounds(blocks: seq<BlockData>): (r: seq<nat>)
    ensures |r| == |blocks|
  {
    seq(|blocks|, i requires 0 <= i < |blocks| => blocks[i].block.round)
  }

  lemma {:induction false} SortedListsAgree(a: seq<nat>, b: seq<nat>)
    requires forall k :: k in a <==> k in b
    requires forall i, j :: 0 <= i < j < |a| ==> a[i] < a[j]
    requires forall i, j :: 0 <= i < j < |b| ==> b[i] < b[j]
    ensures a == b
  {
    assert a == [] || a[0] in a;
    assert b == [] || b[0] in b;
    if a != [] {
      assert a[|a| - 1] in b;
      assert b[|b| - 1] in a;
      var c, d := a[..|a| - 1], b[..|b| - 1];
      assert a[|a| - 1] == b[|b| - 1];
      forall k ensures k in c ==> k in d {
        if k in c {
          var i :| 0 <= i < |c| && c[i] == k;
          assert a[i] == k && k in b;
          var j :| 0 <= j < |b| && b[j] == k;
          assert d[j] == k;
        }
      }
      forall k ensures k in d ==> k in c {
        if k in d {
          var i :| 0 <= i < |d| && d[i] == k;
          assert b[i] == k && k in a;
          var j :| 0 <= j < |a| && a[j] == k;
          assert c[j] == k;
        }
      }
      SortedListsAgree(c, d);
    }
  }

  /** The sorted keys of the block map are the cached rounds, oldest first. */
  lemma KeysAreRounds(blocks: seq<BlockData>, rounds: seq<nat>, m: map<nat, BlockData>)
    requires RisingBlocks(blocks)
    requires m == BlockMap(blocks)
    requires forall k :: k in rounds <==> k in m
    requires forall i, j :: 0 <= i < j < |rounds| ==> rounds[i] < rounds[j]
    ensures rounds == Rounds(blocks)
  {
    forall k ensures k in rounds <==> k in Rounds(blocks) {
      if k >= 0 {
        BlockAtMeans(blocks, k);
        assert Lookup(m, k) == BlockAt(blocks, k);
        if k in Rounds(blocks) {
          var i :| 0 <= i < |blocks| && Rounds(blocks)[i] == k;
        }
        if k in rounds {
          var i :| 0 <= i < |blocks| && blocks[i].block.round == k;
          assert Rounds(blocks)[i] == k;
        }
      }
    }
    SortedListsAgree(rounds, Rounds(blocks));
  }
}
