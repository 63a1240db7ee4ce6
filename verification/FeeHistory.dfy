/**
 Fee history (gas/fee_history.go) and the argument checks in front of it (rpc/eth/api.go).

 Percentiles are reals; a threshold is the floor of gasUsed * p / 100.  The gas-used ratio is kept as
 the pair of its operands.
 */
module FeeHistory {
  import opened Model
  import opened IndexStore
  import opened EmittedData
  import BlockConversion
  import Tables

  const DEFAULT_FEE_HISTORY_SIZE: nat := 20
  const MAX_QUERY_LIMIT: nat := 100

  datatype TxGas = TxGas(gasUsed: nat, reward: nat)

  datatype Ratio = Ratio(used: nat, limit: nat)

  datatype BlockFees = BlockFees(height: nat, baseFee: nat, ratio: Ratio, gasUsed: nat, sortedTxs: seq<TxGas>)

  datatype BlockTag = Newest | Earliest | Number(height: nat)

  datatype Result = Result(oldestBlock: nat, reward: seq<seq<nat>>, baseFee: seq<nat>, gasUsedRatio: seq<Ratio>)

  const NoHistory := Result(0, [], [], [])

  // ---------------------------------------------------------------- percentiles

  function GasSum(txs: seq<TxGas>): nat {
    if txs == [] then 0 else GasSum(txs[..|txs| - 1]) + txs[|txs| - 1].gasUsed
  }

  function Threshold(gasUsed: nat, p: real): nat
    requires p >= 0.0
  {
    (gasUsed as real * p / 100.0).Floor
  }

  /** Position i is the first whose prefix gas reaches the threshold, or the last if none does. */
  ghost predicate Reaches(txs: seq<TxGas>, threshold: nat, i: nat) {
    && i < |txs|
    && (forall n :: 0 < n <= i ==> GasSum(txs[..n]) < threshold)
    && (GasSum(txs[..i + 1]) >= threshold || i == |txs| - 1)
  }

  /** One independent search from position i on. */
  function Search(txs: seq<TxGas>, threshold: nat, i: nat): (r: nat)
    requires i < |txs|
    requires forall n :: 0 < n <= i ==> GasSum(txs[..n]) < threshold
    ensures Reaches(txs, threshold, r)
    decreases |txs| - i
  {
    if GasSum(txs[..i + 1]) >= threshold || i == |txs| - 1 then i else Search(txs, threshold, i + 1)
  }

  lemma ReachesUnique(txs: seq<TxGas>, threshold: nat, i: nat, j: nat)
    requires Reaches(txs, threshold, i) && Reaches(txs, threshold, j)
    ensures i == j
  {
  }

  /** The reward for one threshold, by a search of its own. */
  function RewardFor(d: BlockFees, threshold: nat): nat {
    if d.sortedTxs == [] then 0 else d.sortedTxs[Search(d.sortedTxs, threshold, 0)].reward
  }

  predicate NonNegative(percentiles: seq<real>) {
    forall i :: 0 <= i < |percentiles| ==> percentiles[i] >= 0.0
  }

  /** The largest threshold among the first n percentiles. */
  function MaxThreshold(gasUsed: nat, percentiles: seq<real>, n: nat): nat
    requires n <= |percentiles| && NonNegative(percentiles)
  {
    if n == 0 then 0
    else Max(MaxThreshold(gasUsed, percentiles, n - 1), Threshold(gasUsed, percentiles[n - 1]))
  }

  function RewardsOf(d: BlockFees, percentiles: seq<real>): (r: seq<nat>)
    requires NonNegative(percentiles)
  {
    seq(|percentiles|, k requires 0 <= k < |percentiles| => RewardFor(d, MaxThreshold(d.gasUsed, percentiles, k + 1)))
  }

  lemma RewardAt(d: BlockFees, percentiles: seq<real>, i: nat, txIndex: nat)
    requires NonNegative(percentiles) && i < |percentiles|
    requires Reaches(d.sortedTxs, MaxThreshold(d.gasUsed, percentiles, i + 1), txIndex)
    ensures RewardsOf(d, percentiles)[..i + 1] == RewardsOf(d, percentiles)[..i] + [d.sortedTxs[txIndex].reward]
  {
    var goal := MaxThreshold(d.gasUsed, percentiles, i + 1);
    ReachesUnique(d.sortedTxs, goal, txIndex, Search(d.sortedTxs, goal, 0));
  }

  /** The one-pass scan: its position only moves forward, so for percentiles in any order the result is
      that of a separate search for the running maximum of the thresholds. */
  method Rewards(d: BlockFees, percentiles: seq<real>) returns (rewards: seq<nat>)
    requires NonNegative(percentiles)
    ensures rewards == RewardsOf(d, percentiles)
  {
    rewards := [];
    if d.sortedTxs == [] {
      for i := 0 to |percentiles|
        invariant rewards == RewardsOf(d, percentiles)[..i]
      {
        rewards := rewards + [0];
      }
      return;
    }
    var txs := d.sortedTxs;
    var txIndex, sumGasUsed := 0, txs[0].gasUsed;
    assert txs[..1][..0] == [] && txs[..1][0] == txs[0];
    for i := 0 to |percentiles|
      invariant Reaches(txs, MaxThreshold(d.gasUsed, percentiles, i), txIndex)
      invariant sumGasUsed == GasSum(txs[..txIndex + 1])
      invariant rewards == RewardsOf(d, percentiles)[..i]
    {
      var threshold := Threshold(d.gasUsed, percentiles[i]);
      txIndex, sumGasUsed := Advance(txs, txIndex, sumGasUsed, threshold, MaxThreshold(d.gasUsed, percentiles, i));
      RewardAt(d, percentiles, i, txIndex);
      rewards := rewards + [txs[txIndex].reward];
    }
  }

  /** The inner loop: from the position for one threshold to the position for the larger of two. */
  method Advance(txs: seq<TxGas>, start: nat, startSum: nat, threshold: nat, ghost reached: nat)
    returns (txIndex: nat, sumGasUsed: nat)
    requires Reaches(txs, reached, start) && startSum == GasSum(txs[..start + 1])
    ensures Reaches(txs, Max(reached, threshold), txIndex) && sumGasUsed == GasSum(txs[..txIndex + 1])
  {
    txIndex, sumGasUsed := start, startSum;
    while sumGasUsed < threshold && txIndex < |txs| - 1
      invariant txIndex < |txs| && sumGasUsed == GasSum(txs[..txIndex + 1])
      invariant forall n :: 0 < n <= txIndex ==> GasSum(txs[..n]) < Max(reached, threshold)
      invariant sumGasUsed >= reached || txIndex == |txs| - 1
    {
      txIndex := txIndex + 1;
      assert txs[..txIndex + 1][..txIndex] == txs[..txIndex];
      sumGasUsed := sumGasUsed + txs[txIndex].gasUsed;
    }
  }

  predicate Ascending(percentiles: seq<real>) {
    forall i, j :: 0 <= i < j < |percentiles| ==> percentiles[i] < percentiles[j]
  }

  lemma ThresholdMonotone(gasUsed: nat, p: real, q: real)
    requires 0.0 <= p <= q
    ensures Threshold(gasUsed, p) <= Threshold(gasUsed, q)
  {
    var x, y := gasUsed as real * p / 100.0, gasUsed as real * q / 100.0;
    MulMonotone(gasUsed as real, p, q);
    assert x <= y;
    assert x.Floor as real <= x <= y < y.Floor as real + 1.0;
  }

  lemma MulMonotone(a: real, p: real, q: real)
    requires a >= 0.0 && p <= q
    ensures a * p <= a * q
  {
    assert a * (q - p) >= 0.0;
  }

  lemma {:induction false} AscendingThresholds(gasUsed: nat, percentiles: seq<real>, n: nat)
    requires 0 < n <= |percentiles| && NonNegative(percentiles) && Ascending(percentiles)
    ensures MaxThreshold(gasUsed, percentiles, n) == Threshold(gasUsed, percentiles[n - 1])
  {
    if n > 1 {
      AscendingThresholds(gasUsed, percentiles, n - 1);
      ThresholdMonotone(gasUsed, percentiles[n - 2], percentiles[n - 1]);
    }
  }

  ghost predicate Sorted(txs: seq<TxGas>) {
    forall i, j :: 0 <= i < j < |txs| ==> txs[i].reward <= txs[j].reward
  }

  /** For ascending percentiles each reward is the one of its own percentile, and rewards never fall. */
  lemma AscendingRewards(d: BlockFees, percentiles: seq<real>, i: nat, j: nat)
    requires NonNegative(percentiles) && Ascending(percentiles) && Sorted(d.sortedTxs) && i <= j < |percentiles|
    ensures RewardsOf(d, percentiles)[i] == RewardFor(d, Threshold(d.gasUsed, percentiles[i]))
    ensures RewardsOf(d, percentiles)[i] <= RewardsOf(d, percentiles)[j]
  {
    AscendingThresholds(d.gasUsed, percentiles, i + 1);
    AscendingThresholds(d.gasUsed, percentiles, j + 1);
    ThresholdMonotone(d.gasUsed, percentiles[i], percentiles[j]);
    if d.sortedTxs != [] {
      SearchMonotone(d.sortedTxs, Threshold(d.gasUsed, percentiles[i]), Threshold(d.gasUsed, percentiles[j]));
    }
  }

  lemma SearchMonotone(txs: seq<TxGas>, s: nat, t: nat)
    requires txs != [] && s <= t
    ensures Search(txs, s, 0) <= Search(txs, t, 0)
  {
    var i, j := Search(txs, s, 0), Search(txs, t, 0);
    assert Reaches(txs, s, i) && Reaches(txs, t, j);
  }

  // ---------------------------------------------------------------- argument validation

  /** Short enough, within [0, 100] and strictly ascending. */
  ghost predicate Acceptable(percentiles: seq<real>) {
    && |percentiles| <= MAX_QUERY_LIMIT
    && (forall i :: 0 <= i < |percentiles| ==> 0.0 <= percentiles[i] <= 100.0)
    && Ascending(percentiles)
  }

  method ValidPercentiles(percentiles: seq<real>) returns (ok: bool)
    ensures ok <==> Acceptable(percentiles)
  {
    if |percentiles| > MAX_QUERY_LIMIT {
      return false;
    }
    for i := 0 to |percentiles|
      invariant forall k :: 0 <= k < i ==> 0.0 <= percentiles[k] <= 100.0
      invariant forall j, k :: 0 <= j < k < i ==> percentiles[j] < percentiles[k]
    {
      if percentiles[i] < 0.0 || percentiles[i] > 100.0 {
        return false;
      }
      if i > 0 && percentiles[i] <= percentiles[i - 1] {
        return false;
      }
    }
    return true;
  }

  // ---------------------------------------------------------------- tracking

  /** The transactions with one particular reward, in order. */
  function WithReward(txs: seq<TxGas>, v: nat): seq<TxGas> {
    if txs == [] then [] else
    WithReward(txs[..|txs| - 1], v) + (if txs[|txs| - 1].reward == v then [txs[|txs| - 1]] else [])
  }

  /** A stable rearrangement: under every reward the same transactions in the same order. */
  ghost predicate StableRearrangement(a: seq<TxGas>, b: seq<TxGas>) {
    forall v :: WithReward(a, v) == WithReward(b, v)
  }

  function Insert(s: seq<TxGas>, x: TxGas): seq<TxGas> {
    if s == [] || s[|s| - 1].reward <= x.reward then s + [x]
    else Insert(s[..|s| - 1], x) + [s[|s| - 1]]
  }

  lemma {:induction false} InsertSorts(s: seq<TxGas>, x: TxGas)
    requires Sorted(s)
    ensures |Insert(s, x)| == |s| + 1 && Sorted(Insert(s, x))
    ensures s != [] ==> Insert(s, x)[|s|].reward == Max(s[|s| - 1].reward, x.reward)
  {
    if s != [] && s[|s| - 1].reward > x.reward {
      InsertSorts(s[..|s| - 1], x);
    }
  }

  lemma {:induction false} InsertStable(s: seq<TxGas>, x: TxGas, v: nat)
    ensures WithReward(Insert(s, x), v) == WithReward(s, v) + (if x.reward == v then [x] else [])
  {
    if s == [] || s[|s| - 1].reward <= x.reward {
      assert (s + [x])[..|s|] == s;
    } else {
      var init, last := s[..|s| - 1], s[|s| - 1];
      InsertStable(init, x, v);
      assert (Insert(init, x) + [last])[..|Insert(init, x)|] == Insert(init, x);
    }
  }

  method SortStable(txs: seq<TxGas>) returns (r: seq<TxGas>)
    ensures Sorted(r) && StableRearrangement(r, txs) && |r| == |txs|
  {
    r := [];
    for i := 0 to |txs|
      invariant Sorted(r) && StableRearrangement(r, txs[..i]) && |r| == i
    {
      assert txs[..i + 1][..i] == txs[..i];
      InsertSorts(r, txs[i]);
      forall v ensures WithReward(Insert(r, txs[i]), v) == WithReward(txs[..i + 1], v) {
        InsertStable(r, txs[i], v);
        assert WithReward(r, v) == WithReward(txs[..i], v);
      }
      r := Insert(r, txs[i]);
    }
    assert txs[..|txs|] == txs;
  }

  /** Gas and reward (the tip, capped by the fee cap) of each transaction of the block. */
  function GasAndRewards(bd: BlockData): seq<TxGas>
    requires |bd.uniqueTxes| == |bd.receipts|
  {
    seq(|bd.uniqueTxes|, i requires 0 <= i < |bd.uniqueTxes| =>
      TxGas(bd.receipts[i].body.gasUsed, Min(bd.uniqueTxes[i].body.gasTipCap, bd.uniqueTxes[i].body.gasFeeCap)))
  }

  ghost predicate FeesOf(d: BlockFees, bd: BlockData) {
    && |bd.uniqueTxes| == |bd.receipts|
    && d.height == bd.block.round && d.gasUsed == bd.block.header.gasUsed && d.baseFee == bd.block.header.baseFee
    && d.ratio == Ratio(bd.block.header.gasUsed, bd.block.header.gasLimit)
    && Sorted(d.sortedTxs) && StableRearrangement(d.sortedTxs, GasAndRewards(bd))
    && |d.sortedTxs| == |bd.receipts|
  }

  /** Every stored block meets the demand of trackFeeHistory, and each slot is filled from a transaction and
      the receipt of that same transaction. */
  lemma SlotsAreFilled(s: Store, b: BlockConversion.RawBlock, i: nat)
    requires Sound(s, b) && i < |Emitted(BlockConversion.ModelsOf(b)).receipts|
    ensures
      var bd := Emitted(BlockConversion.ModelsOf(b));
      && |bd.uniqueTxes| == |bd.receipts|
      && bd.uniqueTxes[i].hash == bd.receipts[i].hash && bd.uniqueTxes[i].index == bd.receipts[i].index
  {
    var bd := Emitted(BlockConversion.ModelsOf(b));
    EmittedIsWellFormed(s, b);
    assert Tables.Meta(bd.uniqueTxes[i]) == Tables.Meta(bd.receipts[i]);
  }

  method BlockFeesOf(bd: BlockData) returns (d: BlockFees)
    requires |bd.uniqueTxes| == |bd.receipts|
    ensures FeesOf(d, bd)
  {
    var txs: seq<TxGas> := [];
    for i := 0 to |bd.uniqueTxes|
      invariant txs == GasAndRewards(bd)[..i]
    {
      var reward := bd.uniqueTxes[i].body.gasTipCap;
      if reward > bd.uniqueTxes[i].body.gasFeeCap {
        reward := bd.uniqueTxes[i].body.gasFeeCap;
      }
      txs := txs + [TxGas(bd.receipts[i].body.gasUsed, reward)];
    }
    assert txs == GasAndRewards(bd);
    var sortedTxs := SortStable(txs);
    d := BlockFees(bd.block.round, bd.block.header.baseFee,
                   Ratio(bd.block.header.gasUsed, bd.block.header.gasLimit), bd.block.header.gasUsed, sortedTxs);
  }

  /** The answer's columns, one row per entry. */
  method Columns(entries: seq<BlockFees>, percentiles: seq<real>)
    returns (reward: seq<seq<nat>>, baseFee: seq<nat>, ratio: seq<Ratio>)
    requires NonNegative(percentiles)
    ensures |reward| == |baseFee| == |ratio| == |entries|
    ensures forall k :: 0 <= k < |entries| ==> reward[k] == RewardsOf(entries[k], percentiles)
    ensures forall k :: 0 <= k < |entries| ==> baseFee[k] == entries[k].baseFee && ratio[k] == entries[k].ratio
  {
    reward, baseFee, ratio := [], [], [];
    for i := 0 to |entries|
      invariant |reward| == |baseFee| == |ratio| == i
      invariant forall k :: 0 <= k < i ==> reward[k] == RewardsOf(entries[k], percentiles)
      invariant forall k :: 0 <= k < i ==> baseFee[k] == entries[k].baseFee && ratio[k] == entries[k].ratio
    {
      var rewards := Rewards(entries[i], percentiles);
      reward, baseFee, ratio := reward + [rewards], baseFee + [entries[i].baseFee], ratio + [entries[i].ratio];
    }
  }

  /** The entries asked for: at most `blockCount` of them, up to position `end`. */
  function Requested(data: seq<BlockFees>, blockCount: nat, end: nat): (r: seq<BlockFees>)
    requires 0 < end <= |data| && blockCount >= 1
    ensures |r| == Min(blockCount, end) > 0
  {
    data[end - Min(blockCount, end)..end]
  }

  /** The answer tells, entry by entry, what is recorded for these blocks. */
  ghost predicate Reports(r: Result, entries: seq<BlockFees>, percentiles: seq<real>)
    requires entries != [] && NonNegative(percentiles)
  {
    && r.oldestBlock == entries[0].height
    && |r.reward| == |r.baseFee| == |r.gasUsedRatio| == |entries|
    && (forall k :: 0 <= k < |entries| ==> r.reward[k] == RewardsOf(entries[k], percentiles))
    && (forall k :: 0 <= k < |entries| ==> r.baseFee[k] == entries[k].baseFee && r.gasUsedRatio[k] == entries[k].ratio)
  }

  ghost predicate AllSorted(entries: seq<BlockFees>) {
    forall k :: 0 <= k < |entries| ==> Sorted(entries[k].sortedTxs)
  }

  class FeeTracker {
    const feeHistorySize: nat
    var feeHistoryData: seq<BlockFees>

    /** The blocks tracked so far. */
    ghost var tracked: seq<BlockData>

    /** One entry per block, for the last feeHistorySize blocks. */
    ghost predicate Valid()
      reads this
    {
      && feeHistorySize > 0
      && |feeHistoryData| == |Latest(tracked, feeHistorySize)|
      && forall i :: 0 <= i < |feeHistoryData| ==> FeesOf(feeHistoryData[i], Latest(tracked, feeHistorySize)[i])
    }

    lemma EntriesSorted()
      requires Valid()
      ensures AllSorted(feeHistoryData)
    {
    }

    constructor (size: nat)
      ensures Valid() && tracked == []
      ensures feeHistorySize == if size != 0 then size else DEFAULT_FEE_HISTORY_SIZE
    {
      feeHistorySize := if size != 0 then size else DEFAULT_FEE_HISTORY_SIZE;
      feeHistoryData, tracked := [], [];
    }

    method TrackFeeHistory(bd: BlockData)
      requires Valid() && |bd.uniqueTxes| == |bd.receipts|
      modifies this
      ensures Valid() && tracked == old(tracked) + [bd]
    {
      var d := BlockFeesOf(bd);
      LatestStep(tracked, bd, feeHistorySize);
      if |feeHistoryData| == feeHistorySize {
        feeHistoryData := feeHistoryData[1..];
      }
      feeHistoryData := feeHistoryData + [d];
      tracked := tracked + [bd];
    }

    /** Exactly the contiguous min(blockCount, available) entries that end at the requested block; nothing
        if there is no such block. */
    method FeeHistory(blockCount: nat, lastBlock: BlockTag, percentiles: seq<real>) returns (r: Result)
      requires blockCount >= 1 && NonNegative(percentiles)
      ensures EndIndex(feeHistoryData, lastBlock).None? ==> r == NoHistory
      ensures EndIndex(feeHistoryData, lastBlock).Some? ==>
                var end := EndIndex(feeHistoryData, lastBlock).value;
                Reports(r, Requested(feeHistoryData, blockCount, end + 1), percentiles)
    {
      var lastIdx := FindEnd(feeHistoryData, lastBlock);
      if lastIdx.None? {
        return NoHistory;
      }
      var last := lastIdx.value;
      var oldest := 0;
      if blockCount <= last {
        oldest := last + 1 - blockCount;
      }
      var entries := feeHistoryData[oldest..last + 1];
      assert entries == Requested(feeHistoryData, blockCount, last + 1);
      var reward, baseFee, ratio := Columns(entries, percentiles);
      r := Result(feeHistoryData[oldest].height, reward, baseFee, ratio);
    }
  }

  /** The position of the first entry of that height. */
  function FirstAt(data: seq<BlockFees>, height: nat): Option<nat> {
    if data == [] then None else
    var earlier := FirstAt(data[..|data| - 1], height);
    if earlier.Some? then earlier
    else if data[|data| - 1].height == height then Some(|data| - 1) else None
  }

  /** Where the requested range ends. */
  function EndIndex(data: seq<BlockFees>, lastBlock: BlockTag): (r: Option<nat>)
    ensures r.Some? ==> r.value < |data|
  {
    if data == [] then None else
    match lastBlock
    case Newest => Some(|data| - 1)
    case Earliest => None
    case Number(h) => FirstAtBounded(data, h); FirstAt(data, h)
  }

  lemma {:induction false} FirstAtBounded(data: seq<BlockFees>, height: nat)
    ensures FirstAt(data, height).Some? ==>
              FirstAt(data, height).value < |data| && data[FirstAt(data, height).value].height == height
    ensures FirstAt(data, height).None? <==> forall i :: 0 <= i < |data| ==> data[i].height != height
  {
    if data != [] {
      FirstAtBounded(data[..|data| - 1], height);
    }
  }

  method FindEnd(data: seq<BlockFees>, lastBlock: BlockTag) returns (r: Option<nat>)
    ensures r == EndIndex(data, lastBlock)
  {
    if data == [] {
      return None;
    }
    match lastBlock {
      case Newest => r := Some(|data| - 1);
      case Earliest => r := None;
      case Number(h) =>
        r := None;
        for i := 0 to |data|
          invariant r == FirstAt(data[..i], h)
        {
          assert data[..i + 1][..i] == data[..i];
          if r.None? && data[i].height == h {
            r := Some(i);
          }
        }
        assert data[..|data|] == data;
    }
  }

  // ---------------------------------------------------------------- the whole request

  /** Row k of the answer has one reward per percentile, each found as if it were the only one asked for,
      and they never fall. */
  ghost predicate RewardsAreIndependent(r: Result, entries: seq<BlockFees>, percentiles: seq<real>)
    requires |r.reward| == |entries| && NonNegative(percentiles)
  {
    forall k :: 0 <= k < |entries| ==>
      && |r.reward[k]| == |percentiles|
      && (forall i :: 0 <= i < |percentiles| ==>
            r.reward[k][i] == RewardFor(entries[k], Threshold(entries[k].gasUsed, percentiles[i])))
      && (forall i, j :: 0 <= i < j < |percentiles| ==> r.reward[k][i] <= r.reward[k][j])
  }

  lemma ReportIsIndependent(r: Result, entries: seq<BlockFees>, percentiles: seq<real>)
    requires entries != [] && NonNegative(percentiles) && Ascending(percentiles) && Reports(r, entries, percentiles)
    requires AllSorted(entries)
    ensures RewardsAreIndependent(r, entries, percentiles)
  {
    forall k, i, j | 0 <= k < |entries| && 0 <= i <= j < |percentiles|
      ensures r.reward[k][i] == RewardFor(entries[k], Threshold(entries[k].gasUsed, percentiles[i]))
      ensures r.reward[k][i] <= r.reward[k][j]
    {
      AscendingRewards(entries[k], percentiles, i, j);
    }
  }

  /** The answer for the entries that end at `end`, or the empty answer. */
  ghost predicate Answered(r: Result, data: seq<BlockFees>, blockCount: nat, end: Option<nat>, percentiles: seq<real>)
    requires blockCount >= 1 && NonNegative(percentiles) && (end.Some? ==> end.value < |data|)
  {
    if end.None? then r == NoHistory else
    var entries := Requested(data, blockCount, end.value + 1);
    Reports(r, entries, percentiles) && RewardsAreIndependent(r, entries, percentiles)
  }

  lemma RequestedSorted(data: seq<BlockFees>, blockCount: nat, end: nat)
    requires 0 < end <= |data| && blockCount >= 1 && AllSorted(data)
    ensures AllSorted(Requested(data, blockCount, end))
  {
  }

  lemma AnswerIsIndependent(r: Result, data: seq<BlockFees>, blockCount: nat, end: nat, percentiles: seq<real>)
    requires blockCount >= 1 && NonNegative(percentiles) && Ascending(percentiles) && end < |data|
    requires AllSorted(data)
    requires Reports(r, Requested(data, blockCount, end + 1), percentiles)
    ensures Answered(r, data, blockCount, Some(end), percentiles)
  {
    RequestedSorted(data, blockCount, end + 1);
    ReportIsIndependent(r, Requested(data, blockCount, end + 1), percentiles);
  }

  /** eth_feeHistory: no blocks asked for is an empty answer, bad percentiles are an error (None), and
      everything else is answered from the tracker, whose entries are sorted (FeeTracker.EntriesSorted). */
  method RequestFeeHistory(tracker: FeeTracker, blockCount: nat, lastBlock: BlockTag, percentiles: seq<real>)
    returns (r: Option<Result>)
    requires AllSorted(tracker.feeHistoryData)
    ensures blockCount == 0 ==> r == Some(NoHistory)
    ensures blockCount >= 1 ==> (r.Some? <==> Acceptable(percentiles))
    ensures blockCount >= 1 && r.Some? ==>
              var data := tracker.feeHistoryData;
              Answered(r.value, data, blockCount, EndIndex(data, lastBlock), percentiles)
  {
    if blockCount < 1 {
      return Some(NoHistory);
    }
    var ok := ValidPercentiles(percentiles);
    if !ok {
      return None;
    }
    var history := tracker.FeeHistory(blockCount, lastBlock, percentiles);
    ghost var end := EndIndex(tracker.feeHistoryData, lastBlock);
    if end.Some? {
      AnswerIsIndependent(history, tracker.feeHistoryData, blockCount, end.value, percentiles);
    }
    r := Some(history);
  }
}
