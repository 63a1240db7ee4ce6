/** What a fee history answer says about the tracked blocks, without the functions that compute it. */
module FeeMeaning {
  import opened Model
  import opened FeeHistory

  // ---------------------------------------------------------------- what is recorded

  /** One block's record: its figures, and the gas and the capped tip of each of its transactions. */
  ghost predicate Records(d: BlockFees, bd: BlockData) {
    && d.height == bd.block.round && d.gasUsed == bd.block.header.gasUsed && d.baseFee == bd.block.header.baseFee
    && d.ratio.used == bd.block.header.gasUsed && d.ratio.limit == bd.block.header.gasLimit
    && (forall i, j :: 0 <= i < j < |d.sortedTxs| ==> d.sortedTxs[i].reward <= d.sortedTxs[j].reward)
    && exists txs :: AreTips(txs, bd) && multiset(d.sortedTxs) == multiset(txs)
  }

  /** The reward is at most both caps, and is one of them. */
  ghost predicate AreTips(txs: seq<TxGas>, bd: BlockData) {
    && |txs| == |bd.uniqueTxes| == |bd.receipts|
    && forall i :: 0 <= i < |txs| ==>
         && txs[i].gasUsed == bd.receipts[i].body.gasUsed
         && txs[i].reward <= bd.uniqueTxes[i].body.gasTipCap && txs[i].reward <= bd.uniqueTxes[i].body.gasFeeCap
         && (txs[i].reward == bd.uniqueTxes[i].body.gasTipCap || txs[i].reward == bd.uniqueTxes[i].body.gasFeeCap)
  }

  lemma {:induction false} CountWithReward(s: seq<TxGas>, x: TxGas)
    ensures multiset(WithReward(s, x.reward))[x] == multiset(s)[x]
  {
    if s != [] {
      var init, last := s[..|s| - 1], s[|s| - 1];
      CountWithReward(init, x);
      assert s == init + [last];
      assert multiset(s) == multiset(init) + multiset{last};
      if last.reward == x.reward {
        assert multiset(WithReward(s, x.reward)) == multiset(WithReward(init, x.reward)) + multiset{last};
      } else {
        assert WithReward(s, x.reward) == WithReward(init, x.reward);
      }
    }
  }

  /** A stable rearrangement is a rearrangement. */
  lemma StableIsRearranged(a: seq<TxGas>, b: seq<TxGas>)
    requires StableRearrangement(a, b)
    ensures multiset(a) == multiset(b)
  {
    forall x: TxGas ensures multiset(a)[x] == multiset(b)[x] {
      CountWithReward(a, x);
      CountWithReward(b, x);
      assert WithReward(a, x.reward) == WithReward(b, x.reward);
    }
  }

  lemma RecordMeans(d: BlockFees, bd: BlockData)
    requires FeesOf(d, bd)
    ensures Records(d, bd)
  {
    StableIsRearranged(d.sortedTxs, GasAndRewards(bd));
    assert AreTips(GasAndRewards(bd), bd);
  }

  /** The tracker's entries are the records of the last blocks tracked, the newest at the end. */
  lemma TrackerMeans(tracker: FeeTracker)
    requires tracker.Valid()
    ensures
      var data, blocks := tracker.feeHistoryData, tracker.tracked;
      && |data| == Min(|blocks|, tracker.feeHistorySize)
      && forall k :: 0 <= k < |data| ==> Records(data[k], blocks[|blocks| - |data| + k])
  {
    var data, recent := tracker.feeHistoryData, Latest(tracker.tracked, tracker.feeHistorySize);
    LatestMeans(tracker.tracked, tracker.feeHistorySize);
    forall k | 0 <= k < |data| ensures Records(data[k], recent[k]) {
      RecordMeans(data[k], recent[k]);
    }
  }

  // ---------------------------------------------------------------- one reward

  lemma ThresholdMeans(gasUsed: nat, p: real)
    requires p >= 0.0
    ensures Threshold(gasUsed, p) as real <= gasUsed as real * p / 100.0 < Threshold(gasUsed, p) as real + 1.0
  {
  }

  /** Gas adds up over the transactions. */
  lemma GasSumMeans(txs: seq<TxGas>, n: nat)
    requires n < |txs|
    ensures GasSum(txs[..0]) == 0 && GasSum(txs[..n + 1]) == GasSum(txs[..n]) + txs[n].gasUsed
  {
    assert txs[..n + 1][..n] == txs[..n];
  }

  /** Transaction i is the first, by reward, up to which threshold t is used, or the last. */
  ghost predicate IsFirstUpTo(txs: seq<TxGas>, t: nat, i: nat) {
    && i < |txs| && (forall n :: 0 < n <= i ==> GasSum(txs[..n]) < t)
    && (i + 1 < |txs| ==> t <= GasSum(txs[..i + 1]))
  }

  ghost predicate IsReward(v: nat, d: BlockFees, p: real) {
    if d.sortedTxs == [] then v == 0
    else exists t: nat, i: nat ::
           IsFloor(t, d.gasUsed, p) && IsFirstUpTo(d.sortedTxs, t, i) && v == d.sortedTxs[i].reward
  }

  predicate IsFloor(t: nat, gasUsed: nat, p: real) {
    t as real <= gasUsed as real * p / 100.0 < t as real + 1.0
  }

  lemma RewardMeans(d: BlockFees, p: real)
    requires p >= 0.0
    ensures IsReward(RewardFor(d, Threshold(d.gasUsed, p)), d, p)
  {
    var t := Threshold(d.gasUsed, p);
    ThresholdMeans(d.gasUsed, p);
    assert IsFloor(t, d.gasUsed, p);
    if d.sortedTxs != [] {
      var i := Search(d.sortedTxs, t, 0);
      assert Reaches(d.sortedTxs, t, i);
      assert IsFirstUpTo(d.sortedTxs, t, i);
    }
  }

  // ---------------------------------------------------------------- what may be asked

  lemma {:induction false} StepsAscend(ps: seq<real>, i: nat, j: nat)
    requires i < j < |ps| && forall k :: 0 <= k < |ps| - 1 ==> ps[k] < ps[k + 1]
    ensures ps[i] < ps[j]
    decreases j
  {
    if i < j - 1 {
      StepsAscend(ps, i, j - 1);
    }
    assert ps[j - 1] < ps[j - 1 + 1];
  }

  /** At most a hundred percentiles, from 0 to 100, each above the one before it. */
  lemma AcceptableMeans(ps: seq<real>)
    ensures Acceptable(ps) <==>
            && |ps| <= 100
            && (forall k :: 0 <= k < |ps| ==> 0.0 <= ps[k] <= 100.0)
            && (forall k :: 0 <= k < |ps| - 1 ==> ps[k] < ps[k + 1])
  {
    if forall k :: 0 <= k < |ps| - 1 ==> ps[k] < ps[k + 1] {
      forall i, j | 0 <= i < j < |ps| ensures ps[i] < ps[j] {
        StepsAscend(ps, i, j);
      }
    }
  }

  // ---------------------------------------------------------------- the whole answer

  /** There is no entry to end at. */
  ghost predicate NothingToEndAt(data: seq<BlockFees>, lastBlock: BlockTag) {
    || data == [] || lastBlock.Earliest?
    || (lastBlock.Number? && forall i :: 0 <= i < |data| ==> data[i].height != lastBlock.height)
  }

  /** The entries asked for end before position `end`. */
  ghost predicate EndsAt(data: seq<BlockFees>, lastBlock: BlockTag, end: nat) {
    && 0 < end <= |data|
    && (lastBlock.Newest? ==> end == |data|)
    && (lastBlock.Number? ==> data[end - 1].height == lastBlock.height)
  }

  lemma EndMeans(data: seq<BlockFees>, lastBlock: BlockTag)
    ensures EndIndex(data, lastBlock).None? <==> NothingToEndAt(data, lastBlock)
    ensures EndIndex(data, lastBlock).Some? ==> EndsAt(data, lastBlock, EndIndex(data, lastBlock).value + 1)
  {
    if lastBlock.Number? {
      FirstAtBounded(data, lastBlock.height);
    }
  }

  /** Row k of the answer is what is recorded at this position, with the reward of each percentile. */
  ghost predicate RowReports(r: Result, k: nat, d: BlockFees, percentiles: seq<real>) {
    && k < |r.reward| && k < |r.baseFee| && k < |r.gasUsedRatio|
    && r.baseFee[k] == d.baseFee && r.gasUsedRatio[k] == d.ratio && |r.reward[k]| == |percentiles|
    && (forall i :: 0 <= i < |percentiles| ==> IsReward(r.reward[k][i], d, percentiles[i]))
  }

  ghost predicate ReportsEntries(r: Result, entries: seq<BlockFees>, percentiles: seq<real>) {
    && entries != [] && r.oldestBlock == entries[0].height
    && |r.reward| == |r.baseFee| == |r.gasUsedRatio| == |entries|
    && forall k :: 0 <= k < |entries| ==> RowReports(r, k, entries[k], percentiles)
  }

  lemma ReportMeans(r: Result, entries: seq<BlockFees>, percentiles: seq<real>)
    requires entries != [] && NonNegative(percentiles)
    requires Reports(r, entries, percentiles) && RewardsAreIndependent(r, entries, percentiles)
    ensures ReportsEntries(r, entries, percentiles)
  {
    forall k | 0 <= k < |entries| ensures RowReports(r, k, entries[k], percentiles) {
      forall i | 0 <= i < |percentiles| ensures IsReward(r.reward[k][i], entries[k], percentiles[i]) {
        RewardMeans(entries[k], percentiles[i]);
      }
    }
  }

  /** The last n entries before position `end`, or all of them. */
  ghost predicate ReportsUpTo(r: Result, data: seq<BlockFees>, n: nat, end: nat, percentiles: seq<real>) {
    && end <= |data|
    && ReportsEntries(r, if n < end then data[end - n..end] else data[..end], percentiles)
  }

  /** eth_feeHistory answers with nothing exactly if there is no entry to end at; otherwise with the last
      min(blockCount, available) entries up to the newest one, or up to one of the height asked for. */
  lemma AnswerMeans(r: Result, data: seq<BlockFees>, blockCount: nat, lastBlock: BlockTag, percentiles: seq<real>)
    requires blockCount >= 1 && NonNegative(percentiles)
    requires Answered(r, data, blockCount, EndIndex(data, lastBlock), percentiles)
    ensures r == NoHistory <==> NothingToEndAt(data, lastBlock)
    ensures r != NoHistory ==>
              exists end: nat :: EndsAt(data, lastBlock, end) && ReportsUpTo(r, data, blockCount, end, percentiles)
  {
    EndMeans(data, lastBlock);
    if EndIndex(data, lastBlock).Some? {
      var end := EndIndex(data, lastBlock).value + 1;
      ReportMeans(r, Requested(data, blockCount, end), percentiles);
      assert EndsAt(data, lastBlock, end) && ReportsUpTo(r, data, blockCount, end, percentiles);
    }
  }
}
