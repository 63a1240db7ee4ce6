/**
 The gas price oracle's sliding window (gas/backend.go).

 Prices live in a ring array; the specification is the maximum of the last `windowSize` tracked
 prices.  Gas fractions are compared as reals.
 */
module GasOracle {
  import opened Model

  const DEFAULT_WINDOW_SIZE: nat := 6
  const DEFAULT_FULL_BLOCK_THRESHOLD: real := 0.5
  const DEFAULT_COMPUTED_PRICE_MARGIN: nat := 1_000_000_000
  const DEFAULT_GAS_PRICE: nat := 100_000_000_000

  /** What the oracle looks at in a block. */
  datatype Seen = Seen(gasLimit: nat, gasUsed: nat, median: Option<nat>)

  datatype GasConfig = GasConfig(windowSize: nat, blockFullThreshold: real, minGasPrice: nat, computedPriceMargin: nat)

  // ---------------------------------------------------------------- the specification

  function MaxOf(s: seq<nat>): nat {
    if s == [] then 0 else Max(MaxOf(s[..|s| - 1]), s[|s| - 1])
  }

  predicate IsFull(b: Seen, threshold: real) {
    b.gasLimit as real * threshold <= b.gasUsed as real
  }

  /** The price a block adds to the window: 0 if it is not full, nothing if it is full but has no median. */
  function Tracks(b: Seen, threshold: real, margin: nat): seq<nat> {
    if !IsFull(b, threshold) then [0]
    else if b.median.None? then []
    else [b.median.value + margin]
  }

  function Tracked(blocks: seq<Seen>, threshold: real, margin: nat): seq<nat> {
    if blocks == [] then []
    else Tracked(blocks[..|blocks| - 1], threshold, margin) + Tracks(blocks[|blocks| - 1], threshold, margin)
  }

  /** A block that is not full adds a zero, a full one its median and the margin, or nothing without one. */
  lemma TrackedAppend(blocks: seq<Seen>, b: Seen, threshold: real, margin: nat)
    ensures
      var before, after := Tracked(blocks, threshold, margin), Tracked(blocks + [b], threshold, margin);
      if !IsFull(b, threshold) then after == before + [0]
      else if b.median.None? then after == before
      else after == before + [b.median.value + margin]
  {
    assert (blocks + [b])[..|blocks|] == blocks;
  }

  function NoneIfZero(p: nat): Option<nat> { if p == 0 then None else Some(p) }

  // ---------------------------------------------------------------- the ring

  /** What slot k of the ring holds after tracking `prices`: the last price tracked into it, or 0. */
  function Slot(prices: seq<nat>, w: nat, k: nat): nat
    requires w > 0
  {
    if prices == [] then 0
    else if (|prices| - 1) % w == k then prices[|prices| - 1]
    else Slot(prices[..|prices| - 1], w, k)
  }

  lemma MulGap(a: int, b: int, w: nat)
    requires a < b
    ensures a * w + w <= b * w
  {
    assert (b - a - 1) * w >= 0;
  }

  lemma QuotientUnique(a: int, r: nat, b: int, s: nat, w: nat)
    requires r < w && s < w && a * w + r == b * w + s
    ensures a == b && r == s
  {
    if a < b {
      MulGap(a, b, w);
    } else if b < a {
      MulGap(b, a, w);
    }
  }

  lemma SameRemainder(n: nat, q: nat, r: nat, w: nat)
    requires r < w && n == q * w + r
    ensures n % w == r
  {
    QuotientUnique(n / w, n % w, q, r, w);
  }

  lemma SlotsApart(i: nat, j: nat, w: nat)
    requires i < j < i + w
    ensures i % w != j % w
  {
    var a, b := i / w, j / w;
    assert i == a * w + i % w && j == b * w + j % w;
    if a < b {
      MulGap(a, b, w);
    } else if b < a {
      MulGap(b, a, w);
    }
  }

  lemma SlotRepeats(i: nat, w: nat)
    requires w > 0
    ensures (i + w) % w == i % w
  {
    var a := i / w;
    assert i == a * w + i % w;
    SameRemainder(i + w, a + 1, i % w, w);
  }

  /** A slot holds 0 or a price of the window. */
  lemma {:induction false} SlotInWindow(prices: seq<nat>, w: nat, k: nat) returns (i: int)
    requires 0 <= k < w
    ensures -1 <= i < |prices| && (i >= 0 ==> i % w == k && Slot(prices, w, k) == prices[i])
    ensures i == -1 ==> Slot(prices, w, k) == 0
    ensures forall j :: i < j < |prices| && 0 <= j ==> j % w != k
  {
    if prices == [] {
      i := -1;
    } else if (|prices| - 1) % w == k {
      i := |prices| - 1;
    } else {
      i := SlotInWindow(prices[..|prices| - 1], w, k);
    }
  }

  /** Every price of the window is in its slot. */
  lemma {:induction false} WindowInSlots(prices: seq<nat>, w: nat, i: nat)
    requires w > 0 && i < |prices| <= i + w
    ensures Slot(prices, w, i % w) == prices[i]
  {
    var n := |prices| - 1;
    if i < n {
      SlotsApart(i, n, w);
      WindowInSlots(prices[..n], w, i);
    }
  }

  lemma {:induction false} MaxOfMeans(s: seq<nat>)
    ensures forall i :: 0 <= i < |s| ==> s[i] <= MaxOf(s)
    ensures MaxOf(s) == 0 || MaxOf(s) in s
  {
    if s != [] {
      MaxOfMeans(s[..|s| - 1]);
      assert s[|s| - 1] in s;
      assert forall x :: x in s[..|s| - 1] ==> x in s;
    }
  }

  /** The ring's maximum is the window's maximum. */
  lemma RingMax(prices: seq<nat>, w: nat, ring: seq<nat>)
    requires w > 0 && |ring| == w
    requires forall k :: 0 <= k < w ==> ring[k] == Slot(prices, w, k)
    ensures MaxOf(ring) == MaxOf(Latest(prices, w))
  {
    var window := Latest(prices, w);
    MaxOfMeans(ring);
    MaxOfMeans(window);
    if MaxOf(ring) > 0 {
      var k :| 0 <= k < w && ring[k] == MaxOf(ring);
      var i := SlotInWindow(prices, w, k);
      if i + w < |prices| {
        SlotRepeats(i, w);
      }
      assert window[i - (|prices| - |window|)] == prices[i];
    }
    if MaxOf(window) > 0 {
      var j :| 0 <= j < |window| && window[j] == MaxOf(window);
      var i := |prices| - |window| + j;
      WindowInSlots(prices, w, i);
      assert ring[i % w] == prices[i];
    }
  }

  class GasPriceOracle {
    const windowSize: nat
    const fullBlockThreshold: real
    const defaultGasPrice: nat
    const computedPriceMargin: nat
    const blockPrices: array<nat>
    var blockPricesCurrentIdx: nat
    var computedGasPrice: Option<nat>
    var nodeMinGasPrice: Option<nat>

    /** The blocks seen so far. */
    ghost var blocks: seq<Seen>

    ghost function Prices(): seq<nat>
      reads `blocks
    {
      Tracked(blocks, fullBlockThreshold, computedPriceMargin)
    }

    /** The ring agrees with the tracked prices. */
    ghost predicate RingHolds(prices: seq<nat>)
      reads `blockPricesCurrentIdx, blockPrices
    {
      && windowSize > 0 && blockPrices.Length == windowSize
      && blockPricesCurrentIdx == |prices| % windowSize
      && forall k :: 0 <= k < windowSize ==> blockPrices[k] == Slot(prices, windowSize, k)
    }

    ghost predicate Valid()
      reads this, blockPrices
    {
      RingHolds(Prices()) && computedGasPrice == NoneIfZero(MaxOf(Latest(Prices(), windowSize)))
    }

    constructor (cfg: GasConfig)
      ensures Valid() && blocks == [] && nodeMinGasPrice == None && fresh(blockPrices)
      ensures windowSize == (if cfg.windowSize != 0 then cfg.windowSize else DEFAULT_WINDOW_SIZE)
      ensures fullBlockThreshold ==
              (if cfg.blockFullThreshold != 0.0 then cfg.blockFullThreshold else DEFAULT_FULL_BLOCK_THRESHOLD)
      ensures defaultGasPrice == (if cfg.minGasPrice != 0 then cfg.minGasPrice else DEFAULT_GAS_PRICE)
      ensures computedPriceMargin ==
              (if cfg.computedPriceMargin != 0 then cfg.computedPriceMargin else DEFAULT_COMPUTED_PRICE_MARGIN)
    {
      windowSize := if cfg.windowSize != 0 then cfg.windowSize else DEFAULT_WINDOW_SIZE;
      fullBlockThreshold :=
        if cfg.blockFullThreshold != 0.0 then cfg.blockFullThreshold else DEFAULT_FULL_BLOCK_THRESHOLD;
      defaultGasPrice := if cfg.minGasPrice != 0 then cfg.minGasPrice else DEFAULT_GAS_PRICE;
      computedPriceMargin :=
        if cfg.computedPriceMargin != 0 then cfg.computedPriceMargin else DEFAULT_COMPUTED_PRICE_MARGIN;
      blockPricesCurrentIdx, computedGasPrice, nodeMinGasPrice, blocks := 0, None, None, [];
      blockPrices := new nat[if cfg.windowSize != 0 then cfg.windowSize else DEFAULT_WINDOW_SIZE](_ => 0);
    }

    /** After every block the computed price is the maximum of the window, or none if that is zero. */
    method OnBlock(b: Seen)
      requires Valid()
      modifies `blocks, `blockPricesCurrentIdx, `computedGasPrice, blockPrices
      ensures Valid() && blocks == old(blocks) + [b]
    {
      ghost var before := Prices();
      TrackedAppend(blocks, b, fullBlockThreshold, computedPriceMargin);
      ghost var after := Tracked(blocks + [b], fullBlockThreshold, computedPriceMargin);
      blocks := blocks + [b];
      assert Prices() == after && RingHolds(before);
      if !IsFull(b, fullBlockThreshold) {
        assert after == before + [0];
        TrackPrice(0, before);
      } else if b.median.None? {
        assert after == before;
      } else {
        assert after == before + [b.median.value + computedPriceMargin];
        TrackPrice(b.median.value + computedPriceMargin, before);
      }
    }

    method TrackPrice(price: nat, ghost prices: seq<nat>)
      requires RingHolds(prices)
      modifies `blockPricesCurrentIdx, `computedGasPrice, blockPrices
      ensures RingHolds(prices + [price])
      ensures computedGasPrice == NoneIfZero(MaxOf(Latest(prices + [price], windowSize)))
    {
      assert (prices + [price])[..|prices|] == prices;
      blockPrices[blockPricesCurrentIdx] := price;
      NextSlot(|prices|, windowSize);
      blockPricesCurrentIdx := (blockPricesCurrentIdx + 1) % windowSize;
      assert RingHolds(prices + [price]);
      var maxPrice := HighestPrice();
      RingMax(prices + [price], windowSize, blockPrices[..]);
      computedGasPrice := if maxPrice == 0 then None else Some(maxPrice);
    }

    method HighestPrice() returns (maxPrice: nat)
      ensures maxPrice == MaxOf(blockPrices[..])
    {
      maxPrice := 0;
      for i := 0 to blockPrices.Length
        invariant maxPrice == MaxOf(blockPrices[..i])
      {
        assert blockPrices[..i + 1][..i] == blockPrices[..i];
        if blockPrices[i] > maxPrice {
          maxPrice := blockPrices[i];
        }
      }
      assert blockPrices[..blockPrices.Length] == blockPrices[..];
    }

    method FetchMinGasPrice(price: Option<nat>)
      requires Valid()
      modifies `nodeMinGasPrice
      ensures Valid() && blocks == old(blocks)
      ensures nodeMinGasPrice == if price.Some? then price else old(nodeMinGasPrice)
    {
      if price.Some? {
        nodeMinGasPrice := price;
      }
    }

    /** The recommended price covers the node's price and every full block with a median that is still
        in the window; it is one of these, and the default only if there is neither. */
    method GasPrice() returns (price: nat)
      requires Valid()
      ensures nodeMinGasPrice.Some? ==> price >= nodeMinGasPrice.value
      ensures forall i :: 0 <= i < |blocks| && Covers(i) ==> price >= blocks[i].median.value + computedPriceMargin
      ensures
        var computed := MaxOf(Latest(Prices(), windowSize));
        price == if nodeMinGasPrice.Some? then Max(nodeMinGasPrice.value, computed)
                 else if computed > 0 then computed
                 else defaultGasPrice
    {
      forall i | 0 <= i < |blocks| && Covers(i)
        ensures blocks[i].median.value + computedPriceMargin <= MaxOf(Latest(Prices(), windowSize))
      {
        WindowCovers(blocks, fullBlockThreshold, computedPriceMargin, windowSize, i);
      }
      if computedGasPrice.None? && nodeMinGasPrice.None? {
        return defaultGasPrice;
      }
      price := 0;
      if nodeMinGasPrice.Some? {
        price := nodeMinGasPrice.value;
      }
      if computedGasPrice.Some? && computedGasPrice.value > price {
        price := computedGasPrice.value;
      }
    }

    /** If the medians of the full blocks among the last windowSize ones are known, the computed price is the
        highest of these medians plus the margin, and there is none if none of the blocks is full. */
    lemma ComputedPriceMeans()
      requires Valid() && MediansKnown(blocks, fullBlockThreshold, windowSize)
      ensures (forall i :: !RecentFull(blocks, fullBlockThreshold, windowSize, i)) ==> computedGasPrice == None
      ensures computedGasPrice.Some? ==>
                && (exists i :: RecentFull(blocks, fullBlockThreshold, windowSize, i)
                                && computedGasPrice.value == blocks[i].median.value + computedPriceMargin)
                && (forall i :: RecentFull(blocks, fullBlockThreshold, windowSize, i) ==>
                                blocks[i].median.value + computedPriceMargin <= computedGasPrice.value)
      ensures computedGasPrice.None? ==>
                forall i :: RecentFull(blocks, fullBlockThreshold, windowSize, i) ==>
                            blocks[i].median.value + computedPriceMargin == 0
    {
      WindowMeans(blocks, fullBlockThreshold, computedPriceMargin, windowSize);
    }

    /** Block i is full, has a median, and fewer than windowSize prices have been tracked after it. */
    ghost predicate Covers(i: nat)
      requires i < |blocks|
      reads `blocks
    {
      InWindow(blocks, fullBlockThreshold, computedPriceMargin, windowSize, i)
    }
  }

  ghost predicate InWindow(blocks: seq<Seen>, threshold: real, margin: nat, w: nat, i: nat)
    requires i < |blocks|
  {
    && IsFull(blocks[i], threshold) && blocks[i].median.Some?
    && |Tracked(blocks, threshold, margin)| - |Tracked(blocks[..i], threshold, margin)| <= w
  }

  lemma NextSlot(n: nat, w: nat)
    requires w > 0
    ensures (n % w + 1) % w == (n + 1) % w
  {
    var a, r := n / w, n % w;
    var m := a * w;
    assert n == m + r;
    WrapStep(a, m, r, w);
  }

  lemma WrapStep(a: nat, m: nat, r: nat, w: nat)
    requires r < w && m == a * w
    ensures (r + 1) % w == (m + r + 1) % w
  {
    if r + 1 < w {
      SameRemainder(r + 1, 0, r + 1, w);
      SameRemainder(m + r + 1, a, r + 1, w);
    } else {
      SameRemainder(r + 1, 1, 0, w);
      SameRemainder(m + r + 1, a + 1, 0, w);
    }
  }

  lemma {:induction false} TrackedAt(blocks: seq<Seen>, threshold: real, margin: nat, i: nat)
    requires i < |blocks| && IsFull(blocks[i], threshold) && blocks[i].median.Some?
    ensures
      var t, p := Tracked(blocks, threshold, margin), |Tracked(blocks[..i], threshold, margin)|;
      p < |t| && t[p] == blocks[i].median.value + margin
  {
    var n := |blocks| - 1;
    if i < n {
      assert blocks[..n][..i] == blocks[..i];
      TrackedAt(blocks[..n], threshold, margin, i);
    }
  }

  lemma WindowCovers(blocks: seq<Seen>, threshold: real, margin: nat, w: nat, i: nat)
    requires i < |blocks| && InWindow(blocks, threshold, margin, w, i)
    ensures blocks[i].median.value + margin <= MaxOf(Latest(Tracked(blocks, threshold, margin), w))
  {
    TrackedAt(blocks, threshold, margin, i);
    var t, p := Tracked(blocks, threshold, margin), |Tracked(blocks[..i], threshold, margin)|;
    MaxOfMeans(Latest(t, w));
    assert Latest(t, w)[p - (|t| - |Latest(t, w)|)] == t[p];
  }

  // ---------------------------------------------------------------- the window in terms of blocks

  /** Block i is among the last w ones and is full. */
  ghost predicate RecentFull(blocks: seq<Seen>, threshold: real, w: nat, i: int) {
    0 <= i < |blocks| && |blocks| - w <= i && IsFull(blocks[i], threshold)
  }

  /** Full means that at least the threshold's share of the gas limit is used. */
  lemma FullMeans(b: Seen, threshold: real)
    ensures IsFull(b, threshold) <==> b.gasUsed as real >= threshold * b.gasLimit as real
  {
  }

  ghost predicate MediansKnown(blocks: seq<Seen>, threshold: real, w: nat) {
    forall i :: RecentFull(blocks, threshold, w, i) ==> blocks[i].median.Some?
  }

  function Concat(parts: seq<seq<nat>>): seq<nat> {
    if parts == [] then [] else Concat(parts[..|parts| - 1]) + parts[|parts| - 1]
  }

  function Heads(parts: seq<seq<nat>>): (r: seq<nat>)
    requires forall k :: 0 <= k < |parts| ==> |parts[k]| == 1
    ensures |r| == |parts|
  {
    seq(|parts|, k requires 0 <= k < |parts| => parts[k][0])
  }

  /** Where every part is a single price, the parts at the end are the prices at the end. */
  lemma {:induction false} ConcatTail(parts: seq<seq<nat>>, m: nat)
    requires m <= |parts| && forall k :: |parts| - m <= k < |parts| ==> |parts[k]| == 1
    ensures Concat(parts) == Concat(parts[..|parts| - m]) + Heads(parts[|parts| - m..])
    decreases m
  {
    var n := |parts| - m;
    if m == 0 {
      assert parts[..n] == parts && Heads(parts[n..]) == [];
    } else {
      var init, last := parts[..|parts| - 1], parts[|parts| - 1];
      ConcatTail(init, m - 1);
      assert init[..n] == parts[..n] && parts[n..] == init[n..] + [last];
      assert Heads(parts[n..]) == Heads(init[n..]) + last;
    }
  }

  function Parts(blocks: seq<Seen>, threshold: real, margin: nat): (r: seq<seq<nat>>)
    ensures |r| == |blocks|
  {
    seq(|blocks|, k requires 0 <= k < |blocks| => Tracks(blocks[k], threshold, margin))
  }

  lemma {:induction false} TrackedIsConcat(blocks: seq<Seen>, threshold: real, margin: nat)
    ensures Tracked(blocks, threshold, margin) == Concat(Parts(blocks, threshold, margin))
  {
    if blocks != [] {
      TrackedIsConcat(blocks[..|blocks| - 1], threshold, margin);
      assert Parts(blocks, threshold, margin)[..|blocks| - 1] == Parts(blocks[..|blocks| - 1], threshold, margin);
    }
  }

  /** What a block adds to the window if its median is known. */
  lemma TracksOne(b: Seen, threshold: real, margin: nat)
    ensures !IsFull(b, threshold) ==> Tracks(b, threshold, margin) == [0]
    ensures IsFull(b, threshold) && b.median.Some? ==> Tracks(b, threshold, margin) == [b.median.value + margin]
  {
  }

  ghost predicate Singles(parts: seq<seq<nat>>, w: nat) {
    forall k :: 0 <= k < |parts| && |parts| - w <= k ==> |parts[k]| == 1
  }

  lemma LatestOfConcat(parts: seq<seq<nat>>, w: nat)
    requires Singles(parts, w)
    ensures
      var n := |parts| - Min(w, |parts|);
      (forall k :: n <= k < |parts| ==> |parts[k]| == 1) && Latest(Concat(parts), w) == Heads(parts[n..])
  {
    ConcatTail(parts, Min(w, |parts|));
    if |parts| <= w {
      assert parts[..0] == [] && Concat(parts[..0]) == [];
    }
  }

  lemma HeadAt(parts: seq<seq<nat>>, n: nat, i: nat)
    requires n <= i < |parts| && forall k :: n <= k < |parts| ==> |parts[k]| == 1
    ensures [Heads(parts[n..])[i - n]] == parts[i]
  {
    assert parts[n..][i - n] == parts[i];
  }

  lemma SinglesKnown(blocks: seq<Seen>, threshold: real, margin: nat, w: nat)
    requires MediansKnown(blocks, threshold, w)
    ensures Singles(Parts(blocks, threshold, margin), w)
  {
    var parts := Parts(blocks, threshold, margin);
    forall k | 0 <= k < |parts| && |parts| - w <= k ensures |parts[k]| == 1 {
      assert RecentFull(blocks, threshold, w, k) <==> IsFull(blocks[k], threshold);
      TracksOne(blocks[k], threshold, margin);
    }
  }

  /** The price at a place of the window is what the block at that place adds. */
  lemma WindowAt(blocks: seq<Seen>, threshold: real, margin: nat, w: nat, i: nat)
    requires MediansKnown(blocks, threshold, w) && |blocks| - Min(w, |blocks|) <= i < |blocks|
    ensures
      var window, n := Latest(Tracked(blocks, threshold, margin), w), |blocks| - Min(w, |blocks|);
      && |window| == Min(w, |blocks|)
      && (IsFull(blocks[i], threshold) ==> blocks[i].median.Some? && window[i - n] == blocks[i].median.value + margin)
      && (!IsFull(blocks[i], threshold) ==> window[i - n] == 0)
  {
    var parts := Parts(blocks, threshold, margin);
    TrackedIsConcat(blocks, threshold, margin);
    SinglesKnown(blocks, threshold, margin, w);
    LatestOfConcat(parts, w);
    HeadAt(parts, |blocks| - Min(w, |blocks|), i);
    TracksOne(blocks[i], threshold, margin);
    assert RecentFull(blocks, threshold, w, i) <==> IsFull(blocks[i], threshold);
  }

  lemma WindowCoversRecent(blocks: seq<Seen>, threshold: real, margin: nat, w: nat, i: nat)
    requires MediansKnown(blocks, threshold, w) && RecentFull(blocks, threshold, w, i)
    ensures blocks[i].median.value + margin <= MaxOf(Latest(Tracked(blocks, threshold, margin), w))
  {
    MaxOfMeans(Latest(Tracked(blocks, threshold, margin), w));
    WindowAt(blocks, threshold, margin, w, i);
  }

  lemma MaxAttained(s: seq<nat>) returns (k: nat)
    requires MaxOf(s) > 0
    ensures k < |s| && s[k] == MaxOf(s)
  {
    MaxOfMeans(s);
    k :| 0 <= k < |s| && s[k] == MaxOf(s);
  }

  lemma WindowAttained(blocks: seq<Seen>, threshold: real, margin: nat, w: nat) returns (i: nat)
    requires MediansKnown(blocks, threshold, w) && MaxOf(Latest(Tracked(blocks, threshold, margin), w)) > 0
    ensures RecentFull(blocks, threshold, w, i)
    ensures MaxOf(Latest(Tracked(blocks, threshold, margin), w)) == blocks[i].median.value + margin
  {
    var k := MaxAttained(Latest(Tracked(blocks, threshold, margin), w));
    WindowLength(blocks, threshold, margin, w);
    i := |blocks| - Min(w, |blocks|) + k;
    WindowAt(blocks, threshold, margin, w, i);
  }

  /** The maximum of the window, in terms of the blocks: it covers every full block among the last w, and is
      what one of them asks for, or zero. */
  lemma WindowMeans(blocks: seq<Seen>, threshold: real, margin: nat, w: nat)
    requires MediansKnown(blocks, threshold, w)
    ensures
      var max := MaxOf(Latest(Tracked(blocks, threshold, margin), w));
      && (forall i :: RecentFull(blocks, threshold, w, i) ==> blocks[i].median.value + margin <= max)
      && (max > 0 ==> exists i :: RecentFull(blocks, threshold, w, i) && max == blocks[i].median.value + margin)
  {
    var max := MaxOf(Latest(Tracked(blocks, threshold, margin), w));
    forall i | RecentFull(blocks, threshold, w, i) ensures blocks[i].median.value + margin <= max {
      WindowCoversRecent(blocks, threshold, margin, w, i);
    }
    if max > 0 {
      var i := WindowAttained(blocks, threshold, margin, w);
    }
  }

  lemma WindowLength(blocks: seq<Seen>, threshold: real, margin: nat, w: nat)
    requires MediansKnown(blocks, threshold, w)
    ensures |Latest(Tracked(blocks, threshold, margin), w)| == Min(w, |blocks|)
  {
    TrackedIsConcat(blocks, threshold, margin);
    SinglesKnown(blocks, threshold, margin, w);
    LatestOfConcat(Parts(blocks, threshold, margin), w);
  }
}
