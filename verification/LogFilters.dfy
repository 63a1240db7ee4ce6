/**
 Log filtering, pulled and pushed: eth_getLogs (rpc/eth/api.go), its topic matcher
 (rpc/utils/utils.go) and the subscription filter (filters/event_system.go), against one reading of
 the filter object of EIP-1474.
 */
module LogFilters {
  import opened Model
  import opened IndexStore
  import opened Cache
  import opened LogCodec

  datatype Criteria = Criteria(addresses: seq<seq<Byte>>, topics: seq<seq<seq<Byte>>>)

  // ---------------------------------------------------------------- the specification

  /** A filter is a prefix pattern: every position is free or lists the alternatives. */
  ghost predicate TopicsMatch(topics: seq<seq<Byte>>, filter: seq<seq<seq<Byte>>>) {
    |filter| <= |topics| && forall i :: 0 <= i < |filter| ==> filter[i] == [] || topics[i] in filter[i]
  }

  ghost predicate Matches(l: EthLog, c: Criteria) {
    (c.addresses == [] || l.address in c.addresses) && TopicsMatch(l.topics, c.topics)
  }

  /** A bound applies only if it is given and not negative (negative numbers are tags). */
  predicate WithinBounds(l: EthLog, from: Option<int>, to: Option<int>) {
    && (from.Some? && from.value >= 0 ==> from.value <= l.blockNumber)
    && (to.Some? && to.value >= 0 ==> l.blockNumber <= to.value)
  }

  /** What a position of a topic filter asks for: nothing if it is empty, else one of its alternatives at the
      same position of the log; a filter longer than the log's topics asks for too much. */
  lemma TopicsMatchMeans(topics: seq<seq<Byte>>, filter: seq<seq<seq<Byte>>>, position: seq<seq<Byte>>)
    ensures TopicsMatch(topics, [])
    ensures TopicsMatch(topics, filter + [position]) <==>
            && TopicsMatch(topics, filter) && |filter| < |topics|
            && (position == [] || exists a :: 0 <= a < |position| && position[a] == topics[|filter|])
  {
    var longer := filter + [position];
    if TopicsMatch(topics, longer) {
      assert longer[|filter|] == position;
      forall i | 0 <= i < |filter| ensures filter[i] == [] || topics[i] in filter[i] {
        assert longer[i] == filter[i];
      }
    }
  }

  /** A log is asked for by its address, by no address at all, and by its topics. */
  lemma MatchesMeans(l: EthLog, c: Criteria)
    ensures Matches(l, c) <==>
            && TopicsMatch(l.topics, c.topics)
            && (|c.addresses| > 0 ==> exists a :: 0 <= a < |c.addresses| && c.addresses[a] == l.address)
  {
  }

  /** Bounds are inclusive, and a missing or negative one does not bound. */
  lemma BoundsMean(l: EthLog, from: int, to: int)
    ensures from >= 0 ==> (WithinBounds(l, Some(from), None) <==> l.blockNumber >= from)
    ensures to >= 0 ==> (WithinBounds(l, None, Some(to)) <==> l.blockNumber <= to)
    ensures from < 0 ==> WithinBounds(l, Some(from), None)
    ensures to < 0 ==> WithinBounds(l, None, Some(to))
    ensures WithinBounds(l, None, None)
    ensures WithinBounds(l, Some(from), Some(to)) <==>
            WithinBounds(l, Some(from), None) && WithinBounds(l, None, Some(to))
  {
  }

  /** The logs within the bounds that match, in order. */
  ghost function Selected(logs: seq<EthLog>, from: Option<int>, to: Option<int>, c: Criteria): seq<EthLog> {
    if logs == [] then [] else
    var last := logs[|logs| - 1];
    Selected(logs[..|logs| - 1], from, to, c) +
    (if WithinBounds(last, from, to) && Matches(last, c) then [last] else [])
  }

  // ---------------------------------------------------------------- the three implementations

  /** rpc/utils.TopicsMatch. */
  method UtilsTopicsMatch(l: EthLog, filter: seq<seq<seq<Byte>>>) returns (ok: bool)
    ensures ok <==> TopicsMatch(l.topics, filter)
  {
    if |filter| > |l.topics| {
      return false;
    }
    for i := 0 to |filter|
      invariant forall k :: 0 <= k < i ==> filter[k] == [] || l.topics[k] in filter[k]
    {
      if |filter[i]| > 0 {
        var positionMatch := false;
        for j := 0 to |filter[i]|
          invariant positionMatch <==> l.topics[i] in filter[i][..j]
        {
          assert filter[i][..j + 1] == filter[i][..j] + [filter[i][j]];
          if filter[i][j] == l.topics[i] {
            positionMatch := true;
          }
        }
        assert filter[i][..|filter[i]|] == filter[i];
        if !positionMatch {
          return false;
        }
      }
    }
    return true;
  }

  /** filters.filterLogs. */
  method FilterLogs(logs: seq<EthLog>, from: Option<int>, to: Option<int>, c: Criteria) returns (r: seq<EthLog>)
    ensures r == Selected(logs, from, to, c)
  {
    r := [];
    for n := 0 to |logs|
      invariant r == Selected(logs[..n], from, to, c)
    {
      assert logs[..n + 1][..n] == logs[..n];
      var l := logs[n];
      if from.Some? && from.value >= 0 && from.value > l.blockNumber {
        continue;
      }
      if to.Some? && to.value >= 0 && to.value < l.blockNumber {
        continue;
      }
      if |c.addresses| > 0 && l.address !in c.addresses {
        continue;
      }
      if |c.topics| > |l.topics| {
        continue;
      }
      var ok := true;
      var i := 0;
      while i < |c.topics| && ok
        invariant 0 <= i <= |c.topics|
        invariant ok <==> forall k :: 0 <= k < i ==> c.topics[k] == [] || l.topics[k] in c.topics[k]
      {
        if |c.topics[i]| > 0 && l.topics[i] !in c.topics[i] {
          ok := false;
        }
        i := i + 1;
      }
      if ok {
        r := r + [l];
      }
    }
    assert logs[..|logs|] == logs;
  }

  datatype Reply = Logs(logs: seq<EthLog>) | InvalidRequest

  /**
   eth_getLogs for resolved rounds: a reversed or too long range is refused, otherwise the caching
   backend's answer is decoded and filtered, or returned as it is if nothing is asked for.  `limit` 0
   means no limit.
   */
  method GetLogs(backend: CachingBackend, first: nat, last: nat, limit: nat, c: Criteria)
    returns (r: Reply, ghost rows: seq<Log>)
    requires backend.Valid() && first < UINT64_MODULUS && last < UINT64_MODULUS
    ensures r.InvalidRequest? <==> last < first || (limit != 0 && last - first > limit)
    ensures r.Logs? ==>
              IsAnswer(backend.inner.store.logs, Latest(backend.history, backend.maxCacheSize), backend.maxCacheSize,
                       first, last, rows)
    ensures r.Logs? ==> r.logs == Selected(FromModels(rows), None, None, c)
  {
    rows := [];
    if last < first {
      return InvalidRequest, rows;
    }
    if limit != 0 && last - first > limit {
      return InvalidRequest, rows;
    }
    var dbLogs, _ := backend.GetLogs(first, last);
    rows := dbLogs;
    var ethLogs := DB2EthLogs(dbLogs);
    if |c.addresses| == 0 && |c.topics| == 0 {
      NothingAsked(ethLogs, c);
      return Logs(ethLogs), rows;
    }
    var filtered := MatchingLogs(ethLogs, c);
    r := Logs(filtered);
  }

  /** The filter loop of eth_getLogs. */
  method MatchingLogs(logs: seq<EthLog>, c: Criteria) returns (filtered: seq<EthLog>)
    ensures filtered == Selected(logs, None, None, c)
  {
    filtered := [];
    for n := 0 to |logs|
      invariant filtered == Selected(logs[..n], None, None, c)
    {
      assert logs[..n + 1][..n] == logs[..n];
      var l := logs[n];
      var addressMatch := AddressMatch(l, c.addresses);
      if !addressMatch {
        continue;
      }
      var topicsMatch := UtilsTopicsMatch(l, c.topics);
      if !topicsMatch {
        continue;
      }
      filtered := filtered + [l];
    }
    assert logs[..|logs|] == logs;
  }

  method AddressMatch(l: EthLog, addresses: seq<seq<Byte>>) returns (ok: bool)
    ensures ok <==> addresses == [] || l.address in addresses
  {
    ok := |addresses| == 0;
    for i := 0 to |addresses|
      invariant ok <==> addresses == [] || l.address in addresses[..i]
    {
      assert addresses[..i + 1] == addresses[..i] + [addresses[i]];
      if addresses[i] == l.address {
        ok := true;
      }
    }
    assert addresses[..|addresses|] == addresses;
  }

  /** The early return is no shortcut in meaning. */
  lemma {:induction false} NothingAsked(logs: seq<EthLog>, c: Criteria)
    requires c.addresses == [] && c.topics == []
    ensures Selected(logs, None, None, c) == logs
  {
    if logs != [] {
      NothingAsked(logs[..|logs| - 1], c);
    }
  }

  // ---------------------------------------------------------------- pull and push agree

  lemma {:induction false} SelectedConcat(a: seq<EthLog>, b: seq<EthLog>, from: Option<int>, to: Option<int>,
                                          c: Criteria)
    ensures Selected(a + b, from, to, c) == Selected(a, from, to, c) + Selected(b, from, to, c)
  {
    if b == [] {
      assert a + b == a;
    } else {
      assert (a + b)[..|a + b| - 1] == a + b[..|b| - 1];
      SelectedConcat(a, b[..|b| - 1], from, to, c);
    }
  }

  /** Selecting keeps what is within the bounds and asked for, and nothing else. */
  lemma {:induction false} SelectedMember(logs: seq<EthLog>, from: Option<int>, to: Option<int>, c: Criteria, l: EthLog)
    ensures l in Selected(logs, from, to, c) <==> l in logs && WithinBounds(l, from, to) && Matches(l, c)
  {
    if logs != [] {
      SelectedMember(logs[..|logs| - 1], from, to, c, l);
      assert logs == logs[..|logs| - 1] + [logs[|logs| - 1]];
    }
  }

  /** The stored rows of a range, cut out of a longer listing. */
  function Between(rows: seq<Log>, first: nat, last: nat): seq<Log> {
    if rows == [] then [] else
    var l := rows[|rows| - 1];
    Between(rows[..|rows| - 1], first, last) + (if InRange(l, first, last) then [l] else [])
  }

  lemma {:induction false} BetweenMember(rows: seq<Log>, first: nat, last: nat, l: Log)
    ensures l in Between(rows, first, last) <==> l in rows && InRange(l, first, last)
  {
    if rows != [] {
      BetweenMember(rows[..|rows| - 1], first, last, l);
      assert rows == rows[..|rows| - 1] + [rows[|rows| - 1]];
    }
  }

  lemma {:induction false} BetweenOrdered(rows: seq<Log>, first: nat, last: nat)
    requires forall i, j :: 0 <= i < j < |rows| ==> rows[i] != rows[j] && LogOrder(rows[i], rows[j])
    ensures
      var r := Between(rows, first, last);
      forall i, j :: 0 <= i < j < |r| ==> r[i] != r[j] && LogOrder(r[i], r[j])
  {
    if rows != [] {
      var init, l := rows[..|rows| - 1], rows[|rows| - 1];
      BetweenOrdered(init, first, last);
      var r := Between(init, first, last);
      forall i | 0 <= i < |r| ensures r[i] != l && LogOrder(r[i], l) {
        BetweenMember(init, first, last, r[i]);
        assert r[i] in r;
        var k :| 0 <= k < |init| && init[k] == r[i];
        assert rows[k] == r[i];
      }
    }
  }

  /** Cutting a range out of the listing of everything gives the listing of the range. */
  lemma BetweenIsListing(table: map<(Hash, nat), Log>, top: nat, all: seq<Log>, first: nat, last: nat)
    requires IsListing(table, 0, top, all) && last <= top
    ensures IsListing(table, first, last, Between(all, first, last))
  {
    BetweenOrdered(all, first, last);
    forall l ensures l in Between(all, first, last) <==> l in table.Values && InRange(l, first, last) {
      BetweenMember(all, first, last, l);
    }
  }

  function BetweenBlocks(logs: seq<EthLog>, first: nat, last: nat): seq<EthLog> {
    if logs == [] then [] else
    var l := logs[|logs| - 1];
    BetweenBlocks(logs[..|logs| - 1], first, last) + (if first <= l.blockNumber <= last then [l] else [])
  }

  lemma {:induction false} DecodeBetween(all: seq<Log>, first: nat, last: nat)
    ensures FromModels(Between(all, first, last)) == BetweenBlocks(FromModels(all), first, last)
  {
    if all != [] {
      var init, l := all[..|all| - 1], all[|all| - 1];
      DecodeBetween(init, first, last);
      assert FromModels(all)[..|all| - 1] == FromModels(init);
      FromModelsAppend(Between(init, first, last), l);
    }
  }

  lemma FromModelsAppend(logs: seq<Log>, l: Log)
    ensures FromModels(logs + [l]) == FromModels(logs) + [FromModel(l)]
  {
  }

  lemma SelectedAppend(logs: seq<EthLog>, l: EthLog, from: Option<int>, to: Option<int>, c: Criteria)
    ensures Selected(logs + [l], from, to, c) ==
            Selected(logs, from, to, c) + (if WithinBounds(l, from, to) && Matches(l, c) then [l] else [])
  {
    assert (logs + [l])[..|logs|] == logs;
  }

  lemma {:induction false} SelectedWithin(logs: seq<EthLog>, first: nat, last: nat, c: Criteria)
    ensures Selected(BetweenBlocks(logs, first, last), None, None, c) == Selected(logs, Some(first), Some(last), c)
  {
    if logs != [] {
      var init, l := logs[..|logs| - 1], logs[|logs| - 1];
      SelectedWithin(init, first, last, c);
      SelectedAppend(init, l, Some(first), Some(last), c);
      var cut := BetweenBlocks(init, first, last);
      SelectedAppend(cut, l, None, None, c);
      assert logs == init + [l];
      assert BetweenBlocks(logs, first, last) == if first <= l.blockNumber <= last then cut + [l] else cut;
    }
  }

  /** Filtering the cut-out range is filtering everything with the range as bounds. */
  lemma SelectedBetween(all: seq<Log>, first: nat, last: nat, c: Criteria)
    ensures Selected(FromModels(Between(all, first, last)), None, None, c) ==
            Selected(FromModels(all), Some(first), Some(last), c)
  {
    DecodeBetween(all, first, last);
    SelectedWithin(FromModels(all), first, last, c);
  }
}
