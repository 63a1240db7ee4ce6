/**
 The log renumbering migration (db/migrations/20220109122505_logs.up.go).

 The log table is a list of rows.  ORDER BY round leaves the order within a round open, so nothing
 here depends on it.
 */
module LogsMigration {
  import opened Model

  const BATCH_SIZE: nat := 100

  predicate SameKey(a: Log, b: Log) { a.txHash == b.txHash && a.index == b.index }

  /** A row without the column that the migration rewrites. */
  function Strip(l: Log): Log { l.(index := 0) }

  function StripAll(logs: seq<Log>): (r: seq<Log>)
    ensures |r| == |logs|
  {
    seq(|logs|, i requires 0 <= i < |logs| => Strip(logs[i]))
  }

  function OfRound(logs: seq<Log>, round: nat): seq<Log> {
    if logs == [] then [] else
    var last := logs[|logs| - 1];
    OfRound(logs[..|logs| - 1], round) + (if last.round == round then [last] else [])
  }

  /** The rows of rounds first..last, or the others. */
  function Select(logs: seq<Log>, first: nat, last: nat, inside: bool): seq<Log> {
    if logs == [] then [] else
    var l := logs[|logs| - 1];
    Select(logs[..|logs| - 1], first, last, inside) + (if (first <= l.round <= last) == inside then [l] else [])
  }

  ghost predicate ByRound(logs: seq<Log>) {
    forall i, j :: 0 <= i < j < |logs| ==> logs[i].round <= logs[j].round
  }

  ghost predicate DistinctKeys(logs: seq<Log>) {
    forall i, j :: 0 <= i < j < |logs| ==> !SameKey(logs[i], logs[j])
  }

  /** Every transaction hash occurs in one round only. */
  ghost predicate OneRoundPerHash(logs: seq<Log>) {
    forall a, b :: a in logs && b in logs && a.txHash == b.txHash ==> a.round == b.round
  }

  /** The rows of a round are numbered 0, 1, 2, ... */
  ghost predicate NumberedFromZero(logs: seq<Log>) {
    forall k :: 0 <= k < |logs| ==> logs[k].index == k
  }

  /** The primary keys that occur. */
  function Keys(logs: seq<Log>): set<(Hash, nat)> {
    set i | 0 <= i < |logs| :: (logs[i].txHash, logs[i].index)
  }

  lemma KeysStep(logs: seq<Log>, l: Log)
    ensures Keys(logs + [l]) == Keys(logs) + {(l.txHash, l.index)}
  {
    forall k | k in Keys(logs) + {(l.txHash, l.index)} ensures k in Keys(logs + [l]) {
      if k == (l.txHash, l.index) {
        assert (logs + [l])[|logs|] == l;
      } else {
        var i :| 0 <= i < |logs| && (logs[i].txHash, logs[i].index) == k;
        assert (logs + [l])[i] == logs[i];
      }
    }
  }

  /** There are at most as many keys as rows, and as many exactly if no two rows share one. */
  lemma {:induction false} DistinctKeysMean(logs: seq<Log>)
    ensures |Keys(logs)| <= |logs|
    ensures DistinctKeys(logs) <==> |Keys(logs)| == |logs|
  {
    if logs != [] {
      var init, l := logs[..|logs| - 1], logs[|logs| - 1];
      assert logs == init + [l];
      DistinctKeysMean(init);
      KeysStep(init, l);
      if (l.txHash, l.index) in Keys(init) {
        var i :| 0 <= i < |init| && (init[i].txHash, init[i].index) == (l.txHash, l.index);
        assert SameKey(logs[i], logs[|logs| - 1]);
      } else {
        assert forall i :: 0 <= i < |init| ==> (init[i].txHash, init[i].index) in Keys(init);
      }
    }
  }

  /** Two rows are the same but for the rewritten column exactly if all other columns agree. */
  lemma StripMeans(a: Log, b: Log)
    ensures Strip(a) == Strip(b) <==>
            && a.content == b.content && a.round == b.round && a.blockHash == b.blockHash && a.txHash == b.txHash
            && a.txIndex == b.txIndex && a.removed == b.removed
  {
  }

  lemma {:induction false} OfRoundMember(logs: seq<Log>, round: nat, l: Log)
    ensures l in OfRound(logs, round) <==> l in logs && l.round == round
  {
    if logs != [] {
      OfRoundMember(logs[..|logs| - 1], round, l);
      assert logs == logs[..|logs| - 1] + [logs[|logs| - 1]];
    }
  }

  // ---------------------------------------------------------------- list facts

  lemma {:induction false} OfRoundConcat(a: seq<Log>, b: seq<Log>, round: nat)
    ensures OfRound(a + b, round) == OfRound(a, round) + OfRound(b, round)
  {
    if b == [] {
      assert a + b == a;
    } else {
      assert (a + b)[..|a + b| - 1] == a + b[..|b| - 1];
      OfRoundConcat(a, b[..|b| - 1], round);
    }
  }

  lemma {:induction false} OfRoundSelect(logs: seq<Log>, first: nat, last: nat, inside: bool, round: nat)
    ensures OfRound(Select(logs, first, last, inside), round) ==
            if (first <= round <= last) == inside then OfRound(logs, round) else []
  {
    if logs != [] {
      var init, l := logs[..|logs| - 1], logs[|logs| - 1];
      OfRoundSelect(init, first, last, inside, round);
      OfRoundConcat(Select(init, first, last, inside), if (first <= l.round <= last) == inside then [l] else [], round);
    }
  }

  lemma {:induction false} OfRoundEmpty(logs: seq<Log>, round: nat)
    requires forall i :: 0 <= i < |logs| ==> logs[i].round != round
    ensures OfRound(logs, round) == []
  {
    if logs != [] {
      OfRoundEmpty(logs[..|logs| - 1], round);
    }
  }

  lemma {:induction false} SelectMember(logs: seq<Log>, first: nat, last: nat, inside: bool, l: Log)
    ensures l in Select(logs, first, last, inside) <==> l in logs && (first <= l.round <= last) == inside
  {
    if logs != [] {
      SelectMember(logs[..|logs| - 1], first, last, inside, l);
      assert logs == logs[..|logs| - 1] + [logs[|logs| - 1]];
    }
  }

  lemma StripConcat(a: seq<Log>, b: seq<Log>)
    ensures StripAll(a + b) == StripAll(a) + StripAll(b)
  {
  }

  /** Selecting and complementing lose nothing. */
  lemma {:induction false} SelectSplits(logs: seq<Log>, first: nat, last: nat)
    ensures multiset(StripAll(Select(logs, first, last, true))) + multiset(StripAll(Select(logs, first, last, false)))
            == multiset(StripAll(logs))
  {
    if logs != [] {
      var init, l := logs[..|logs| - 1], logs[|logs| - 1];
      SelectSplits(init, first, last);
      var inside := first <= l.round <= last;
      StripConcat(Select(init, first, last, inside), [l]);
      assert StripAll(logs) == StripAll(init) + [Strip(l)];
      assert StripAll([l]) == [Strip(l)];
      assert Select(logs, first, last, !inside) == Select(init, first, last, !inside);
    }
  }

  lemma InsertMultiset<T>(p: seq<T>, x: T, q: seq<T>)
    ensures multiset(p + [x] + q) == multiset(p + q) + multiset{x}
  {
    assert multiset(p + [x] + q) == multiset(p) + multiset{x} + multiset(q);
    assert multiset(p + q) == multiset(p) + multiset(q);
  }

  lemma InsertStrip(p: seq<Log>, x: Log, q: seq<Log>)
    ensures multiset(StripAll(p + [x] + q)) == multiset(StripAll(p + q)) + multiset{Strip(x)}
  {
    assert StripAll(p + [x] + q) == StripAll(p) + [Strip(x)] + StripAll(q);
    StripConcat(p, q);
    InsertMultiset(StripAll(p), Strip(x), StripAll(q));
  }

  lemma Cancel<T>(a: multiset<T>, b: multiset<T>, x: T)
    requires a + multiset{x} == b + multiset{x}
    ensures a == b
  {
    assert a == (a + multiset{x}) - multiset{x};
    assert b == (b + multiset{x}) - multiset{x};
  }

  lemma TakeOut<T>(b: seq<T>, x: T) returns (p: seq<T>, q: seq<T>)
    requires x in multiset(b)
    ensures b == p + [x] + q
  {
    var j :| 0 <= j < |b| && b[j] == x;
    p, q := b[..j], b[j + 1..];
  }

  /** Stripping respects rearrangement. */
  lemma {:induction false} StripRearranged(a: seq<Log>, b: seq<Log>)
    requires multiset(a) == multiset(b)
    ensures multiset(StripAll(a)) == multiset(StripAll(b))
    decreases |a|
  {
    if a == [] {
      assert |multiset(b)| == 0;
    } else {
      var x := a[0];
      assert x in multiset(a);
      var c, d := TakeOut(a, x);
      var p, q := TakeOut(b, x);
      InsertMultiset(c, x, d);
      InsertMultiset(p, x, q);
      Cancel(multiset(c + d), multiset(p + q), x);
      StripRearranged(c + d, p + q);
      InsertStrip(c, x, d);
      InsertStrip(p, x, q);
    }
  }

  // ---------------------------------------------------------------- one batch

  /** SELECT ... ORDER BY round: some arrangement of the batch's rows that is ordered by round. */
  method FetchLogs(table: seq<Log>, first: nat, last: nat) returns (logs: seq<Log>)
    ensures ByRound(logs) && multiset(logs) == multiset(Select(table, first, last, true))
  {
    var rows := Select(table, first, last, true);
    logs := [];
    for i := 0 to |rows|
      invariant ByRound(logs) && multiset(logs) == multiset(rows[..i])
    {
      assert rows[..i + 1] == rows[..i] + [rows[i]];
      logs := InsertByRound(logs, rows[i]);
    }
    assert rows[..|rows|] == rows;
  }

  method InsertByRound(logs: seq<Log>, l: Log) returns (r: seq<Log>)
    requires ByRound(logs)
    ensures ByRound(r) && multiset(r) == multiset(logs) + multiset{l}
  {
    var i := |logs|;
    while i > 0 && logs[i - 1].round > l.round
      invariant 0 <= i <= |logs|
      invariant forall j :: i <= j < |logs| ==> logs[j].round > l.round
    {
      i := i - 1;
    }
    var a, b := logs[..i], logs[i..];
    assert forall j :: 0 <= j < |b| ==> l.round < b[j].round;
    LowerPart(logs, i, l);
    ByRoundConcat(a, b, l);
    r := a + [l] + b;
    InsertMultiset(a, l, b);
    assert logs == a + b;
  }

  lemma LowerPart(logs: seq<Log>, i: nat, l: Log)
    requires i <= |logs| && ByRound(logs) && (i > 0 ==> logs[i - 1].round <= l.round)
    ensures ByRound(logs[..i]) && ByRound(logs[i..])
    ensures forall j :: 0 <= j < i ==> logs[..i][j].round <= l.round
  {
  }

  lemma ByRoundConcat(a: seq<Log>, b: seq<Log>, l: Log)
    requires ByRound(a) && ByRound(b)
    requires forall j :: 0 <= j < |a| ==> a[j].round <= l.round
    requires forall j :: 0 <= j < |b| ==> l.round < b[j].round
    ensures ByRound(a + [l] + b)
  {
    var r := a + [l] + b;
    forall i, j | 0 <= i < j < |r| ensures r[i].round <= r[j].round {
      assert i < |a| ==> r[i] == a[i];
      assert j < |a| ==> r[j] == a[j];
      assert i > |a| ==> r[i] == b[i - |a| - 1];
      assert j > |a| ==> r[j] == b[j - |a| - 1];
    }
  }

  /** Row k gets the number of earlier fetched rows of its round. */
  ghost predicate Ranked(logs: seq<Log>, fetched: seq<Log>) {
    && |logs| == |fetched|
    && forall k :: 0 <= k < |logs| ==> logs[k] == fetched[k].(index := |OfRound(fetched[..k], fetched[k].round)|)
  }

  lemma RankedStep(logs: seq<Log>, fetched: seq<Log>, k: nat, x: Log)
    requires k < |fetched| && Ranked(logs, fetched[..k])
    requires x == fetched[k].(index := |OfRound(fetched[..k], fetched[k].round)|)
    ensures Ranked(logs + [x], fetched[..k + 1])
  {
    var f := fetched[..k + 1];
    forall j | 0 <= j < k + 1 ensures (logs + [x])[j] == f[j].(index := |OfRound(f[..j], f[j].round)|) {
      assert f[..j] == fetched[..j];
      if j < k {
        assert fetched[..k][..j] == fetched[..j];
        assert logs[j] == fetched[..k][j].(index := |OfRound(fetched[..k][..j], fetched[..k][j].round)|);
      }
    }
  }

  /** The renumbering loop with its running index and round. */
  method Renumber(fetched: seq<Log>, first: nat) returns (logs: seq<Log>)
    requires ByRound(fetched)
    ensures Ranked(logs, fetched)
  {
    logs := [];
    var currentIdx, currentRound := 0, first;
    for k := 0 to |fetched|
      invariant Ranked(logs, fetched[..k])
      invariant k > 0 ==> currentRound == fetched[k - 1].round
      invariant currentIdx == |OfRound(fetched[..k], currentRound)|
    {
      var l := fetched[k];
      assert fetched[..k + 1][..k] == fetched[..k];
      if l.round != currentRound {
        OfRoundEmpty(fetched[..k], l.round);
        currentIdx, currentRound := 0, l.round;
      }
      RankedStep(logs, fetched, k, l.(index := currentIdx));
      logs := logs + [l.(index := currentIdx)];
      currentIdx := currentIdx + 1;
    }
    assert fetched[..|fetched|] == fetched;
  }

  lemma RankedPrefix(logs: seq<Log>, fetched: seq<Log>, n: nat)
    requires Ranked(logs, fetched) && n <= |logs|
    ensures Ranked(logs[..n], fetched[..n])
  {
    forall k | 0 <= k < n
      ensures logs[..n][k] == fetched[..n][k].(index := |OfRound(fetched[..n][..k], fetched[..n][k].round)|)
    {
      assert fetched[..n][..k] == fetched[..k];
    }
  }

  lemma {:induction false} RankedRounds(logs: seq<Log>, fetched: seq<Log>, round: nat)
    requires Ranked(logs, fetched)
    ensures |OfRound(logs, round)| == |OfRound(fetched, round)|
    ensures NumberedFromZero(OfRound(logs, round))
  {
    if logs != [] {
      var n := |logs| - 1;
      RankedPrefix(logs, fetched, n);
      RankedRounds(logs[..n], fetched[..n], round);
      assert logs[n] == fetched[n].(index := |OfRound(fetched[..n], fetched[n].round)|);
    }
  }

  lemma {:induction false} RanksGrow(fetched: seq<Log>, i: nat, j: nat)
    requires i < j < |fetched|
    ensures |OfRound(fetched[..i], fetched[i].round)| < |OfRound(fetched[..j], fetched[i].round)|
  {
    assert fetched[..j][..j - 1] == fetched[..j - 1];
    if i < j - 1 {
      RanksGrow(fetched, i, j - 1);
    }
  }

  /** INSERT of a batch: fails if a primary key occurs twice. */
  method InsertRows(table: seq<Log>, logs: seq<Log>) returns (ok: bool, r: seq<Log>)
    requires DistinctKeys(table)
    ensures ok <==> DistinctKeys(table + logs)
    ensures ok ==> r == table + logs
  {
    r := table;
    var i := 0;
    assert table + logs[..0] == table;
    while i < |logs|
      invariant 0 <= i <= |logs| && r == table + logs[..i] && DistinctKeys(r)
    {
      assert table + logs[..i + 1] == r + [logs[i]];
      if exists k :: 0 <= k < |r| && SameKey(r[k], logs[i]) {
        ghost var k :| 0 <= k < |r| && SameKey(r[k], logs[i]);
        assert (table + logs)[k] == r[k] && (table + logs)[|table| + i] == logs[i];
        ok := false;
        return;
      }
      r := r + [logs[i]];
      i := i + 1;
    }
    assert logs[..i] == logs;
    ok := true;
  }

  lemma FetchedMember(table: seq<Log>, first: nat, last: nat, fetched: seq<Log>, k: nat)
    requires multiset(fetched) == multiset(Select(table, first, last, true)) && k < |fetched|
    ensures fetched[k] in table && first <= fetched[k].round <= last
  {
    assert fetched[k] in multiset(fetched);
    SelectMember(table, first, last, true, fetched[k]);
  }

  lemma {:induction false} SelectDistinct(logs: seq<Log>, first: nat, last: nat, inside: bool)
    requires DistinctKeys(logs)
    ensures DistinctKeys(Select(logs, first, last, inside))
  {
    if logs != [] {
      var init, l := logs[..|logs| - 1], logs[|logs| - 1];
      SelectDistinct(init, first, last, inside);
      var s := Select(init, first, last, inside);
      forall i | 0 <= i < |s| ensures !SameKey(s[i], l) {
        SelectMember(init, first, last, inside, s[i]);
        assert s[i] in init;
        var k :| 0 <= k < |init| && init[k] == s[i];
        assert logs[k] == s[i];
      }
    }
  }

  /** If every hash keeps to one round, the reinserted rows clash with nothing. */
  lemma NoClash(table: seq<Log>, first: nat, last: nat, fetched: seq<Log>, logs: seq<Log>)
    requires DistinctKeys(table) && OneRoundPerHash(table)
    requires multiset(fetched) == multiset(Select(table, first, last, true)) && Ranked(logs, fetched)
    ensures DistinctKeys(Select(table, first, last, false) + logs)
  {
    var rest := Select(table, first, last, false);
    SelectDistinct(table, first, last, false);
    forall i, j | 0 <= i < |rest| && 0 <= j < |logs| ensures !SameKey(rest[i], logs[j]) {
      FetchedMember(table, first, last, fetched, j);
      SelectMember(table, first, last, false, rest[i]);
      assert rest[i] in rest;
    }
    forall i, j | 0 <= i < j < |logs| ensures !SameKey(logs[i], logs[j]) {
      FetchedMember(table, first, last, fetched, i);
      FetchedMember(table, first, last, fetched, j);
      if fetched[i].round == fetched[j].round {
        RanksGrow(fetched, i, j);
      }
    }
  }

  /** What a batch over rounds first..last does to the table. */
  ghost predicate BatchDone(before: seq<Log>, after: seq<Log>, first: nat, last: nat) {
    && multiset(StripAll(after)) == multiset(StripAll(before))
    && (forall r: nat :: first <= r <= last ==> NumberedFromZero(OfRound(after, r)))
    && (forall r: nat :: !(first <= r <= last) ==> OfRound(after, r) == OfRound(before, r))
  }

  lemma BatchRound(table: seq<Log>, first: nat, last: nat, fetched: seq<Log>, logs: seq<Log>, r: nat)
    requires multiset(fetched) == multiset(Select(table, first, last, true)) && Ranked(logs, fetched)
    ensures
      var after := OfRound(Select(table, first, last, false) + logs, r);
      if first <= r <= last then NumberedFromZero(after) else after == OfRound(table, r)
  {
    OfRoundConcat(Select(table, first, last, false), logs, r);
    OfRoundSelect(table, first, last, false, r);
    if first <= r <= last {
      RankedRounds(logs, fetched, r);
    } else {
      forall k | 0 <= k < |logs| ensures logs[k].round != r {
        FetchedMember(table, first, last, fetched, k);
      }
      OfRoundEmpty(logs, r);
    }
  }

  lemma BatchResult(table: seq<Log>, first: nat, last: nat, fetched: seq<Log>, logs: seq<Log>)
    requires multiset(fetched) == multiset(Select(table, first, last, true)) && Ranked(logs, fetched)
    ensures BatchDone(table, Select(table, first, last, false) + logs, first, last)
  {
    SelectSplits(table, first, last);
    StripRearranged(fetched, Select(table, first, last, true));
    assert StripAll(logs) == StripAll(fetched);
    StripConcat(Select(table, first, last, false), logs);
    forall r: nat
      ensures
        var after := OfRound(Select(table, first, last, false) + logs, r);
        if first <= r <= last then NumberedFromZero(after) else after == OfRound(table, r)
    {
      BatchRound(table, first, last, fetched, logs, r);
    }
  }

  method MigrateBatch(table: seq<Log>, first: nat, last: nat) returns (ok: bool, after: seq<Log>)
    requires DistinctKeys(table)
    ensures ok ==> BatchDone(table, after, first, last) && DistinctKeys(after)
    ensures OneRoundPerHash(table) ==> ok
  {
    var fetched := FetchLogs(table, first, last);
    var rest := Select(table, first, last, false);
    var logs := Renumber(fetched, first);
    SelectDistinct(table, first, last, false);
    ok, after := InsertRows(rest, logs);
    if OneRoundPerHash(table) {
      NoClash(table, first, last, fetched, logs);
    }
    BatchResult(table, first, last, fetched, logs);
  }

  // ---------------------------------------------------------------- the whole migration

  lemma {:induction false} StripMember(logs: seq<Log>, l: Log)
    requires l in logs
    ensures Strip(l) in multiset(StripAll(logs))
  {
    var i :| 0 <= i < |logs| && logs[i] == l;
    assert StripAll(logs)[i] == Strip(l);
  }

  lemma OneRoundKept(before: seq<Log>, after: seq<Log>)
    requires OneRoundPerHash(before) && multiset(StripAll(after)) == multiset(StripAll(before))
    ensures OneRoundPerHash(after)
  {
    forall a, b | a in after && b in after && a.txHash == b.txHash ensures a.round == b.round {
      var c := Original(before, after, a);
      var d := Original(before, after, b);
    }
  }

  lemma Original(before: seq<Log>, after: seq<Log>, a: Log) returns (c: Log)
    requires multiset(StripAll(after)) == multiset(StripAll(before)) && a in after
    ensures c in before && Strip(c) == Strip(a)
  {
    StripMember(after, a);
    assert Strip(a) in StripAll(before);
    var i :| 0 <= i < |before| && StripAll(before)[i] == Strip(a);
    c := before[i];
  }

  lemma BatchesCompose(a: seq<Log>, b: seq<Log>, c: seq<Log>, start: nat, i: nat, last: nat)
    requires start <= i <= last
    requires i > start ==> BatchDone(a, b, start, i - 1)
    requires i == start ==> b == a
    requires BatchDone(b, c, i, last)
    ensures BatchDone(a, c, start, last)
  {
    forall r: nat | start <= r <= last ensures NumberedFromZero(OfRound(c, r)) {
      if r < i {
        assert OfRound(c, r) == OfRound(b, r);
      }
    }
    forall r: nat | !(start <= r <= last) ensures OfRound(c, r) == OfRound(a, r) {
      assert OfRound(c, r) == OfRound(b, r);
    }
  }

  /** The batches tile start..end: afterwards every round in it is numbered from zero, every other row
      is where it was, and no row has changed in any column but the index.  With one round per hash the
      migration cannot fail; a failure rolls everything back. */
  method LogsUp(table: seq<Log>, lastRetained: Option<nat>, lastIndexed: Option<nat>)
    returns (ok: bool, after: seq<Log>)
    requires DistinctKeys(table)
    ensures OneRoundPerHash(table) ==> ok
    ensures !ok ==> after == table
    ensures
      var start := if lastRetained.Some? then lastRetained.value else 0;
      var end := if lastIndexed.Some? then lastIndexed.value else 0;
      ok ==> if start <= end then BatchDone(table, after, start, end) && DistinctKeys(after) else after == table
  {
    var start := if lastRetained.Some? then lastRetained.value else 0;
    var end := if lastIndexed.Some? then lastIndexed.value else 0;
    after := table;
    var i := start;
    while i <= end
      invariant start <= i
      invariant i > start ==> start <= end && BatchDone(table, after, start, Min(i - 1, end))
      invariant i == start ==> after == table
      invariant DistinctKeys(after)
      invariant OneRoundPerHash(table) ==> OneRoundPerHash(after)
      decreases end + BATCH_SIZE - i
    {
      var last := Min(i + BATCH_SIZE - 1, end);
      var done, next := MigrateBatch(after, i, last);
      if !done {
        return false, table;
      }
      BatchesCompose(table, after, next, start, i, last);
      if OneRoundPerHash(table) {
        OneRoundKept(table, next);
      }
      after := next;
      i := i + BATCH_SIZE;
    }
    ok := true;
  }
}
