/**
 The migrator (db/migrator/migrator.go, migration.go, migrations.go).

 First the Migrate loop of one caller, then any number of concurrent callers, step by step: each
 transaction takes the table lock, reads the applied set, runs one migration, marks it and commits,
 or aborts at any point.
 */
module Migrator {
  import opened Model

  type Name = string

  /** The bun_migrations table: name by serial id. */
  type Rows = map<nat, Name>

  // ---------------------------------------------------------------- name order

  predicate Less(a: Name, b: Name) {
    b != [] && (a == [] || a[0] < b[0] || (a[0] == b[0] && Less(a[1..], b[1..])))
  }

  /** The first k characters agree, and then a ends or has the smaller character. */
  predicate DiffersAt(a: Name, b: Name, k: nat) {
    && k <= |a| && k < |b| && a[..k] == b[..k]
    && (k < |a| ==> a[k] < b[k])
  }

  /** Names are compared like strings: character by character from the front, a proper prefix first. */
  lemma {:induction false} LessMeans(a: Name, b: Name)
    ensures Less(a, b) <==> exists k: nat :: DiffersAt(a, b, k)
  {
    if a == [] || b == [] || a[0] != b[0] {
      if Less(a, b) {
        assert DiffersAt(a, b, 0);
      }
    } else {
      LessMeans(a[1..], b[1..]);
      if k: nat :| DiffersAt(a[1..], b[1..], k) {
        assert a[..k + 1] == [a[0]] + a[1..][..k] && b[..k + 1] == [b[0]] + b[1..][..k];
        assert DiffersAt(a, b, k + 1);
      }
      if k: nat :| DiffersAt(a, b, k) {
        assert a[1..][..k - 1] == a[..k][1..] && b[1..][..k - 1] == b[..k][1..];
        assert DiffersAt(a[1..], b[1..], k - 1);
      }
    }
  }

  lemma {:induction false} LessTransitive(a: Name, b: Name, c: Name)
    requires Less(a, b) && Less(b, c)
    ensures Less(a, c)
  {
    if a != [] && a[0] == b[0] && b[0] == c[0] {
      LessTransitive(a[1..], b[1..], c[1..]);
    }
  }

  lemma {:induction false} LessTotal(a: Name, b: Name)
    ensures Less(a, b) || a == b || Less(b, a)
  {
    if a != [] && b != [] && a[0] == b[0] {
      LessTotal(a[1..], b[1..]);
      assert a == [a[0]] + a[1..] && b == [b[0]] + b[1..];
    }
  }

  lemma {:induction false} LessIrreflexive(a: Name)
    ensures !Less(a, a)
  {
    if a != [] {
      LessIrreflexive(a[1..]);
    }
  }

  ghost predicate Ascending(s: seq<Name>) {
    forall i, j :: 0 <= i < j < |s| ==> Less(s[i], s[j])
  }

  ghost predicate Distinct(s: seq<Name>) {
    forall i, j :: 0 <= i < j < |s| ==> s[i] != s[j]
  }

  lemma AscendingDistinct(s: seq<Name>)
    requires Ascending(s)
    ensures Distinct(s)
  {
    forall i, j | 0 <= i < j < |s| ensures s[i] != s[j] {
      LessIrreflexive(s[i]);
    }
  }

  /** Inserts a new name into an ascending list. */
  method InsertName(s: seq<Name>, x: Name) returns (r: seq<Name>)
    requires Ascending(s) && x !in s
    ensures Ascending(r) && forall n :: n in r <==> n in s || n == x
  {
    var i := 0;
    while i < |s| && Less(s[i], x)
      invariant 0 <= i <= |s|
      invariant forall j :: 0 <= j < i ==> Less(s[j], x)
    {
      i := i + 1;
    }
    if i < |s| {
      LessTotal(s[i], x);
      assert Less(x, s[i]);
    }
    forall j | i <= j < |s| ensures Less(x, s[j]) {
      if j > i {
        LessTransitive(x, s[i], s[j]);
      }
    }
    r := s[..i] + [x] + s[i..];
    assert forall n :: n in s <==> n in s[..i] || n in s[i..];
  }

  /** sortAsc on distinct names. */
  method SortAsc(ms: seq<Name>) returns (r: seq<Name>)
    requires Distinct(ms)
    ensures Ascending(r) && forall n :: n in r <==> n in ms
  {
    r := [];
    for i := 0 to |ms|
      invariant Ascending(r) && forall n :: n in r <==> n in ms[..i]
    {
      assert ms[i] !in ms[..i];
      r := InsertName(r, ms[i]);
      assert ms[..i + 1] == ms[..i] + [ms[i]];
    }
    assert ms[..|ms|] == ms;
  }

  // ---------------------------------------------------------------- applied and unapplied

  function Names(rows: Rows): set<Name> { set id | id in rows :: rows[id] }

  /** The unapplied migrations, in list order. */
  function Unapplied(sorted: seq<Name>, names: set<Name>): seq<Name> {
    if sorted == [] then [] else
    var last := sorted[|sorted| - 1];
    Unapplied(sorted[..|sorted| - 1], names) + (if last in names then [] else [last])
  }

  /** The applied migrations, in reverse list order. */
  function Applied(sorted: seq<Name>, names: set<Name>): seq<Name> {
    if sorted == [] then [] else
    var last := sorted[|sorted| - 1];
    (if last in names then [last] else []) + Applied(sorted[..|sorted| - 1], names)
  }

  /** The applied set is the first |rows| names of the sorted list, each in one row. */
  ghost predicate IsPrefix(rows: Rows, sorted: seq<Name>) {
    && |rows| <= |sorted|
    && (forall n :: n in Names(rows) <==> n in sorted[..|rows|])
    && (forall i, j :: i in rows && j in rows && rows[i] == rows[j] ==> i == j)
  }

  lemma InPrefix(sorted: seq<Name>, k: nat, i: nat)
    requires k <= |sorted| && i < |sorted| && Distinct(sorted)
    ensures sorted[i] in sorted[..k] <==> i < k
  {
    if i < k {
      assert sorted[..k][i] == sorted[i];
    }
    if sorted[i] in sorted[..k] {
      var j :| 0 <= j < k && sorted[..k][j] == sorted[i];
      assert sorted[j] == sorted[i];
    }
  }

  lemma {:induction false} UnappliedOfPrefix(sorted: seq<Name>, names: set<Name>, k: nat, n: nat)
    requires k <= |sorted| && n <= |sorted| && Distinct(sorted)
    requires forall x :: x in names <==> x in sorted[..k]
    ensures Unapplied(sorted[..n], names) == if n <= k then [] else sorted[k..n]
  {
    if n > 0 {
      var last := sorted[n - 1];
      UnappliedOfPrefix(sorted, names, k, n - 1);
      InPrefix(sorted, k, n - 1);
      assert last in names <==> n <= k;
      assert sorted[..n][..n - 1] == sorted[..n - 1] && sorted[..n][n - 1] == last;
      assert Unapplied(sorted[..n], names) ==
             Unapplied(sorted[..n - 1], names) + (if last in names then [] else [last]);
      if n > k {
        assert sorted[k..n] == sorted[k..n - 1] + [last];
      }
    }
  }

  lemma {:induction false} AppliedOfPrefix(sorted: seq<Name>, names: set<Name>, k: nat, n: nat)
    requires k <= |sorted| && n <= |sorted| && Distinct(sorted)
    requires forall x :: x in names <==> x in sorted[..k]
    ensures Applied(sorted[..n], names) == [] <==> Min(n, k) == 0
    ensures Min(n, k) > 0 ==> Applied(sorted[..n], names)[0] == sorted[Min(n, k) - 1]
  {
    if n > 0 {
      var last := sorted[n - 1];
      AppliedOfPrefix(sorted, names, k, n - 1);
      InPrefix(sorted, k, n - 1);
      assert last in names <==> n <= k;
      assert sorted[..n][..n - 1] == sorted[..n - 1] && sorted[..n][n - 1] == last;
      assert Applied(sorted[..n], names) == (if last in names then [last] else []) + Applied(sorted[..n - 1], names);
    }
  }

  /** What Migrate picks is the next name of the list, and Rollback the last applied one. */
  lemma NextAndLast(rows: Rows, sorted: seq<Name>)
    requires Ascending(sorted) && IsPrefix(rows, sorted)
    ensures Unapplied(sorted, Names(rows)) == sorted[|rows|..]
    ensures Applied(sorted, Names(rows)) == [] <==> |rows| == 0
    ensures |rows| > 0 ==> Applied(sorted, Names(rows))[0] == sorted[|rows| - 1]
  {
    AscendingDistinct(sorted);
    UnappliedOfPrefix(sorted, Names(rows), |rows|, |sorted|);
    AppliedOfPrefix(sorted, Names(rows), |rows|, |sorted|);
    assert sorted[..|sorted|] == sorted;
  }

  lemma NamesAfterAdd(rows: Rows, id: nat, name: Name)
    requires id !in rows
    ensures Names(rows[id := name]) == Names(rows) + {name}
  {
    var rows' := rows[id := name];
    forall n | n in Names(rows) + {name} ensures n in Names(rows') {
      if n in Names(rows) {
        var i :| i in rows && rows[i] == n;
        assert rows'[i] == n;
      } else {
        assert rows'[id] == n;
      }
    }
  }

  lemma SizeAfterAdd(rows: Rows, id: nat, name: Name)
    requires id !in rows
    ensures |rows[id := name]| == |rows| + 1
  {
    assert rows[id := name].Keys == rows.Keys + {id};
  }

  lemma AddKeepsPrefix(rows: Rows, sorted: seq<Name>, id: nat)
    requires Ascending(sorted) && IsPrefix(rows, sorted) && |rows| < |sorted| && id !in rows
    ensures IsPrefix(rows[id := sorted[|rows|]], sorted)
  {
    var k := |rows|;
    AscendingDistinct(sorted);
    InPrefix(sorted, k, k);
    SizeAfterAdd(rows, id, sorted[k]);
    NamesAfterAdd(rows, id, sorted[k]);
    ExtendSlice(sorted, 0, k);
  }

  lemma RemoveKeepsPrefix(rows: Rows, sorted: seq<Name>, id: nat)
    requires Ascending(sorted) && IsPrefix(rows, sorted) && id in rows && rows[id] == sorted[|rows| - 1]
    ensures IsPrefix(rows - {id}, sorted)
  {
    var k := |rows|;
    var rows' := rows - {id};
    AscendingDistinct(sorted);
    assert rows'.Keys == rows.Keys - {id};
    assert |rows'| == k - 1;
    assert sorted[..k] == sorted[..k - 1] + [sorted[k - 1]];
    assert sorted[k - 1] !in sorted[..k - 1];
    forall n ensures n in Names(rows') <==> n in sorted[..k - 1] {
      if n in sorted[..k - 1] {
        assert n in sorted[..k] && n in Names(rows);
        var i :| i in rows && rows[i] == n;
        assert rows'[i] == n;
      }
      if n in Names(rows') {
        var i :| i in rows' && rows'[i] == n;
        assert rows[i] == n && i != id && n in Names(rows);
      }
    }
  }

  lemma ExtendSlice<T>(s: seq<T>, a: nat, b: nat)
    requires a <= b < |s|
    ensures s[a..b + 1] == s[a..b] + [s[b]]
  {
  }

  // ---------------------------------------------------------------- one caller

  class Database {
    /** The registered migrations in ascending order (Migrations.Sorted). */
    const sorted: seq<Name>
    var rows: Rows
    var nextId: nat
    ghost var ups: seq<Name>

    ghost predicate Valid()
      reads this
    {
      Ascending(sorted) && IsPrefix(rows, sorted) && (forall id :: id in rows ==> 0 < id < nextId) && nextId > 0
    }

    constructor (ms: seq<Name>)
      requires Distinct(ms)
      ensures Valid() && rows == map[] && ups == []
      ensures forall n :: n in sorted <==> n in ms
    {
      var list := SortAsc(ms);
      sorted := list;
      rows, nextId, ups := map[], 1, [];
    }

    /** migrationsWithStatus and Unapplied: the names of the list without a row. */
    method Remaining() returns (r: seq<Name>)
      requires Valid()
      ensures r == Unapplied(sorted, Names(rows)) && r == sorted[|rows|..]
    {
      var applied := set id | id in rows :: rows[id];
      r := [];
      for i := 0 to |sorted|
        invariant r == Unapplied(sorted[..i], applied)
      {
        assert sorted[..i + 1][..i] == sorted[..i];
        if sorted[i] !in applied {
          r := r + [sorted[i]];
        }
      }
      assert sorted[..|sorted|] == sorted;
      NextAndLast(rows, sorted);
    }

    /** One committed transaction of Migrate. */
    method ApplyNext(next: Name)
      requires Valid() && |rows| < |sorted| && next == sorted[|rows|]
      modifies this
      ensures Valid() && |rows| == |old(rows)| + 1 && ups == old(ups) + [next]
    {
      AddKeepsPrefix(rows, sorted, nextId);
      rows := rows[nextId := next];
      nextId := nextId + 1;
      ups := ups + [next];
    }

    /** Applies the missing suffix of the sorted list, in order, up to the first migration that fails.
        Each round of the loop commits one migration, so the loop ends. */
    method Migrate(upOk: Name -> bool) returns (ok: bool)
      requires Valid()
      modifies this
      ensures Valid() && |old(rows)| <= |rows|
      ensures ups == old(ups) + sorted[|old(rows)|..|rows|]
      ensures forall i :: |old(rows)| <= i < |rows| ==> upOk(sorted[i])
      ensures ok <==> sorted != [] && |rows| == |sorted|
      ensures !ok && sorted != [] ==> !upOk(sorted[|rows|])
    {
      if |sorted| == 0 {
        return false;
      }
      ghost var k0 := |rows|;
      var stop := false;
      while !stop
        invariant Valid() && k0 <= |rows|
        invariant ups == old(ups) + sorted[k0..|rows|]
        invariant forall i :: k0 <= i < |rows| ==> upOk(sorted[i])
        invariant stop ==> |rows| == |sorted|
        decreases |sorted| - |rows|, if stop then 0 else 1
      {
        var remaining := Remaining();
        if |remaining| == 0 {
          stop := true;
        } else {
          if !upOk(remaining[0]) {
            return false;
          }
          ExtendSlice(sorted, k0, |rows|);
          ApplyNext(remaining[0]);
        }
      }
      ok := true;
    }
  }

  // ---------------------------------------------------------------- concurrent callers

  datatype Op = DoMigrate | DoRollback

  datatype Effect = Nothing | Up(name: Name) | Down(name: Name)

  /** Where a caller's transaction stands. */
  datatype Caller =
    | Idle
    | Waiting(op: Op)                       // begun, before the table lock
    | Holding(op: Op)                       // has the lock
    | Seen(op: Op, view: Rows)              // has read the table
    | Ready(after: Rows, effect: Effect)    // has run the migration and marked it; not committed

  datatype World = World(rows: Rows, nextId: nat, lock: Option<nat>, callers: map<nat, Caller>, trace: seq<Effect>)

  datatype Action = Begin(op: Op) | Lock | Read | Work(ok: bool) | Commit | Abort

  datatype Event = Event(pid: nat, action: Action)

  const Start := World(map[], 1, None, map[], [])

  function CallerOf(w: World, pid: nat): Caller {
    if pid in w.callers then w.callers[pid] else Idle
  }

  predicate HasLock(c: Caller) { c.Holding? || c.Seen? || c.Ready? }

  function Leave(w: World, pid: nat): World {
    w.(callers := w.callers[pid := Idle], lock := if w.lock == Some(pid) then None else w.lock)
  }

  function IdsOf(rows: Rows, n: Name): set<nat> { set i | i in rows && rows[i] == n }

  /** Everything between reading and committing, on the transaction's own view. */
  ghost function Execute(sorted: seq<Name>, op: Op, view: Rows, id: nat): Option<(Rows, Effect)> {
    if op.DoMigrate? then
      var rest := Unapplied(sorted, Names(view));
      if rest == [] then Some((view, Nothing)) else Some((view[id := rest[0]], Up(rest[0])))
    else
      var done := Applied(sorted, Names(view));
      if done == [] then None
      else Some((view - IdsOf(view, done[0]), Down(done[0])))
  }

  ghost function Step(sorted: seq<Name>, w: World, e: Event): World {
    var c := CallerOf(w, e.pid);
    match e.action
    case Begin(op) => if c.Idle? then w.(callers := w.callers[e.pid := Waiting(op)]) else w
    case Lock =>
      if c.Waiting? && w.lock.None? then w.(lock := Some(e.pid), callers := w.callers[e.pid := Holding(c.op)]) else w
    case Read => if c.Holding? then w.(callers := w.callers[e.pid := Seen(c.op, w.rows)]) else w
    case Work(ok) =>
      if !c.Seen? then w else
      var r := Execute(sorted, c.op, c.view, w.nextId);
      if !ok || r.None? then Leave(w, e.pid)
      else w.(nextId := w.nextId + 1, callers := w.callers[e.pid := Ready(r.value.0, r.value.1)])
    case Commit =>
      if !c.Ready? then w
      else Leave(w, e.pid).(rows := c.after, trace := w.trace + (if c.effect.Nothing? then [] else [c.effect]))
    case Abort => if c.Idle? then w else Leave(w, e.pid)
  }

  ghost function Run(sorted: seq<Name>, events: seq<Event>): World {
    if events == [] then Start else Step(sorted, Run(sorted, events[..|events| - 1]), events[|events| - 1])
  }

  /** The stack of applied names that a trace leaves behind. */
  function Replay(trace: seq<Effect>): seq<Name> {
    if trace == [] then [] else
    var before := Replay(trace[..|trace| - 1]);
    match trace[|trace| - 1]
    case Nothing => before
    case Up(n) => before + [n]
    case Down(_) => if before == [] then [] else before[..|before| - 1]
  }

  /** A pending commit is one legal step away from the committed table. */
  ghost predicate Pending(sorted: seq<Name>, rows: Rows, nextId: nat, after: Rows, effect: Effect) {
    && IsPrefix(after, sorted) && (forall id :: id in after ==> 0 < id < nextId)
    && match effect
       case Nothing => after == rows && |rows| == |sorted|
       case Up(n) => |after| == |rows| + 1 && n == sorted[|rows|]
       case Down(n) => |rows| == |after| + 1 <= |sorted| && n == sorted[|after|]
  }

  ghost predicate CallerInv(sorted: seq<Name>, w: World, pid: nat, c: Caller) {
    && (HasLock(c) ==> w.lock == Some(pid))
    && (c.Seen? ==> c.view == w.rows)
    && (c.Ready? ==> Pending(sorted, w.rows, w.nextId, c.after, c.effect))
  }

  ghost predicate Inv(sorted: seq<Name>, w: World) {
    && IsPrefix(w.rows, sorted) && w.nextId > 0
    && (forall id :: id in w.rows ==> 0 < id < w.nextId)
    && Replay(w.trace) == sorted[..|w.rows|]
    && forall pid :: pid in w.callers ==> CallerInv(sorted, w, pid, w.callers[pid])
  }

  lemma LastRow(sorted: seq<Name>, rows: Rows) returns (i: nat)
    requires IsPrefix(rows, sorted) && |rows| > 0
    ensures i in rows && rows[i] == sorted[|rows| - 1]
    ensures IdsOf(rows, sorted[|rows| - 1]) == {i}
  {
    var last := sorted[|rows| - 1];
    assert last in sorted[..|rows|];
    assert last in Names(rows);
    i :| i in rows && rows[i] == last;
  }

  lemma RollbackPending(sorted: seq<Name>, rows: Rows, id: nat, i: nat)
    requires Ascending(sorted) && IsPrefix(rows, sorted) && (forall i :: i in rows ==> 0 < i < id)
    requires i in rows && rows[i] == sorted[|rows| - 1]
    ensures Pending(sorted, rows, id + 1, rows - {i}, Down(sorted[|rows| - 1]))
  {
    RemoveKeepsPrefix(rows, sorted, i);
    var after := rows - {i};
    assert after.Keys == rows.Keys - {i};
    assert |after| == |rows| - 1;
  }

  /** What Execute yields on a prefix. */
  lemma ExecuteResult(sorted: seq<Name>, op: Op, rows: Rows, id: nat) returns (i: nat)
    requires Ascending(sorted) && IsPrefix(rows, sorted)
    ensures op.DoMigrate? ==>
              Execute(sorted, op, rows, id) ==
              Some(if |rows| == |sorted| then (rows, Nothing) else (rows[id := sorted[|rows|]], Up(sorted[|rows|])))
    ensures op.DoRollback? && |rows| == 0 ==> Execute(sorted, op, rows, id).None?
    ensures op.DoRollback? && |rows| > 0 ==>
              && i in rows && rows[i] == sorted[|rows| - 1]
              && Execute(sorted, op, rows, id) == Some((rows - {i}, Down(sorted[|rows| - 1])))
  {
    NextAndLast(rows, sorted);
    i := 0;
    if op.DoRollback? && |rows| > 0 {
      i := LastRow(sorted, rows);
    }
  }

  lemma MigratePending(sorted: seq<Name>, rows: Rows, id: nat)
    requires Ascending(sorted) && IsPrefix(rows, sorted) && (forall i :: i in rows ==> 0 < i < id) && id > 0
    ensures if |rows| == |sorted| then Pending(sorted, rows, id + 1, rows, Nothing)
            else Pending(sorted, rows, id + 1, rows[id := sorted[|rows|]], Up(sorted[|rows|]))
  {
    if |rows| < |sorted| {
      AddKeepsPrefix(rows, sorted, id);
    }
  }

  lemma ExecutePending(sorted: seq<Name>, op: Op, rows: Rows, id: nat)
    requires Ascending(sorted) && IsPrefix(rows, sorted) && (forall i :: i in rows ==> 0 < i < id) && id > 0
    requires Execute(sorted, op, rows, id).Some?
    ensures Pending(sorted, rows, id + 1, Execute(sorted, op, rows, id).value.0, Execute(sorted, op, rows, id).value.1)
  {
    var i := ExecuteResult(sorted, op, rows, id);
    if op.DoRollback? {
      RollbackPending(sorted, rows, id, i);
    } else {
      MigratePending(sorted, rows, id);
    }
  }

  lemma CommitKeepsInv(sorted: seq<Name>, w: World, pid: nat)
    requires Ascending(sorted) && Inv(sorted, w) && CallerOf(w, pid).Ready?
    ensures Inv(sorted, Step(sorted, w, Event(pid, Commit)))
  {
    var c := CallerOf(w, pid);
    var w' := Step(sorted, w, Event(pid, Commit));
    assert CallerInv(sorted, w, pid, c);
    forall q | q in w'.callers ensures CallerInv(sorted, w', q, w'.callers[q]) {
      if q != pid {
        assert CallerInv(sorted, w, q, w.callers[q]);
      }
    }
    assert w.trace + [] == w.trace;
    assert c.effect.Nothing? || w'.trace[..|w.trace|] == w.trace;
    if c.effect.Up? {
      assert sorted[..|w.rows| + 1] == sorted[..|w.rows|] + [sorted[|w.rows|]];
    } else if c.effect.Down? {
      assert sorted[..|w.rows|][..|w.rows| - 1] == sorted[..|w.rows| - 1];
    }
  }

  lemma WorkKeepsInv(sorted: seq<Name>, w: World, pid: nat, ok: bool)
    requires Ascending(sorted) && Inv(sorted, w) && CallerOf(w, pid).Seen?
    ensures Inv(sorted, Step(sorted, w, Event(pid, Work(ok))))
  {
    var c := CallerOf(w, pid);
    var w' := Step(sorted, w, Event(pid, Work(ok)));
    assert CallerInv(sorted, w, pid, c);
    if Execute(sorted, c.op, c.view, w.nextId).Some? {
      ExecutePending(sorted, c.op, w.rows, w.nextId);
    }
    forall q | q in w'.callers ensures CallerInv(sorted, w', q, w'.callers[q]) {
      if q != pid {
        assert CallerInv(sorted, w, q, w.callers[q]);
      }
    }
  }

  lemma LeaveKeepsInv(sorted: seq<Name>, w: World, pid: nat)
    requires Inv(sorted, w)
    ensures Inv(sorted, Leave(w, pid))
  {
    var w' := Leave(w, pid);
    forall q | q in w'.callers ensures CallerInv(sorted, w', q, w'.callers[q]) {
      if q != pid {
        assert CallerInv(sorted, w, q, w.callers[q]);
      }
    }
  }

  lemma EnterKeepsInv(sorted: seq<Name>, w: World, e: Event)
    requires Inv(sorted, w) && (e.action.Begin? || e.action.Lock? || e.action.Read?)
    ensures Inv(sorted, Step(sorted, w, e))
  {
    var w' := Step(sorted, w, e);
    assert w'.rows == w.rows && w'.nextId == w.nextId && w'.trace == w.trace;
    forall q | q in w'.callers ensures CallerInv(sorted, w', q, w'.callers[q]) {
      if q in w.callers {
        assert CallerInv(sorted, w, q, w.callers[q]);
      }
    }
  }

  lemma StepKeepsInv(sorted: seq<Name>, w: World, e: Event)
    requires Ascending(sorted) && Inv(sorted, w)
    ensures Inv(sorted, Step(sorted, w, e))
  {
    match e.action {
      case Commit =>
        if CallerOf(w, e.pid).Ready? {
          CommitKeepsInv(sorted, w, e.pid);
        }
      case Work(ok) =>
        if CallerOf(w, e.pid).Seen? {
          WorkKeepsInv(sorted, w, e.pid, ok);
        }
      case Abort => LeaveKeepsInv(sorted, w, e.pid);
      case _ => EnterKeepsInv(sorted, w, e);
    }
  }

  lemma {:induction false} InvHolds(sorted: seq<Name>, events: seq<Event>)
    requires Ascending(sorted)
    ensures Inv(sorted, Run(sorted, events))
  {
    if events != [] {
      InvHolds(sorted, events[..|events| - 1]);
      StepKeepsInv(sorted, Run(sorted, events[..|events| - 1]), events[|events| - 1]);
    }
  }

  /** For any callers and any aborts: the committed table is a prefix of the sorted list, and it is what
      the committed Up and Down runs, in their order, add up to. */
  lemma AppliedIsPrefix(sorted: seq<Name>, events: seq<Event>)
    requires Ascending(sorted)
    ensures IsPrefix(Run(sorted, events).rows, sorted)
    ensures Replay(Run(sorted, events).trace) == sorted[..|Run(sorted, events).rows|]
  {
    InvHolds(sorted, events);
  }

  function NamesOf(trace: seq<Effect>): seq<Name>
    requires forall i :: 0 <= i < |trace| ==> trace[i].Up?
  {
    seq(|trace|, i requires 0 <= i < |trace| => trace[i].name)
  }

  lemma {:induction false} ReplayOfUps(trace: seq<Effect>)
    requires forall i :: 0 <= i < |trace| ==> trace[i].Up?
    ensures Replay(trace) == NamesOf(trace)
  {
    if trace != [] {
      ReplayOfUps(trace[..|trace| - 1]);
      assert NamesOf(trace) == NamesOf(trace[..|trace| - 1]) + [trace[|trace| - 1].name];
    }
  }

  /** Without committed rollbacks every Up has run exactly once, in ascending order. */
  lemma EachUpRunsOnce(sorted: seq<Name>, events: seq<Event>)
    requires Ascending(sorted)
    requires forall i :: 0 <= i < |Run(sorted, events).trace| ==> Run(sorted, events).trace[i].Up?
    ensures |Run(sorted, events).rows| <= |sorted|
    ensures NamesOf(Run(sorted, events).trace) == sorted[..|Run(sorted, events).rows|]
  {
    InvHolds(sorted, events);
    ReplayOfUps(Run(sorted, events).trace);
  }

  /** A committed Migrate transaction either lowers the number of unapplied migrations by one, or there
      were none left and the caller's loop stops. */
  lemma MigrateMakesProgress(sorted: seq<Name>, events: seq<Event>, pid: nat)
    requires Ascending(sorted) && CallerOf(Run(sorted, events), pid).Ready?
    requires !CallerOf(Run(sorted, events), pid).effect.Down?
    ensures
      var w := Run(sorted, events);
      var w' := Run(sorted, events + [Event(pid, Commit)]);
      if CallerOf(w, pid).effect.Nothing? then |w.rows| == |sorted| && w'.rows == w.rows
      else |sorted| - |w'.rows| == |sorted| - |w.rows| - 1
  {
    InvHolds(sorted, events);
    var w := Run(sorted, events);
    assert CallerInv(sorted, w, pid, w.callers[pid]);
    assert (events + [Event(pid, Commit)])[..|events|] == events;
  }

  /** At most one transaction is past the lock. */
  lemma LockIsExclusive(sorted: seq<Name>, events: seq<Event>, p: nat, q: nat)
    requires Ascending(sorted)
    requires HasLock(CallerOf(Run(sorted, events), p)) && HasLock(CallerOf(Run(sorted, events), q))
    ensures p == q
  {
    InvHolds(sorted, events);
    var w := Run(sorted, events);
    assert CallerInv(sorted, w, p, w.callers[p]) && CallerInv(sorted, w, q, w.callers[q]);
  }
}
