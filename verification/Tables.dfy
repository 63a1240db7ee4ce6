/**
 The transaction and receipt tables and the loop that writes a block's rows into one of them
 (indexer/utils.go).  The same loop appears twice in the source, once per table.
 */
module Tables {
  import opened Model

  type Table<T> = map<Hash, Row<T>>

  /** What the database keeps of a row: every column, not the log relation. */
  function Persisted<T>(r: Row<T>): Row<T> { r.(logs := []) }

  /** The columns that the two tables share. */
  function Meta<T>(r: Row<T>): Row<()> {
    Row(r.hash, r.success, r.round, r.blockHash, r.index, (), [])
  }

  function FirstSuccess<T>(rows: seq<Row<T>>, h: Hash): Option<Row<T>> {
    if rows == [] then None else
    var found := FirstSuccess(rows[..|rows| - 1], h);
    var last := rows[|rows| - 1];
    if found.Some? then found else if last.success && last.hash == h then Some(last) else None
  }

  function FirstWith<T>(rows: seq<Row<T>>, h: Hash): Option<Row<T>> {
    if rows == [] then None else
    var found := FirstWith(rows[..|rows| - 1], h);
    var last := rows[|rows| - 1];
    if found.Some? then found else if last.hash == h then Some(last) else None
  }

  /** The successful rows, in order: the rows that reach the observers. */
  function Successes<T>(rows: seq<Row<T>>): seq<Row<T>> {
    if rows == [] then [] else
    Successes(rows[..|rows| - 1]) + (if rows[|rows| - 1].success then [rows[|rows| - 1]] else [])
  }

  /**
   What is stored under `h` once `rows` have been written over `table`: a success of the block if
   there is one, otherwise the old row, otherwise the block's first (failed) row.
   */
  function StoredRow<T>(table: Table<T>, rows: seq<Row<T>>, h: Hash): Option<Row<T>> {
    if FirstSuccess(rows, h).Some? then Some(Persisted(FirstSuccess(rows, h).value))
    else if h in table then Some(table[h])
    else if FirstWith(rows, h).Some? then Some(Persisted(FirstWith(rows, h).value))
    else None
  }

  predicate SuccessStored<T>(table: Table<T>, h: Hash) { h in table && table[h].success }

  /** Some row succeeds although its hash already has a success, in the table or earlier in `rows`. */
  ghost predicate DuplicateSuccess<T>(table: Table<T>, rows: seq<Row<T>>) {
    exists i :: 0 <= i < |rows| && RepeatsSuccess(table, rows, i)
  }

  ghost predicate RepeatsSuccess<T>(table: Table<T>, rows: seq<Row<T>>, i: nat)
    requires i < |rows|
  {
    && rows[i].success
    && (SuccessStored(table, rows[i].hash) || FirstSuccess(rows[..i], rows[i].hash).Some?)
  }

  lemma {:induction false} FirstSuccessMeans<T>(rows: seq<Row<T>>, h: Hash)
    ensures FirstSuccess(rows, h).Some? ==>
              var r := FirstSuccess(rows, h).value;
              r in rows && r.success && r.hash == h
    ensures FirstSuccess(rows, h).None? ==>
              forall i :: 0 <= i < |rows| ==> !(rows[i].success && rows[i].hash == h)
  {
    if rows != [] {
      FirstSuccessMeans(rows[..|rows| - 1], h);
    }
  }

  lemma {:induction false} FirstWithMeans<T>(rows: seq<Row<T>>, h: Hash)
    ensures FirstWith(rows, h).Some? ==> FirstWith(rows, h).value in rows && FirstWith(rows, h).value.hash == h
    ensures FirstWith(rows, h).None? ==> forall i :: 0 <= i < |rows| ==> rows[i].hash != h
  {
    if rows != [] {
      FirstWithMeans(rows[..|rows| - 1], h);
    }
  }

  /** The table after a write, as one map. */
  function Merge<T>(table: Table<T>, rows: seq<Row<T>>): (r: Table<T>)
    ensures forall h :: Lookup(r, h) == StoredRow(table, rows, h)
  {
    var hashes := set i | 0 <= i < |rows| :: rows[i].hash;
    assert forall h :: h in table.Keys + hashes <==> StoredRow(table, rows, h).Some? by {
      forall h ensures h in table.Keys + hashes <==> StoredRow(table, rows, h).Some? {
        FirstSuccessMeans(rows, h);
        FirstWithMeans(rows, h);
      }
    }
    map h | h in table.Keys + hashes :: StoredRow(table, rows, h).value
  }

  /** One more row changes the entry of its own hash only, and only by the rule of the source. */
  lemma StoredRowStep<T>(table: Table<T>, rows: seq<Row<T>>, i: nat, h: Hash)
    requires i < |rows|
    requires !RepeatsSuccess(table, rows, i)
    ensures StoredRow(table, rows[..i + 1], h) ==
            if rows[i].hash == h && (rows[i].success || StoredRow(table, rows[..i], h).None?)
            then Some(Persisted(rows[i]))
            else StoredRow(table, rows[..i], h)
  {
    assert rows[..i + 1][..i] == rows[..i];
    FirstSuccessMeans(rows[..i], h);
    FirstWithMeans(rows[..i], h);
  }

  /**
   Writes `rows` into `table` (InsertIfNotExists for a failure, read-check-Upsert for a success).
   Fails exactly when a success is repeated; otherwise every key ends up as StoredRow says.
   */
  method StoreRows<T>(table: Table<T>, rows: seq<Row<T>>)
    returns (ok: bool, result: Table<T>, upserted: seq<Row<T>>)
    ensures ok <==> !DuplicateSuccess(table, rows)
    ensures ok ==> result == Merge(table, rows) && upserted == Successes(rows)
  {
    result, upserted := table, [];
    var i := 0;
    while i < |rows|
      invariant 0 <= i <= |rows|
      invariant forall h :: Lookup(result, h) == StoredRow(table, rows[..i], h)
      invariant upserted == Successes(rows[..i])
      invariant forall k :: 0 <= k < i ==> !RepeatsSuccess(table, rows, k)
    {
      var row := rows[i];
      assert rows[..i + 1][..i] == rows[..i];
      assert Lookup(result, row.hash) == StoredRow(table, rows[..i], row.hash);
      FirstSuccessMeans(rows[..i], row.hash);
      FirstWithMeans(rows[..i], row.hash);
      assert SuccessStored(result, row.hash) <==>
             SuccessStored(table, row.hash) || FirstSuccess(rows[..i], row.hash).Some?;
      ghost var before := result;
      if !row.success {
        if row.hash !in result {
          result := result[row.hash := Persisted(row)];
        }
      } else {
        if row.hash in result && result[row.hash].success {
          assert RepeatsSuccess(table, rows, i);
          ok := false;
          return;
        }
        result := result[row.hash := Persisted(row)];
        upserted := upserted + [row];
      }
      forall h ensures Lookup(result, h) == StoredRow(table, rows[..i + 1], h) {
        StoredRowStep(table, rows, i, h);
        assert Lookup(before, h) == StoredRow(table, rows[..i], h);
      }
      i := i + 1;
    }
    ok := true;
    assert rows[..i] == rows;
    assert forall h :: Lookup(result, h) == Lookup(Merge(table, rows), h);
    SameLookups(result, Merge(table, rows));
  }

  lemma SameLookups<K(!new), V>(a: map<K, V>, b: map<K, V>)
    requires forall k :: Lookup(a, k) == Lookup(b, k)
    ensures a == b
  {
    forall k ensures k in a <==> k in b {
      assert Lookup(a, k) == Lookup(b, k);
    }
    forall k | k in a ensures a[k] == b[k] {
      assert Lookup(a, k) == Lookup(b, k);
    }
  }
}
