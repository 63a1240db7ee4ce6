/** What one committed block or one prune does to the tables, for every store. */
module StoreProperties {
  import opened Model
  import opened Tables
  import opened BlockConversion
  import opened IndexStore

  function MetaOf<T>(o: Option<Row<T>>): Option<Row<()>> {
    if o.Some? then Some(Meta(o.value)) else None
  }

  ghost predicate SameMetas<A, B>(a: seq<Row<A>>, b: seq<Row<B>>) {
    |a| == |b| && forall i :: 0 <= i < |a| ==> Meta(a[i]) == Meta(b[i])
  }

  /** Same hashes, and under each hash the same status, round, block hash and index. */
  ghost predicate Aligned<A, B>(a: Table<A>, b: Table<B>) {
    forall h :: MetaOf(Lookup(a, h)) == MetaOf(Lookup(b, h))
  }

  lemma {:induction false} FirstRowsAligned<A, B>(a: seq<Row<A>>, b: seq<Row<B>>, h: Hash)
    requires SameMetas(a, b)
    ensures MetaOf(FirstSuccess(a, h)) == MetaOf(FirstSuccess(b, h))
    ensures MetaOf(FirstWith(a, h)) == MetaOf(FirstWith(b, h))
  {
    if a != [] {
      FirstRowsAligned(a[..|a| - 1], b[..|b| - 1], h);
      assert Meta(a[|a| - 1]) == Meta(b[|b| - 1]);
    }
  }

  lemma StoredRowAligned<A, B>(s: Table<A>, a: seq<Row<A>>, t: Table<B>, b: seq<Row<B>>, h: Hash)
    requires MetaOf(Lookup(s, h)) == MetaOf(Lookup(t, h)) && SameMetas(a, b)
    ensures MetaOf(StoredRow(s, a, h)) == MetaOf(StoredRow(t, b, h))
  {
    FirstRowsAligned(a, b, h);
  }

  lemma MergeAligned<A, B>(s: Table<A>, a: seq<Row<A>>, t: Table<B>, b: seq<Row<B>>)
    requires Aligned(s, t) && SameMetas(a, b)
    ensures Aligned(Merge(s, a), Merge(t, b))
  {
    forall h ensures MetaOf(Lookup(Merge(s, a), h)) == MetaOf(Lookup(Merge(t, b), h)) {
      StoredRowAligned(s, a, t, b, h);
    }
  }

  lemma KeepAligned<A, B>(s: Table<A>, t: Table<B>, bound: nat)
    requires Aligned(s, t)
    ensures Aligned(KeepRows(s, bound), KeepRows(t, bound))
  {
    forall h ensures MetaOf(Lookup(KeepRows(s, bound), h)) == MetaOf(Lookup(KeepRows(t, bound), h)) {
      assert MetaOf(Lookup(s, h)) == MetaOf(Lookup(t, h));
    }
  }

  /** In aligned tables the receipt loop rejects exactly the blocks the transaction loop rejects. */
  lemma DuplicatesAligned<A, B>(s: Table<A>, a: seq<Row<A>>, t: Table<B>, b: seq<Row<B>>)
    requires Aligned(s, t) && SameMetas(a, b)
    ensures DuplicateSuccess(s, a) <==> DuplicateSuccess(t, b)
  {
    forall i | 0 <= i < |a| ensures RepeatsSuccess(s, a, i) <==> RepeatsSuccess(t, b, i) {
      assert Meta(a[i]) == Meta(b[i]);
      FirstRowsAligned(a[..i], b[..i], a[i].hash);
      assert MetaOf(Lookup(s, a[i].hash)) == MetaOf(Lookup(t, a[i].hash));
    }
    if DuplicateSuccess(s, a) {
      var i :| 0 <= i < |a| && RepeatsSuccess(s, a, i);
      assert RepeatsSuccess(t, b, i);
    }
    if DuplicateSuccess(t, b) {
      var i :| 0 <= i < |b| && RepeatsSuccess(t, b, i);
      assert RepeatsSuccess(s, a, i);
    }
  }

  lemma {:induction false} NoSuccessOfStored<T>(table: Table<T>, rows: seq<Row<T>>, h: Hash)
    requires !DuplicateSuccess(table, rows) && SuccessStored(table, h)
    ensures FirstSuccess(rows, h).None?
  {
    FirstSuccessMeans(rows, h);
    if FirstSuccess(rows, h).Some? {
      var i :| 0 <= i < |rows| && rows[i] == FirstSuccess(rows, h).value;
      assert RepeatsSuccess(table, rows, i);
    }
  }

  /** A write never touches a stored success, and what it puts in place of a failure is a success. */
  lemma WritesRespectSuccess<T>(table: Table<T>, rows: seq<Row<T>>, h: Hash)
    requires !DuplicateSuccess(table, rows) && h in table
    ensures h in Merge(table, rows)
    ensures table[h].success ==> Merge(table, rows)[h] == table[h]
    ensures Merge(table, rows)[h] != table[h] ==> Merge(table, rows)[h].success && !table[h].success
  {
    assert Lookup(Merge(table, rows), h) == StoredRow(table, rows, h);
    FirstSuccessMeans(rows, h);
    if table[h].success {
      NoSuccessOfStored(table, rows, h);
    }
  }

  /** A block that repeats a stored success is rejected. */
  lemma RepeatIsRejected(s: Store, m: Models, i: nat)
    requires i < |m.txs| && m.txs[i].success && SuccessStored(s.txs, m.txs[i].hash)
    ensures !Accepts(s, m)
  {
    assert RepeatsSuccess(s.txs, m.txs, i);
  }

  /** The only success of its hash in an accepted block is the row that gets stored. */
  lemma SuccessIsStored<T>(table: Table<T>, rows: seq<Row<T>>, i: nat)
    requires !DuplicateSuccess(table, rows) && i < |rows| && rows[i].success
    ensures Lookup(Merge(table, rows), rows[i].hash) == Some(Persisted(rows[i]))
  {
    var h := rows[i].hash;
    assert !RepeatsSuccess(table, rows, i);
    FirstSuccessOf(table, rows, i, |rows|);
    assert rows[..|rows|] == rows;
    assert Lookup(Merge(table, rows), h) == StoredRow(table, rows, h);
  }

  lemma {:induction false} FirstSuccessOf<T>(table: Table<T>, rows: seq<Row<T>>, i: nat, n: nat)
    requires !DuplicateSuccess(table, rows) && i < n <= |rows| && rows[i].success
    ensures FirstSuccess(rows[..n], rows[i].hash) == Some(rows[i])
  {
    assert rows[..n][..n - 1] == rows[..n - 1];
    if i == n - 1 {
      assert !RepeatsSuccess(table, rows, i);
    } else {
      FirstSuccessOf(table, rows, i, n - 1);
    }
  }

  lemma SuccessesDistinct<T>(table: Table<T>, rows: seq<Row<T>>, i: nat, j: nat)
    requires !DuplicateSuccess(table, rows) && i < j < |rows| && rows[i].success && rows[j].success
    ensures rows[i].hash != rows[j].hash
  {
    FirstSuccessOf(table, rows, i, j);
    assert !RepeatsSuccess(table, rows, j);
  }

  lemma {:induction false} SuccessMember<T>(rows: seq<Row<T>>, r: Row<T>)
    ensures r in Successes(rows) <==> r in rows && r.success
  {
    if rows != [] {
      SuccessMember(rows[..|rows| - 1], r);
      assert rows == rows[..|rows| - 1] + [rows[|rows| - 1]];
    }
  }

  lemma SuccessesMeans<T(!new)>(rows: seq<Row<T>>)
    ensures forall r :: r in Successes(rows) <==> r in rows && r.success
  {
    forall r ensures r in Successes(rows) <==> r in rows && r.success {
      SuccessMember(rows, r);
    }
  }

  lemma {:induction false} SuccessesAligned<A, B>(a: seq<Row<A>>, b: seq<Row<B>>)
    requires SameMetas(a, b)
    ensures SameMetas(Successes(a), Successes(b))
  {
    if a != [] {
      SuccessesAligned(a[..|a| - 1], b[..|b| - 1]);
      assert Meta(a[|a| - 1]) == Meta(b[|b| - 1]);
    }
  }

  /** Storing a row keeps all its columns, and so does storing a block. */
  lemma StoredColumns<T>(r: Row<T>, b: Block)
    ensures
      var p := Persisted(r);
      && p.hash == r.hash && p.success == r.success && p.round == r.round && p.blockHash == r.blockHash
      && p.index == r.index && p.body == r.body
    ensures BlockRow(b).hash == b.hash && BlockRow(b).round == b.round && BlockRow(b).header == b.header
  {
  }
}
