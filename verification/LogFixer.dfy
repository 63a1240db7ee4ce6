/**
 The worker that repairs tx_index in old log rows (worker/log_tx_index_fixer.go), running beside the
 indexer and the pruner on the same store.
 */
module LogFixer {
  import opened Model
  import opened Tables
  import opened BlockConversion
  import opened BlockProperties
  import opened IndexStore
  import opened StoreProperties
  import IndexerRuns

  const BATCH_SIZE: nat := 10_000

  /** The join condition of the worker's two statements. */
  predicate Mismatched(s: Store, k: (Hash, nat)) {
    k in s.logs && k.0 in s.txs && s.logs[k].txIndex != s.txs[k.0].index
  }

  /** UPDATE logs ... for the rounds first..last. */
  function FixRange(s: Store, first: nat, last: nat): Store {
    s.(logs := map k | k in s.logs ::
         if Mismatched(s, k) && first <= s.logs[k].round <= last then s.logs[k].(txIndex := s.txs[k.0].index)
         else s.logs[k])
  }

  /** A batch repairs the mismatches of its rounds, creates none, and touches no other column or row. */
  lemma FixRangeExactly(s: Store, first: nat, last: nat, k: (Hash, nat))
    ensures Mismatched(FixRange(s, first, last), k) <==> Mismatched(s, k) && !(first <= s.logs[k].round <= last)
    ensures k in FixRange(s, first, last).logs <==> k in s.logs
    ensures k in s.logs ==> FixRange(s, first, last).logs[k].(txIndex := 0) == s.logs[k].(txIndex := 0)
    ensures k in s.logs && !Mismatched(s, k) ==> FixRange(s, first, last).logs[k] == s.logs[k]
    ensures k in s.logs && k.0 in s.txs && first <= s.logs[k].round <= last ==>
              FixRange(s, first, last).logs[k].txIndex == s.txs[k.0].index
  {
  }

  /** Logs belong to stored successes of their round; only the index may be wrong. */
  ghost predicate Linked(s: Store) {
    forall k :: k in s.logs ==>
      k == Key(s.logs[k]) && SuccessStored(s.txs, k.0) && s.txs[k.0].round == s.logs[k].round
  }

  // ---------------------------------------------------------------- the rest of the system

  datatype Interference = Index(block: RawBlock) | PruneTo(bound: nat)

  ghost predicate Admissible(c: Interference) {
    c.Index? && Convertible(c.block) ==> FailuresEmitNothing(EthFacts(c.block.items))
  }

  /** No new mismatch, and old ones stay in their round. */
  ghost predicate NoneAdded(before: Store, after: Store) {
    forall k :: Mismatched(after, k) ==> Mismatched(before, k) && after.logs[k].round == before.logs[k].round
  }

  /** A new block's logs carry the index of their own transaction row. */
  lemma NewLogMatches(s: Store, b: RawBlock, l: Log)
    requires Convertible(b) && Accepts(s, ModelsOf(b)) && FailuresEmitNothing(EthFacts(b.items))
    requires l in ModelsOf(b).logs
    ensures
      var txs := Merge(s.txs, ModelsOf(b).txs);
      SuccessStored(txs, l.txHash) && txs[l.txHash].round == l.round && txs[l.txHash].index == l.txIndex
  {
    var m := ModelsOf(b);
    var facts := EthFacts(b.items);
    LogsNumbered(facts, b.round, b.hash);
    var k :| 0 <= k < |m.logs| && m.logs[k] == l;
    assert m.txs[l.txIndex] == TxRow(facts, l.txIndex, b.round, b.hash);
    SuccessIsStored(s.txs, m.txs, l.txIndex);
  }

  lemma IndexingIsHarmless(s: Store, b: RawBlock)
    requires Linked(s) && Convertible(b) && Accepts(s, ModelsOf(b)) && FailuresEmitNothing(EthFacts(b.items))
    ensures Linked(StoreAfter(s, ModelsOf(b))) && NoneAdded(s, StoreAfter(s, ModelsOf(b)))
  {
    var m := ModelsOf(b);
    var s' := StoreAfter(s, m);
    AddLogsMeans(s.logs, m.logs);
    AddLogsKeys(s.logs, m.logs);
    forall k | k in s'.logs
      ensures k == Key(s'.logs[k]) && SuccessStored(s'.txs, k.0) && s'.txs[k.0].round == s'.logs[k].round
      ensures Mismatched(s', k) ==> Mismatched(s, k) && s'.logs[k] == s.logs[k]
    {
      if k in s.logs {
        WritesRespectSuccess(s.txs, m.txs, k.0);
      } else {
        var i :| 0 <= i < |m.logs| && Key(m.logs[i]) == k;
        NewLogMatches(s, b, m.logs[i]);
      }
    }
  }

  lemma PruningIsHarmless(s: Store, bound: nat)
    requires Linked(s)
    ensures Linked(DeleteBelow(s, bound)) && NoneAdded(s, DeleteBelow(s, bound))
  {
  }

  /** The indexer itself never leaves a mismatch: there are only those of older versions. */
  lemma ServiceLeavesNone(cfg: IndexerRuns.Config, events: seq<IndexerRuns.Event>, k: (Hash, nat))
    requires IndexerRuns.AllAdmissible(events)
    ensures Linked(IndexerRuns.Run(cfg, events).store) && !Mismatched(IndexerRuns.Run(cfg, events).store, k)
  {
    IndexerRuns.RowsHold(cfg, events);
  }

  // ---------------------------------------------------------------- the worker

  /** One turn of the loop: what happens beside it, then whether it is cancelled or its batch fails. */
  datatype Turn = Turn(others: seq<Interference>, cancelled: bool, dbOk: bool)

  datatype Outcome = AllFixed | Cancelled | Unfinished

  /** How many of the turns are neither cancelled nor fail. */
  function Successful(turns: seq<Turn>): nat {
    if turns == [] then 0 else
    var last := turns[|turns| - 1];
    Successful(turns[..|turns| - 1]) + (if last.dbOk && !last.cancelled then 1 else 0)
  }

  ghost predicate AllBelow(s: Store, bound: int) {
    forall k :: Mismatched(s, k) ==> s.logs[k].round <= bound
  }

  class Fixer {
    const backend: IndexBackend

    constructor (backend: IndexBackend)
      ensures this.backend == backend
    {
      this.backend := backend;
    }

    /** The highest round with a mismatch; 0 also stands for none. */
    method FindHighestMismatchedRound() returns (round: nat)
      ensures AllBelow(backend.store, round)
      ensures round > 0 ==> exists k :: Mismatched(backend.store, k) && backend.store.logs[k].round == round
    {
      var s := backend.store;
      var rest := s.logs.Keys;
      round := 0;
      while rest != {}
        invariant rest <= s.logs.Keys
        invariant forall k :: Mismatched(s, k) && k !in rest ==> s.logs[k].round <= round
        invariant round > 0 ==> exists k :: Mismatched(s, k) && s.logs[k].round == round
        decreases rest
      {
        var k :| k in rest;
        rest := rest - {k};
        if k.0 in s.txs && s.logs[k].txIndex != s.txs[k.0].index && s.logs[k].round > round {
          assert Mismatched(s, k);
          round := s.logs[k].round;
        }
      }
    }

    method Interfere(others: seq<Interference>)
      requires Linked(backend.store) && forall i :: 0 <= i < |others| ==> Admissible(others[i])
      modifies backend
      ensures Linked(backend.store) && NoneAdded(old(backend.store), backend.store)
    {
      for i := 0 to |others|
        invariant Linked(backend.store) && NoneAdded(old(backend.store), backend.store)
      {
        ghost var s := backend.store;
        match others[i] {
          case Index(b) =>
            assert Admissible(others[i]);
            var r := backend.StoreBlockData(b, true);
            if r.Some? {
              IndexingIsHarmless(s, b);
            }
          case PruneTo(bound) =>
            var ok := backend.Prune(bound, true, true);
            PruningIsHarmless(s, bound);
        }
      }
    }

    /**
     Walks down from the highest mismatched round in batches; a failed batch is tried again.  However many
     fail, it has ended after highest / BATCH_SIZE + 1 successful ones.  When it ends by itself mismatches
     are left exactly if there were some at the start and all of them in round 0, since 0 also stands for
     "none found".
     */
    method Start(turns: seq<Turn>) returns (outcome: Outcome, ghost highest: nat)
      requires Linked(backend.store)
      requires forall i, j :: 0 <= i < |turns| && 0 <= j < |turns[i].others| ==> Admissible(turns[i].others[j])
      modifies backend
      ensures AllBelow(old(backend.store), highest)
      ensures highest > 0 ==>
                exists k :: Mismatched(old(backend.store), k) && old(backend.store).logs[k].round == highest
      ensures Linked(backend.store) && NoneAdded(old(backend.store), backend.store)
      ensures highest == 0 ==> outcome.AllFixed? && backend.store == old(backend.store)
      ensures outcome.Unfinished? ==> Successful(turns) * BATCH_SIZE <= highest
      ensures outcome.AllFixed? ==>
                ((exists k :: Mismatched(backend.store, k)) <==>
                 && (exists k :: Mismatched(old(backend.store), k))
                 && (forall k :: Mismatched(old(backend.store), k) ==> old(backend.store).logs[k].round == 0))
      ensures outcome.AllFixed? && highest > 0 ==>
                var s := backend.store;
                forall k :: k in s.logs && k.0 in s.txs ==> s.logs[k].txIndex == s.txs[k.0].index
    {
      var top := FindHighestMismatchedRound();
      highest := top;
      if top == 0 {
        return AllFixed, highest;
      }
      var currentEndRound: nat := top;
      for t := 0 to |turns|
        invariant Linked(backend.store) && NoneAdded(old(backend.store), backend.store)
        invariant AllBelow(backend.store, currentEndRound)
        invariant currentEndRound + Successful(turns[..t]) * BATCH_SIZE <= highest
      {
        assert turns[..t + 1][..t] == turns[..t];
        Interfere(turns[t].others);
        if turns[t].cancelled {
          return Cancelled, highest;
        }
        var startRound := if currentEndRound >= BATCH_SIZE then currentEndRound - BATCH_SIZE + 1 else 0;
        if turns[t].dbOk {
          FixBatch(startRound, currentEndRound);
          if startRound == 0 {
            return AllFixed, highest;
          }
          currentEndRound := startRound - 1;
        }
      }
      assert turns[..|turns|] == turns;
      outcome := Unfinished;
    }

    method FixBatch(first: nat, last: nat)
      requires Linked(backend.store) && AllBelow(backend.store, last)
      modifies backend
      ensures backend.store == FixRange(old(backend.store), first, last)
      ensures Linked(backend.store) && NoneAdded(old(backend.store), backend.store)
      ensures AllBelow(backend.store, first as int - 1)
    {
      forall k
        ensures Mismatched(FixRange(backend.store, first, last), k) <==>
                Mismatched(backend.store, k) && !(first <= backend.store.logs[k].round <= last)
      {
        FixRangeExactly(backend.store, first, last, k);
      }
      backend.store := FixRange(backend.store, first, last);
    }
  }

  // ---------------------------------------------------------------- round 0

  /** One success of round 0 with index 0, and a log of it that says index 1. */
  const Misnumbered :=
    Store(map["t" := Row("t", true, 0, "a", 0, TxBody(0, 0, 0, 0, ""), [])], map[],
          map[("t", 0) := Log(Content("", [], ""), 0, "a", "t", 1, 0, false)], map[], None, None)

  lemma MisnumberedInRoundZero()
    ensures Linked(Misnumbered) && Mismatched(Misnumbered, ("t", 0)) && AllBelow(Misnumbered, 0)
  {
  }

  /** On this store the worker reports that all is fixed, whatever its turns would be, and has fixed nothing. */
  method RoundZeroIsLeft(turns: seq<Turn>) returns (outcome: Outcome, backend: IndexBackend)
    requires forall i, j :: 0 <= i < |turns| && 0 <= j < |turns[i].others| ==> Admissible(turns[i].others[j])
    ensures outcome.AllFixed? && Mismatched(backend.store, ("t", 0))
  {
    backend := new IndexBackend();
    backend.store := Misnumbered;
    MisnumberedInRoundZero();
    var fixer := new Fixer(backend);
    ghost var highest;
    outcome, highest := fixer.Start(turns);
  }
}
