/** What every schedule of the service guarantees about rounds and rows. */
module RunTheorems {
  import opened Model
  import opened Tables
  import opened BlockConversion
  import opened BlockProperties
  import opened IndexStore
  import opened StoreProperties
  import opened EmittedData
  import opened IndexerRuns

  // ---------------------------------------------------------------- rounds

  /** Only a new round is ever committed. */
  lemma CommitIsNew(w: World, b: RawBlock, dbOk: bool)
    requires RoundsInv(w) && w.worker.Indexing? && b.round == w.worker.round && Commits(w.store, b, dbOk)
    ensures NewRound(w)
  {
    if !NewRound(w) {
      OldRoundIsRejected(w, b);
    }
  }

  lemma StepRises(w: World, e: Event)
    requires RoundsInv(w)
    ensures
      var w' := Step(w, e);
      && w.history <= w'.history
      && (|w.history| == |w'.history| ==> w.store.continues == w'.store.continues)
      && (|w.history| < |w'.history| ==> NextAfter(w.store.continues) < NextAfter(w'.store.continues))
  {
    if e.Attempt? && w.worker.Indexing? && e.block.round == w.worker.round && Commits(w.store, e.block, e.dbOk) {
      CommitIsNew(w, e.block, e.dbOk);
    } else {
      assert Step(w, e).history == w.history;
    }
  }

  /** History is append-only, and each added block raises the last indexed round. */
  lemma {:induction false} LastIndexedRises(cfg: Config, events: seq<Event>, k: nat)
    requires k <= |events| && SafePlans(cfg, events)
    ensures
      var a, b := Run(cfg, events[..k]), Run(cfg, events);
      && a.history <= b.history
      && (|a.history| == |b.history| ==> a.store.continues == b.store.continues)
      && (|a.history| < |b.history| ==> NextAfter(a.store.continues) < NextAfter(b.store.continues))
    decreases |events|
  {
    if k == |events| {
      assert events[..k] == events;
    } else {
      var init := events[..|events| - 1];
      assert init[..k] == events[..k];
      LastIndexedRises(cfg, init, k);
      RoundsHold(cfg, init);
      StepRises(Run(cfg, init), events[|events| - 1]);
    }
  }

  /** This step plans a pass with this floor, which is the node's last retained round if no start is
      configured and the configured start otherwise; at most n blocks have been committed by then. */
  predicate Reads(w: World, e: Event, floor: nat, n: nat) {
    && e.Plan? && w.worker.Idle? && |w.history| <= n
    && (w.cfg.indexingStart == 0 ==> floor == e.nodeRetained)
    && (w.cfg.indexingStart != 0 ==> floor == w.cfg.indexingStart)
  }

  /** Some step of the schedule does. */
  ghost predicate WasRead(cfg: Config, events: seq<Event>, floor: nat, n: nat) {
    && events != []
    && (|| Reads(Run(cfg, events[..|events| - 1]), events[|events| - 1], floor, n)
        || WasRead(cfg, events[..|events| - 1], floor, n))
  }

  lemma {:induction false} WasReadBelow(cfg: Config, events: seq<Event>, floor: nat, m: nat, n: nat)
    requires WasRead(cfg, events, floor, m) && m <= n
    ensures WasRead(cfg, events, floor, n)
  {
    if !Reads(Run(cfg, events[..|events| - 1]), events[|events| - 1], floor, m) {
      WasReadBelow(cfg, events[..|events| - 1], floor, m, n);
    }
  }

  predicate InPass(w: World) { w.worker.Indexing? || w.worker.Committed? || w.worker.Published? }

  /** A pass keeps its floor and hands it to the blocks it commits. */
  lemma StepFloors(w: World, e: Event)
    ensures InPass(Step(w, e)) ==>
              || (InPass(w) && Step(w, e).worker.floor == w.worker.floor)
              || Reads(w, e, Step(w, e).worker.floor, |w.history|)
    ensures w.history <= Step(w, e).history
    ensures |Step(w, e).history| > |w.history| ==>
              && InPass(w) && |Step(w, e).history| == |w.history| + 1
              && Step(w, e).history[|w.history|].floor == w.worker.floor
  {
  }

  lemma {:induction false} PassFloorWasRead(cfg: Config, events: seq<Event>)
    requires InPass(Run(cfg, events))
    ensures WasRead(cfg, events, Run(cfg, events).worker.floor, |Run(cfg, events).history|)
  {
    var init, e := events[..|events| - 1], events[|events| - 1];
    var v, w := Run(cfg, init), Run(cfg, events);
    StepFloors(v, e);
    if InPass(v) && w.worker.floor == v.worker.floor {
      PassFloorWasRead(cfg, init);
      WasReadBelow(cfg, init, v.worker.floor, |v.history|, |w.history|);
    }
  }

  /** The floor of every block was the node's last retained round, or the configured start, at a planning
      step before the block was committed. */
  ghost predicate FloorsRead(cfg: Config, events: seq<Event>, h: seq<Indexed>) {
    forall i :: 0 <= i < |h| ==> WasRead(cfg, events, h[i].floor, i)
  }

  lemma FloorsGrow(cfg: Config, events: seq<Event>, h: seq<Indexed>, h': seq<Indexed>, floor: nat)
    requires events != [] && FloorsRead(cfg, events[..|events| - 1], h) && h <= h' && |h'| <= |h| + 1
    requires |h'| > |h| ==> h'[|h|].floor == floor && WasRead(cfg, events[..|events| - 1], floor, |h|)
    ensures FloorsRead(cfg, events, h')
  {
    forall i | 0 <= i < |h'| ensures WasRead(cfg, events, h'[i].floor, i) {
      if i < |h| {
        assert WasRead(cfg, events[..|events| - 1], h[i].floor, i);
      }
    }
  }

  lemma {:induction false} FloorsWereRead(cfg: Config, events: seq<Event>)
    ensures FloorsRead(cfg, events, Run(cfg, events).history)
  {
    if events != [] {
      var init, e := events[..|events| - 1], events[|events| - 1];
      var v := Run(cfg, init);
      FloorsWereRead(cfg, init);
      StepFloors(v, e);
      if InPass(v) {
        PassFloorWasRead(cfg, init);
      }
      FloorsGrow(cfg, events, v.history, Step(v, e).history, if InPass(v) then v.worker.floor else 0);
    }
  }

  /** No round is indexed twice, and a round that was passed over lay below the last retained round of the
      node, or the configured start, that a planning step read before. */
  lemma SkippedRoundsWereBelowFloor(cfg: Config, events: seq<Event>, i: nat, r: nat)
    requires SafePlans(cfg, events) && i < |Run(cfg, events).history|
    ensures
      var h := Run(cfg, events).history;
      && (forall j :: 0 <= j < |h| && RoundOf(h[j]) == RoundOf(h[i]) ==> j == i)
      && (r < RoundOf(h[i]) && (forall j :: 0 <= j < |h| ==> RoundOf(h[j]) != r) && (i == 0 || RoundOf(h[i - 1]) < r)
          ==> r < h[i].floor && WasRead(cfg, events, h[i].floor, i))
  {
    RoundsHold(cfg, events);
    FloorsWereRead(cfg, events);
    var h := Run(cfg, events).history;
    assert LastRound(h[..i]) == if i == 0 then None else Some(RoundOf(h[i - 1]));
  }

  // ---------------------------------------------------------------- what a pass is

  /** A round the next pass may start at: not below the floor and above the last indexed one. */
  predicate CanStartAt(w: World, e: Event, round: nat)
    requires e.Plan?
  {
    && (w.cfg.indexingStart == 0 ==> e.nodeRetained <= round)
    && (w.cfg.indexingStart != 0 ==> w.cfg.indexingStart <= round)
    && (w.cacheLast != 0 ==> w.cacheLast < round)
    && (w.cacheLast == 0 && w.store.continues.Some? ==> w.store.continues.value < round)
  }

  /** The round a pass may go up to. */
  predicate Reaches(w: World, e: Event, round: nat)
    requires e.Plan?
  {
    (w.cfg.indexingEnd == 0 ==> round <= e.nodeLatest) && (w.cfg.indexingEnd != 0 ==> round <= w.cfg.indexingEnd)
  }

  /** An idle worker starts at the lowest round it may start at, up to the highest the pass reaches; if that
      is none it waits, or has finished if the end is configured. */
  lemma PlanMeans(w: World, e: Event, r: nat)
    requires e.Plan? && w.worker.Idle?
    ensures
      var v := Step(w, e).worker;
      && (v.Indexing? ==>
            && CanStartAt(w, e, v.round) && Reaches(w, e, v.latest) && v.round <= v.latest
            && (CanStartAt(w, e, r) ==> v.round <= r) && (Reaches(w, e, r) ==> r <= v.latest)
            && Reads(w, e, v.floor, |w.history|))
      && (CanStartAt(w, e, r) && Reaches(w, e, r) ==> v.Indexing?)
      && (!v.Indexing? ==> v == if w.cfg.indexingEnd == 0 then Idle else Finished)
    ensures Step(w, e) == w.(worker := Step(w, e).worker)
  {
  }

  /** A pass goes on round by round to its end, and a failed attempt ends it. */
  lemma PassMeans(w: World, b: RawBlock, dbOk: bool)
    ensures
      var v := Step(w, Notify).worker;
      w.worker.Published? ==>
        && (w.worker.data.block.round < w.worker.latest ==>
              v == Indexing(w.worker.data.block.round + 1, w.worker.latest, w.worker.floor))
        && (w.worker.data.block.round >= w.worker.latest ==> v == Idle)
    ensures w.worker.Indexing? && b.round == w.worker.round && |Step(w, Attempt(b, dbOk)).history| == |w.history| ==>
              Step(w, Attempt(b, dbOk)) == w.(worker := Idle)
    ensures w.worker.Indexing? ==> Step(w, AttemptFails) == w.(worker := Idle)
  {
  }

  /** The pruner asks for everything more than the step below the last indexed round; its marker and its
      deletes are two steps, and a failure of either ends the pass. */
  lemma PruneMeans(w: World, last: nat)
    requires w.cacheLast != 0 ==> last == w.cacheLast
    requires w.cacheLast == 0 ==> w.store.continues == Some(last)
    ensures w.pruner.Waiting? ==>
              Step(w, ChoosePrune) ==
              if last > w.cfg.pruningStep then w.(pruner := Chosen(last - w.cfg.pruningStep)) else w
    ensures w.pruner.Chosen? ==>
              && Step(w, MarkPrune(true)).pruner == Marked(w.pruner.bound)
              && Step(w, MarkPrune(true)).store == w.store.(lastRetained := Some(w.pruner.bound))
              && Step(w, MarkPrune(false)) == w.(pruner := Waiting)
    ensures w.pruner.Marked? ==>
              && Step(w, DeletePrune(true)).pruner == Waiting
              && Step(w, DeletePrune(true)).store == DeleteBelow(w.store, w.pruner.bound)
              && Step(w, DeletePrune(false)) == w.(pruner := Waiting)
  {
  }

  // ---------------------------------------------------------------- what is stored

  ghost predicate RowsFrom<T>(table: Table<T>, floor: nat) {
    forall h :: h in table ==> table[h].round >= floor
  }

  ghost predicate BlocksFrom(blocks: map<Hash, Block>, floor: nat) {
    forall h :: h in blocks ==> blocks[h].round >= floor
  }

  ghost predicate LogsFrom(logs: map<(Hash, nat), Log>, floor: nat) {
    forall k :: k in logs ==> logs[k].round >= floor
  }

  /** No table holds a row of a round below the highest committed prune bound. */
  ghost predicate PrunedInv(w: World) {
    && RowsFrom(w.store.txs, w.deleted) && RowsFrom(w.store.receipts, w.deleted) && LogsFrom(w.store.logs, w.deleted)
    && BlocksFrom(w.store.blocks, w.deleted)
  }

  lemma NewRowsRound<T>(table: Table<T>, rows: seq<Row<T>>, round: nat, floor: nat)
    requires RowsFrom(table, floor) && round >= floor
    requires forall i :: 0 <= i < |rows| ==> rows[i].round == round
    ensures RowsFrom(Merge(table, rows), floor)
  {
    forall h | h in Merge(table, rows) ensures Merge(table, rows)[h].round >= floor {
      assert Lookup(Merge(table, rows), h) == StoredRow(table, rows, h);
      FirstSuccessMeans(rows, h);
      FirstWithMeans(rows, h);
    }
  }

  lemma NewLogsRound(logs: map<(Hash, nat), Log>, b: RawBlock, floor: nat)
    requires Convertible(b) && FreshLogs(logs, ModelsOf(b).logs) && LogsFrom(logs, floor) && b.round >= floor
    ensures LogsFrom(AddLogs(logs, ModelsOf(b).logs), floor)
  {
    var added := ModelsOf(b).logs;
    AddLogsKeys(logs, added);
    AddLogsMeans(logs, added);
    LogsNumbered(EthFacts(b.items), b.round, b.hash);
    forall k | k in AddLogs(logs, added) ensures AddLogs(logs, added)[k].round >= floor {
      if k !in logs {
        var i :| 0 <= i < |added| && Key(added[i]) == k;
      }
    }
  }

  lemma CommitKeepsPruned(w: World, b: RawBlock)
    requires PrunedInv(w) && w.worker.Indexing? && b.round >= w.deleted
    requires Convertible(b) && Accepts(w.store, ModelsOf(b))
    ensures PrunedInv(AfterCommit(w, b))
  {
    var m := ModelsOf(b);
    NewRowsRound(w.store.txs, m.txs, b.round, w.deleted);
    NewRowsRound(w.store.receipts, m.receipts, b.round, w.deleted);
    NewLogsRound(w.store.logs, b, w.deleted);
  }

  lemma DeleteKeepsPruned(s: Store, deleted: nat, bound: nat)
    requires RowsFrom(s.txs, deleted) && RowsFrom(s.receipts, deleted) && LogsFrom(s.logs, deleted)
    ensures
      var s' := DeleteBelow(s, bound);
      && RowsFrom(s'.txs, Max(deleted, bound)) && RowsFrom(s'.receipts, Max(deleted, bound))
      && LogsFrom(s'.logs, Max(deleted, bound))
  {
  }

  lemma StepKeepsPruned(w: World, e: Event)
    requires RoundsInv(w) && PrunedInv(w)
    ensures PrunedInv(Step(w, e))
  {
    if e.Attempt? && w.worker.Indexing? && e.block.round == w.worker.round && Commits(w.store, e.block, e.dbOk) {
      CommitIsNew(w, e.block, e.dbOk);
      CommitKeepsPruned(w, e.block);
    } else if e.DeletePrune? && w.pruner.Marked? && e.ok {
      DeleteKeepsPruned(w.store, w.deleted, w.pruner.bound);
    }
  }

  lemma {:induction false} PrunedHolds(cfg: Config, events: seq<Event>)
    requires SafePlans(cfg, events)
    ensures PrunedInv(Run(cfg, events))
  {
    if events != [] {
      var init := events[..|events| - 1];
      PrunedHolds(cfg, init);
      RoundsHold(cfg, init);
      StepKeepsPruned(Run(cfg, init), events[|events| - 1]);
    }
  }

  /** A committed block is complete in the tables if its round is not below the highest committed prune
      bound; otherwise, as long as rounds rise, not even its header is left. */
  lemma StoredExactlyAboveDeleted(cfg: Config, events: seq<Event>, i: nat)
    requires AllAdmissible(events) && i < |Run(cfg, events).history|
    ensures
      var w := Run(cfg, events);
      var bd := w.history[i].data;
      && (RoundOf(w.history[i]) >= w.deleted ==> Retained(w.store, bd))
      && (SafePlans(cfg, events) && RoundOf(w.history[i]) < w.deleted ==> BlockRow(bd.block) !in w.store.blocks.Values)
  {
    RowsHold(cfg, events);
    if SafePlans(cfg, events) {
      PrunedHolds(cfg, events);
    }
  }

  // ---------------------------------------------------------------- rows

  /** The two tables always have the same hashes with the same status, round, block hash and index. */
  lemma TablesAligned(cfg: Config, events: seq<Event>)
    requires AllAdmissible(events)
    ensures Aligned(Run(cfg, events).store.txs, Run(cfg, events).store.receipts)
  {
    RowsHold(cfg, events);
  }

  /** What can have become of a row: nothing, a success in place of a failure, or a prune. */
  ghost predicate Fate<T>(r: Row<T>, after: Option<Row<T>>, deleted: nat) {
    || after == Some(r)
    || (after.Some? && !r.success && after.value.success)
    || (after.None? && r.round < deleted)
  }

  lemma StepFate(w: World, e: Event, h: Hash)
    ensures h in w.store.txs ==> Fate(w.store.txs[h], Lookup(Step(w, e).store.txs, h), Step(w, e).deleted)
    ensures h in w.store.receipts ==>
              Fate(w.store.receipts[h], Lookup(Step(w, e).store.receipts, h), Step(w, e).deleted)
  {
    if e.Attempt? && w.worker.Indexing? && e.block.round == w.worker.round && Commits(w.store, e.block, e.dbOk) {
      if h in w.store.txs {
        WritesRespectSuccess(w.store.txs, ModelsOf(e.block).txs, h);
      }
      if h in w.store.receipts {
        WritesRespectSuccess(w.store.receipts, ModelsOf(e.block).receipts, h);
      }
    }
  }

  /** A success of this hash that no committed prune has passed is in the later table, unaltered. */
  ghost predicate SuccessKept<T>(table: Table<T>, later: Table<T>, h: Hash, deleted: nat) {
    SuccessStored(table, h) && table[h].round >= deleted ==> Lookup(later, h) == Some(table[h])
  }

  lemma FateKeepsSuccess<T>(table: Table<T>, later: Table<T>, last: Table<T>, h: Hash, deleted: nat, deleted': nat)
    requires SuccessKept(table, later, h, deleted) && deleted <= deleted'
    requires h in later ==> Fate(later[h], Lookup(last, h), deleted')
    ensures SuccessKept(table, last, h, deleted')
  {
  }

  /** Over every run and from any of its points on: the transaction and its receipt. */
  lemma {:induction false} SuccessIsFinal(cfg: Config, events: seq<Event>, k: nat, h: Hash)
    requires k <= |events|
    ensures
      var s, w := Run(cfg, events[..k]).store, Run(cfg, events);
      SuccessKept(s.txs, w.store.txs, h, w.deleted) && SuccessKept(s.receipts, w.store.receipts, h, w.deleted)
    decreases |events|
  {
    if k == |events| {
      assert events[..k] == events;
    } else {
      var init, e := events[..|events| - 1], events[|events| - 1];
      assert init[..k] == events[..k];
      SuccessIsFinal(cfg, init, k, h);
      var v, w := Run(cfg, init), Step(Run(cfg, init), e);
      StepFate(v, e, h);
      assert v.deleted <= w.deleted;
      var s := Run(cfg, events[..k]).store;
      FateKeepsSuccess(s.txs, v.store.txs, w.store.txs, h, v.deleted, w.deleted);
      FateKeepsSuccess(s.receipts, v.store.receipts, w.store.receipts, h, v.deleted, w.deleted);
    }
  }

  /** In a reachable state an attempt on a convertible block with a fresh hash fails, database faults
      aside, exactly when its round is not new or the block repeats a success; receipts and logs never
      cause a rejection of their own. */
  lemma RejectedOnlyForDuplicates(cfg: Config, events: seq<Event>, b: RawBlock)
    requires AllAdmissible(events) && SafePlans(cfg, events)
    requires Run(cfg, events).worker.Indexing? && b.round == Run(cfg, events).worker.round
    requires Convertible(b) && FailuresEmitNothing(EthFacts(b.items)) && b.hash !in Run(cfg, events).store.blocks
    ensures
      var w := Run(cfg, events);
      Accepts(w.store, ModelsOf(b)) <==>
      b.round >= NextAfter(w.store.continues) && !DuplicateSuccess(w.store.txs, ModelsOf(b).txs)
  {
    var w := Run(cfg, events);
    var m := ModelsOf(b);
    RoundsHold(cfg, events);
    RowsHold(cfg, events);
    if b.round < NextAfter(w.store.continues) {
      OldRoundIsRejected(w, b);
    } else {
      ModelsAligned(b);
      DuplicatesAligned(w.store.txs, m.txs, w.store.receipts, m.receipts);
      BlockIsFresh(w, b);
      if !DuplicateSuccess(w.store.txs, m.txs) {
        LogsAreFresh(w, b);
      }
    }
  }

  lemma LastIsHighest(h: seq<Indexed>, row: Block)
    requires Increasing(h) && BlockFromHistory(h, row)
    ensures row.round < NextAfter(LastRound(h))
  {
    var i :| 0 <= i < |h| && row == BlockRow(h[i].data.block);
    assert i == |h| - 1 || RoundOf(h[i]) < RoundOf(h[|h| - 1]);
  }

  lemma RoundIsFresh(s: Store, h: seq<Indexed>, round: nat)
    requires Increasing(h) && BlockRowsInv(s, h) && round >= NextAfter(LastRound(h))
    ensures forall n :: n in s.blocks ==> s.blocks[n].round != round
  {
    forall n | n in s.blocks ensures s.blocks[n].round != round {
      LastIsHighest(h, s.blocks[n]);
    }
  }

  lemma BlockIsFresh(w: World, b: RawBlock)
    requires HistoryInv(w) && BlockRowsInv(w.store, w.history) && b.round >= NextAfter(w.store.continues)
    requires Convertible(b) && b.hash !in w.store.blocks
    ensures FreshBlock(w.store.blocks, ModelsOf(b).block)
  {
    RoundIsFresh(w.store, w.history, b.round);
  }

  lemma LogsAreFresh(w: World, b: RawBlock)
    requires RowsInv(w) && Convertible(b) && FailuresEmitNothing(EthFacts(b.items))
    requires !DuplicateSuccess(w.store.txs, ModelsOf(b).txs)
    ensures FreshLogs(w.store.logs, ModelsOf(b).logs)
  {
    var m := ModelsOf(b);
    var facts := EthFacts(b.items);
    LogsNumbered(facts, b.round, b.hash);
    forall k | 0 <= k < |m.logs| ensures Key(m.logs[k]) !in w.store.logs {
      var l := m.logs[k];
      var t := m.txs[l.txIndex];
      assert t == TxRow(facts, l.txIndex, b.round, b.hash) && t.success;
      assert !RepeatsSuccess(w.store.txs, m.txs, l.txIndex);
      assert !SuccessStored(w.store.txs, l.txHash);
    }
  }
}
