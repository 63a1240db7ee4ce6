/**
 When the rounds of the committed blocks rise (indexer/indexer.go: indexingWorker; the unique index on
 rounds): exactly as long as every pass starts at a safe round.
 */
module RoundOrder {
  import opened Model
  import opened IndexerRuns
  import opened RunTheorems
  import opened Schedules

  // ---------------------------------------------------------------- an unsafe plan

  lemma AttemptBreaksOrder(w: World, hash: Hash)
    requires HistoryInv(w) && w.worker.Indexing? && w.worker.round < NextAfter(w.store.continues)
    requires !RoundStored(w.store, w.worker.round) && hash !in w.store.blocks
    ensures
      var attempt := [Attempt(EmptyBlock(w.worker.round, hash), true)];
      SafeFrom(w, attempt) && !Increasing(RunFrom(w, attempt).history)
  {
    var b := EmptyBlock(w.worker.round, hash);
    EmptyBlockCommits(w.store, w.worker.round, hash);
    var h, n := AfterCommit(w, b).history, |w.history| - 1;
    assert [Attempt(b, true)][1..] == [];
    assert RunFrom(w, [Attempt(b, true)]) == AfterCommit(w, b);
    assert h[n] == w.history[n] && RoundOf(h[n + 1]) == b.round;
  }

  /** A prune under way reaches the round the worker is at. */
  lemma DeleteBreaksOrder(w: World, hash: Hash)
    requires HistoryInv(w) && w.worker.Indexing? && w.worker.round < NextAfter(w.store.continues)
    requires w.pruner.Marked? && w.worker.round < w.pruner.bound
    requires hash in w.store.blocks ==> w.store.blocks[hash].round == w.worker.round
    ensures
      var more := [DeletePrune(true)] + [Attempt(EmptyBlock(w.worker.round, hash), true)];
      SafeFrom(w, more) && !Increasing(RunFrom(w, more).history)
  {
    var v := Step(w, DeletePrune(true));
    assert v.store.continues == w.store.continues && v.history == w.history && v.worker == w.worker;
    AttemptBreaksOrder(v, hash);
    assert [DeletePrune(true)][1..] == [];
    RunsOn(w, [DeletePrune(true)], [Attempt(EmptyBlock(w.worker.round, hash), true)]);
  }

  /** What turns an unsafe plan into a commit below the tip. */
  ghost function Breaking(w: World, round: nat, hash: Hash): seq<Event> {
    var attempt := [Attempt(EmptyBlock(round, hash), true)];
    if !RoundStored(w.store, round) then attempt
    else if w.pruner.Chosen? then [MarkPrune(true)] + ([DeletePrune(true)] + attempt)
    else [DeletePrune(true)] + attempt
  }

  lemma UnsafeRoundBreaksOrder(w: World, hash: Hash)
    requires HistoryInv(w) && w.worker.Indexing? && !Safe(w, w.worker.round)
    requires hash in w.store.blocks ==> w.store.blocks[hash].round == w.worker.round
    ensures
      var more := Breaking(w, w.worker.round, hash);
      SafeFrom(w, more) && !Increasing(RunFrom(w, more).history)
  {
    var round := w.worker.round;
    if !RoundStored(w.store, round) {
      AttemptBreaksOrder(w, hash);
    } else if w.pruner.Chosen? {
      var v := Step(w, MarkPrune(true));
      DeleteBreaksOrder(v, hash);
      assert [MarkPrune(true)][1..] == [];
      RunsOn(w, [MarkPrune(true)], [DeletePrune(true)] + [Attempt(EmptyBlock(round, hash), true)]);
    } else {
      DeleteBreaksOrder(w, hash);
    }
  }

  /** Every unsafe plan has a continuation, by the prune under way and one attempt, that commits a round
      which is not above the tip.  The block may be new or the deleted one itself. */
  lemma UnsafePlanBreaksOrder(w: World, e: Event, hash: Hash)
    requires HistoryInv(w) && !SafePlan(w, e)
    requires hash in w.store.blocks ==> w.store.blocks[hash].round == Step(w, e).worker.round
    ensures
      var v := Step(w, e);
      var more := Breaking(w, v.worker.round, hash);
      SafeFrom(v, more) && !Increasing(RunFrom(v, more).history)
  {
    var v := Step(w, e);
    assert v == w.(worker := v.worker);
    UnsafeRoundBreaksOrder(v, hash);
    assert Breaking(v, v.worker.round, hash) == Breaking(w, v.worker.round, hash);
  }

  // ---------------------------------------------------------------- the exact condition

  /** Whatever follows, as long as later plans are safe, rounds rise. */
  ghost predicate OrderIsKept(w: World) {
    forall more :: SafeFrom(w, more) ==> Increasing(RunFrom(w, more).history)
  }

  lemma {:induction false} LongerThanAll(keys: set<Hash>) returns (n: nat)
    ensures forall k :: k in keys ==> |k| < n
    decreases |keys|
  {
    n := 0;
    if keys != {} {
      var k :| k in keys;
      var m := LongerThanAll(keys - {k});
      n := Max(m, |k| + 1);
    }
  }

  lemma FreshHash(blocks: map<Hash, Block>) returns (h: Hash)
    ensures h !in blocks
  {
    var n := LongerThanAll(blocks.Keys);
    h := seq(n, _ => 'f');
  }

  /** After a schedule of safe plans, a further step keeps the order of rounds in all continuations if and
      only if it is a safe plan or no plan. */
  lemma OrderIsKeptExactly(cfg: Config, events: seq<Event>, e: Event)
    requires SafePlans(cfg, events)
    ensures OrderIsKept(Step(Run(cfg, events), e)) <==> SafePlan(Run(cfg, events), e)
  {
    var w := Run(cfg, events);
    if SafePlan(w, e) {
      RunAppend(cfg, events, e);
      forall more | SafeFrom(Step(w, e), more) ensures Increasing(RunFrom(Step(w, e), more).history) {
        RunContinues(cfg, events + [e], more);
        RoundsHold(cfg, events + [e] + more);
      }
    } else {
      var hash := FreshHash(w.store.blocks);
      RoundsHold(cfg, events);
      UnsafePlanBreaksOrder(w, e, hash);
      assert SafeFrom(Step(w, e), Breaking(w, Step(w, e).worker.round, hash));
    }
  }

  // ---------------------------------------------------------------- a late start

  /** If a committed prune has passed the round after the one that Start has read, then its assignment
      makes the next plan of an idle worker unsafe. */
  lemma LateStartIsUnsafe(w: World, nodeRetained: nat, nodeLatest: nat)
    requires RoundsInv(w) && PrunedInv(w) && w.worker.Idle? && w.cfg.indexingEnd == 0
    requires w.starter.StartRead? && 0 < w.starter.value && w.starter.value + 1 < w.deleted
    requires FloorRead(w, nodeRetained) <= w.starter.value + 1 <= nodeLatest
    ensures !SafePlan(Step(w, StartAssign), Plan(nodeRetained, nodeLatest))
  {
    var v, r := Step(w, StartAssign), w.starter.value + 1;
    assert PlanPass(v, nodeRetained, nodeLatest).Indexing? && PlanPass(v, nodeRetained, nodeLatest).round == r;
    assert !RoundStored(v.store, r);
  }

  /** So does a prune that is still under way. */
  lemma LateStartUnderPruneIsUnsafe(w: World, nodeRetained: nat, nodeLatest: nat)
    requires RoundsInv(w) && w.worker.Idle? && w.cfg.indexingEnd == 0
    requires w.starter.StartRead? && 0 < w.starter.value && !w.pruner.Waiting? && w.starter.value + 1 < w.pruner.bound
    requires FloorRead(w, nodeRetained) <= w.starter.value + 1 <= nodeLatest
    ensures !SafePlan(Step(w, StartAssign), Plan(nodeRetained, nodeLatest))
  {
    var v, r := Step(w, StartAssign), w.starter.value + 1;
    assert PlanPass(v, nodeRetained, nodeLatest).Indexing? && PlanPass(v, nodeRetained, nodeLatest).round == r;
  }

  // ---------------------------------------------------------------- runs that show it

  /** One more block, and a prune of everything below it, up to its marker. */
  const ThreeMarked: seq<Event> :=
    TwoBlocks + [Plan(0, 3)] + IndexEvents(C) + [ChoosePrune] + [MarkPrune(true)]

  ghost predicate ReadOneOfThree(w: World) {
    && w.cfg == Unpruned && w.worker.Idle? && w.pruner == Marked(3) && w.starter == StartRead(1)
    && w.store.continues == Some(3) && w.deleted == 0 && |w.history| == 3
    && w.history[1].data.block == Block("b", 2, Header(0, 0, 0), [])
    && "b" in w.store.blocks && w.store.blocks["b"].round == 2
  }

  lemma ThreeMarkedLead() returns (w: World)
    ensures Leads(Init(Unpruned), ThreeMarked, w) && ReadOneOfThree(w)
  {
    var w0 := Init(Unpruned);
    var w2 := TwoBlocksLead();
    var w3 := Step(w2, Plan(0, 3));
    LeadsOnByStep(w0, TwoBlocks, w2, Plan(0, 3));
    assert w3.worker == Indexing(3, 3, 1);
    EmptyBlockCommits(w3.store, 3, "c");
    BlockLeads(w3, C);
    var w4 := AfterBlock(w3, C);
    LeadsOn(w0, TwoBlocks + [Plan(0, 3)], w3, IndexEvents(C), w4);
    var events := TwoBlocks + [Plan(0, 3)] + IndexEvents(C);
    LeadsOnByStep(w0, events, w4, ChoosePrune);
    var w5 := Step(w4, ChoosePrune);
    assert w5.pruner == Chosen(3);
    LeadsOnByStep(w0, events + [ChoosePrune], w5, MarkPrune(true));
    w := Step(w5, MarkPrune(true));
  }

  /** The same block at two places, with another one between them. */
  ghost predicate Repeats(h: seq<Indexed>) {
    |h| == 4 && h[1].data.block == h[3].data.block && !Increasing(h)
  }

  lemma SecondCommit(v: World)
    requires v.worker == Indexing(2, 2, 1) && !RoundStored(v.store, 2) && "b" !in v.store.blocks
    requires |v.history| == 3 && v.history[1].data.block == Block("b", 2, Header(0, 0, 0), [])
    ensures Repeats(Step(v, Attempt(B, true)).history)
  {
    EmptyBlockCommits(v.store, 2, "b");
    var h := AfterCommit(v, B).history;
    assert Step(v, Attempt(B, true)).history == h && h[1] == v.history[1];
    assert RoundOf(h[1]) == RoundOf(h[3]);
  }

  /** Start comes after the prune has been committed: the plan of round 2, which is gone, commits it again. */
  lemma LateStartRepeatsRound()
    ensures SafePlans(Unpruned, ThreeMarked + [DeletePrune(true)] + [StartAssign])
    ensures Repeats(Run(Unpruned, ThreeMarked + [DeletePrune(true)] + [StartAssign] + [Plan(1, 2)]
                                  + [Attempt(B, true)]).history)
  {
    var w := ThreeMarkedLead();
    var events := ThreeMarked + [DeletePrune(true)] + [StartAssign];
    LeadsOnByStep(Init(Unpruned), ThreeMarked, w, DeletePrune(true));
    var v := Step(w, DeletePrune(true));
    LeadsOnByStep(Init(Unpruned), ThreeMarked + [DeletePrune(true)], v, StartAssign);
    LeadsFromStart(Unpruned, events, Step(v, StartAssign));
    RunAppend(Unpruned, events, Plan(1, 2));
    RunAppend(Unpruned, events + [Plan(1, 2)], Attempt(B, true));
    SecondCommit(Step(Step(v, StartAssign), Plan(1, 2)));
  }

  /** Start comes while the prune is under way: round 2 is stored when it is planned, and deleted before it
      is attempted. */
  lemma PruneUnderWayRepeatsRound()
    ensures SafePlans(Unpruned, ThreeMarked + [StartAssign])
    ensures RoundStored(Run(Unpruned, ThreeMarked + [StartAssign]).store, 2)
    ensures Repeats(Run(Unpruned, ThreeMarked + [StartAssign] + [Plan(1, 2)] + [DeletePrune(true)]
                                  + [Attempt(B, true)]).history)
  {
    var w := ThreeMarkedLead();
    var events := ThreeMarked + [StartAssign];
    LeadsOnByStep(Init(Unpruned), ThreeMarked, w, StartAssign);
    LeadsFromStart(Unpruned, events, Step(w, StartAssign));
    assert w.store.blocks["b"].round == 2;
    RunAppend(Unpruned, events, Plan(1, 2));
    RunAppend(Unpruned, events + [Plan(1, 2)], DeletePrune(true));
    RunAppend(Unpruned, events + [Plan(1, 2)] + [DeletePrune(true)], Attempt(B, true));
    SecondCommit(Step(Step(Step(w, StartAssign), Plan(1, 2)), DeletePrune(true)));
  }
}
