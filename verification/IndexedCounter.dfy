/**
 The caching backend's counter of the last indexed round (indexer/backend_cache.go: Start,
 OnBlockIndexed, QueryLastIndexedRound): when it agrees with the store, and what a late assignment by
 Start can do.
 */
module IndexedCounter {
  import opened Model
  import opened BlockConversion
  import opened IndexStore
  import opened IndexerRuns
  import opened RunTheorems
  import opened Schedules

  // ---------------------------------------------------------------- agreement

  /** How one step changes whether the counter is behind: a commit leaves it behind until the observer is
      called, and Start leaves it behind if the round it has read is no longer the last one. */
  ghost predicate BehindAfter(w: World, e: Event, before: bool) {
    match e
    case Restart(_) => false
    case StartAssign =>
      if w.starter.StartRead? then w.starter.value != 0 && w.store.continues != Some(w.starter.value) else before
    case Attempt(_, _) => if |Step(w, e).history| > |w.history| then w.cacheLast != 0 else before
    case Notify => before && !w.worker.Published?
    case _ => before
  }

  ghost predicate Behind(cfg: Config, events: seq<Event>) {
    events != [] &&
    BehindAfter(Run(cfg, events[..|events| - 1]), events[|events| - 1], Behind(cfg, events[..|events| - 1]))
  }

  lemma CommitLags(w: World, b: RawBlock)
    requires RoundsInv(w) && w.worker.Indexing? && NewRound(w) && b.round == w.worker.round && Convertible(b)
    ensures Lags(AfterCommit(w, b)) <==> w.cacheLast != 0
  {
    assert AfterCommit(w, b).store.continues == Some(b.round);
  }

  lemma AttemptLags(w: World, e: Event)
    requires RoundsInv(w) && e.Attempt?
    ensures Lags(Step(w, e)) <==> BehindAfter(w, e, Lags(w))
  {
    if w.worker.Indexing? && e.block.round == w.worker.round && Commits(w.store, e.block, e.dbOk) {
      CommitIsNew(w, e.block, e.dbOk);
      CommitLags(w, e.block);
    }
  }

  lemma StepLags(w: World, e: Event)
    requires RoundsInv(w)
    ensures Lags(Step(w, e)) <==> BehindAfter(w, e, Lags(w))
  {
    if e.Attempt? {
      AttemptLags(w, e);
    } else if e.Notify? && w.worker.Published? {
      assert w.store.continues == Some(w.worker.data.block.round);
    }
  }

  /** The caching backend's answer is the store's except exactly between a commit and its observer call,
      and after Start has written a round that is no longer the last one, until the next observer call or
      restart. */
  lemma {:induction false} LastIndexedAgrees(cfg: Config, events: seq<Event>)
    requires SafePlans(cfg, events)
    ensures LastIndexed(Run(cfg, events)) == Run(cfg, events).store.continues <==> !Behind(cfg, events)
  {
    if events != [] {
      var init := events[..|events| - 1];
      LastIndexedAgrees(cfg, init);
      RoundsHold(cfg, init);
      StepLags(Run(cfg, init), events[|events| - 1]);
    }
  }

  // ---------------------------------------------------------------- a counter that never falls

  /** Start does not write less than what readers already see. */
  predicate Steady(w: World, e: Event) {
    e.StartAssign? && w.starter.StartRead? && w.starter.value != 0 ==>
      NextAfter(LastIndexed(w)) <= w.starter.value + 1
  }

  ghost predicate CounterNeverFalls(cfg: Config, events: seq<Event>) {
    events == [] ||
    (CounterNeverFalls(cfg, events[..|events| - 1]) && Steady(Run(cfg, events[..|events| - 1]), events[|events| - 1]))
  }

  /** The counter is behind only until the observer is called, and no prune is ahead of it. */
  ghost predicate SteadyInv(w: World) {
    && (Lags(w) ==> w.worker.Committed? || w.worker.Published?)
    && (!w.pruner.Waiting? ==> w.pruner.bound < NextAfter(LastIndexed(w)))
    && (w.deleted == 0 || w.deleted < NextAfter(LastIndexed(w)))
  }

  /** Readers of the counter never see it fall. */
  lemma SteadyRises(w: World, e: Event)
    requires RoundsInv(w) && Steady(w, e)
    ensures NextAfter(LastIndexed(w)) <= NextAfter(LastIndexed(Step(w, e)))
  {
    if e.Attempt? && w.worker.Indexing? && e.block.round == w.worker.round && Commits(w.store, e.block, e.dbOk) {
      CommitIsNew(w, e.block, e.dbOk);
      assert Step(w, e).store.continues == Some(e.block.round);
    }
  }

  lemma SteadyLags(w: World, e: Event)
    requires RoundsInv(w) && SteadyInv(w) && Steady(w, e) && Lags(Step(w, e))
    ensures Step(w, e).worker.Committed? || Step(w, e).worker.Published?
  {
    StepLags(w, e);
  }

  lemma StepKeepsSteady(w: World, e: Event)
    requires RoundsInv(w) && SteadyInv(w) && Steady(w, e)
    ensures SteadyInv(Step(w, e))
  {
    SteadyRises(w, e);
    if Lags(Step(w, e)) {
      SteadyLags(w, e);
    }
  }

  /** A counter that never falls makes all plans safe. */
  lemma {:induction false} SteadyHolds(cfg: Config, events: seq<Event>)
    requires CounterNeverFalls(cfg, events)
    ensures SafePlans(cfg, events) && SteadyInv(Run(cfg, events))
  {
    if events != [] {
      var init, e := events[..|events| - 1], events[|events| - 1];
      SteadyHolds(cfg, init);
      RoundsHold(cfg, init);
      StepKeepsSteady(Run(cfg, init), e);
    }
  }

  // ---------------------------------------------------------------- a start in time

  /** The highest floor that this process has read. */
  ghost function TopFloor(cfg: Config, events: seq<Event>): nat {
    if events == [] then 0
    else TopAfter(Run(cfg, events[..|events| - 1]), TopFloor(cfg, events[..|events| - 1]), events[|events| - 1])
  }

  /** No prune, committed or under way, has passed the round after this one. */
  predicate NotPassed(w: World, round: nat) { w.deleted <= round + 1 && PruneSpares(w, round + 1) }

  /** Start writes what it has read before a prune passes the next round, and while the counter is
      behind the node's last retained round does not fall. */
  predicate InTime(w: World, top: nat, e: Event) {
    match e
    case StartAssign => w.starter.StartRead? && w.starter.value != 0 ==> NotPassed(w, w.starter.value)
    case Plan(nodeRetained, _) => w.worker.Idle? && Lags(w) ==> top <= FloorRead(w, nodeRetained)
    case _ => true
  }

  ghost predicate StartsInTime(cfg: Config, events: seq<Event>) {
    events == [] ||
    (var init := events[..|events| - 1];
     StartsInTime(cfg, init) && InTime(Run(cfg, init), TopFloor(cfg, init), events[|events| - 1]))
  }

  ghost predicate WasIndexed(h: seq<Indexed>, round: nat) {
    exists i :: 0 <= i < |h| && RoundOf(h[i]) == round
  }

  /** From `floor` on, no round between `round` and the tip has been left out. */
  ghost predicate Dense(h: seq<Indexed>, round: nat, floor: nat) {
    forall r: nat :: round < r < NextAfter(LastRound(h)) && floor <= r ==> WasIndexed(h, r)
  }

  /** The counter, and what Start is about to write, are dense past rounds. */
  ghost predicate TimelyInv(w: World, top: nat) {
    && (w.cacheLast != 0 ==> Dense(w.history, w.cacheLast, top) && NotPassed(w, w.cacheLast))
    && (w.starter.StartRead? && w.starter.value != 0 ==> Dense(w.history, w.starter.value, top))
    && (InPass(w) ==> w.worker.floor <= top)
  }

  lemma DenseAppend(h: seq<Indexed>, x: Indexed, round: nat, floor: nat)
    requires Dense(h, round, floor) && x.floor <= floor
    requires NextAfter(LastRound(h)) <= RoundOf(x) <= Max(NextAfter(LastRound(h)), x.floor)
    ensures Dense(h + [x], round, floor)
  {
    var h' := h + [x];
    forall r: nat | round < r < NextAfter(LastRound(h')) && floor <= r ensures WasIndexed(h', r) {
      if r < NextAfter(LastRound(h)) {
        assert WasIndexed(h, r);
        var i :| 0 <= i < |h| && RoundOf(h[i]) == r;
        assert RoundOf(h'[i]) == r;
      } else {
        assert RoundOf(h'[|h|]) == r;
      }
    }
  }

  lemma CommitKeepsTimely(w: World, top: nat, b: RawBlock)
    requires RoundsInv(w) && TimelyInv(w, top) && w.worker.Indexing? && NewRound(w)
    requires b.round == w.worker.round && Convertible(b)
    ensures TimelyInv(AfterCommit(w, b), top)
  {
    var x := Indexed(Emitted(ModelsOf(b)), ModelsOf(b).logs, w.worker.floor);
    if w.cacheLast != 0 {
      DenseAppend(w.history, x, w.cacheLast, top);
    }
    if w.starter.StartRead? && w.starter.value != 0 {
      DenseAppend(w.history, x, w.starter.value, top);
    }
  }

  lemma NotifyKeepsTimely(w: World, top: nat)
    requires RoundsInv(w) && TimelyInv(w, top) && w.worker.Published?
    ensures TimelyInv(AfterNotify(w), top)
  {
    assert w.store.continues == Some(w.worker.data.block.round);
  }

  lemma StartKeepsTimely(w: World, top: nat, e: Event)
    requires RoundsInv(w) && TimelyInv(w, top) && InTime(w, top, e) && (e.StartQuery? || e.StartAssign?)
    ensures TimelyInv(Step(w, e), top)
  {
  }

  lemma PrunerKeepsTimely(w: World, top: nat, e: Event)
    requires TimelyInv(w, top) && (e.ChoosePrune? || e.MarkPrune? || e.DeletePrune?)
    ensures TimelyInv(Step(w, e), top)
  {
    var w' := Step(w, e);
    assert w'.history == w.history && w'.cacheLast == w.cacheLast && w'.starter == w.starter && w'.worker == w.worker;
  }

  lemma PlanKeepsTimely(w: World, top: nat, e: Event)
    requires TimelyInv(w, top) && e.Plan? && w.worker.Idle?
    ensures TimelyInv(Step(w, e), Max(top, FloorRead(w, e.nodeRetained)))
  {
  }

  lemma AttemptKeepsTimely(w: World, top: nat, e: Event)
    requires RoundsInv(w) && TimelyInv(w, top) && e.Attempt?
    ensures TimelyInv(Step(w, e), top)
  {
    if w.worker.Indexing? && e.block.round == w.worker.round && Commits(w.store, e.block, e.dbOk) {
      CommitIsNew(w, e.block, e.dbOk);
      CommitKeepsTimely(w, top, e.block);
    }
  }

  /** How one step changes the highest floor read. */
  function TopAfter(w: World, top: nat, e: Event): nat {
    match e
    case Restart(_) => 0
    case Plan(nodeRetained, _) => if w.worker.Idle? then Max(top, FloorRead(w, nodeRetained)) else top
    case _ => top
  }

  lemma StepKeepsTimely(w: World, top: nat, e: Event)
    requires RoundsInv(w) && TimelyInv(w, top) && InTime(w, top, e)
    ensures TimelyInv(Step(w, e), TopAfter(w, top, e))
  {
    match e {
      case StartQuery(_) => StartKeepsTimely(w, top, e);
      case StartAssign => StartKeepsTimely(w, top, e);
      case Attempt(_, _) => AttemptKeepsTimely(w, top, e);
      case ChoosePrune => PrunerKeepsTimely(w, top, e);
      case MarkPrune(_) => PrunerKeepsTimely(w, top, e);
      case DeletePrune(_) => PrunerKeepsTimely(w, top, e);
      case Plan(_, _) =>
        if w.worker.Idle? {
          PlanKeepsTimely(w, top, e);
        }
      case Notify =>
        if w.worker.Published? {
          NotifyKeepsTimely(w, top);
        }
      case _ =>
    }
  }

  lemma TimelyPlanIsSafe(w: World, top: nat, e: Event)
    requires RoundsInv(w) && TimelyInv(w, top) && InTime(w, top, e)
    ensures SafePlan(w, e)
  {
    if e.Plan? && w.worker.Idle? && Lags(w) && PlanPass(w, e.nodeRetained, e.nodeLatest).Indexing? {
      var r := PlanPass(w, e.nodeRetained, e.nodeLatest).round;
      if r < NextAfter(w.store.continues) {
        assert WasIndexed(w.history, r);
        var i :| 0 <= i < |w.history| && RoundOf(w.history[i]) == r;
        assert Lookup(w.store.blocks, w.history[i].data.block.hash) == Some(BlockRow(w.history[i].data.block));
      }
    }
  }

  /** A start in time makes all plans safe, even if what it writes is stale. */
  lemma {:induction false} TimelyStartIsSafe(cfg: Config, events: seq<Event>)
    requires StartsInTime(cfg, events)
    ensures SafePlans(cfg, events) && TimelyInv(Run(cfg, events), TopFloor(cfg, events))
  {
    if events != [] {
      var init, e := events[..|events| - 1], events[|events| - 1];
      TimelyStartIsSafe(cfg, init);
      RoundsHold(cfg, init);
      TimelyPlanIsSafe(Run(cfg, init), TopFloor(cfg, init), e);
      StepKeepsTimely(Run(cfg, init), TopFloor(cfg, init), e);
    }
  }

  // ---------------------------------------------------------------- a stale start halts indexing

  /** The counter says v, the store has gone further, and the block of the next round is still there. */
  ghost predicate Stuck(w: World, v: nat) {
    && w.starter.Started? && 0 < v == w.cacheLast && v + 1 < NextAfter(w.store.continues)
    && (w.worker.Idle? || w.worker.Finished? || (w.worker.Indexing? && w.worker.round == v + 1))
    && NotPassed(w, v)
    && RoundStored(w.store, v + 1)
  }

  /** No restart, and the node still retains the next round. */
  predicate Unhelpful(w: World, v: nat, e: Event) {
    match e
    case Restart(_) => false
    case Plan(nodeRetained, _) => FloorRead(w, nodeRetained) <= v + 1
    case _ => true
  }

  ghost predicate AllUnhelpful(w: World, v: nat, events: seq<Event>)
    decreases |events|
  {
    events == [] || (Unhelpful(w, v, events[0]) && AllUnhelpful(Step(w, events[0]), v, events[1..]))
  }

  lemma StuckAttempt(w: World, v: nat, b: RawBlock, dbOk: bool)
    requires Stuck(w, v) && w.worker.Indexing? && b.round == w.worker.round
    ensures !Commits(w.store, b, dbOk)
  {
  }

  lemma StuckDelete(w: World, v: nat, ok: bool)
    requires Stuck(w, v)
    ensures Stuck(Step(w, DeletePrune(ok)), v)
  {
    if w.pruner.Marked? && ok {
      var h :| h in w.store.blocks && w.store.blocks[h].round == v + 1;
      assert h in Step(w, DeletePrune(ok)).store.blocks;
    }
  }

  lemma StuckStep(w: World, v: nat, e: Event)
    requires Stuck(w, v) && Unhelpful(w, v, e)
    ensures Stuck(Step(w, e), v) && Step(w, e).history == w.history
  {
    if e.DeletePrune? {
      StuckDelete(w, v, e.ok);
    } else if e.Attempt? && w.worker.Indexing? && e.block.round == w.worker.round {
      StuckAttempt(w, v, e.block, e.dbOk);
    }
  }

  /** From then on no block is ever committed, whatever happens short of a restart or of the node giving
      up the rounds in question. */
  lemma {:induction false} StuckForever(w: World, v: nat, events: seq<Event>)
    requires Stuck(w, v) && AllUnhelpful(w, v, events)
    ensures RunFrom(w, events).history == w.history
    decreases |events|
  {
    if events != [] {
      StuckStep(w, v, events[0]);
      StuckForever(Step(w, events[0]), v, events[1..]);
    }
  }

  /** Start brings this about when it writes less than the last round to an idle worker, and no prune has
      passed the next one. */
  lemma StaleStartIsStuck(w: World)
    requires w.worker.Idle? && w.starter.StartRead? && NotPassed(w, w.starter.value)
    requires 0 < w.starter.value && w.starter.value + 1 < NextAfter(w.store.continues)
    requires RoundStored(w.store, w.starter.value + 1)
    ensures Stuck(Step(w, StartAssign), w.starter.value)
  {
  }

  /** A run of safe plans after which the service indexes nothing more. */
  lemma StaleStartHalts(more: seq<Event>)
    requires AllUnhelpful(Run(Unpruned, TwoBlocks + [StartAssign]), 1, more)
    ensures SafePlans(Unpruned, TwoBlocks + [StartAssign])
    ensures |Run(Unpruned, TwoBlocks + [StartAssign] + more).history| == 2
  {
    var w := TwoBlocksLead();
    LeadsOnByStep(Init(Unpruned), TwoBlocks, w, StartAssign);
    LeadsFromStart(Unpruned, TwoBlocks + [StartAssign], Step(w, StartAssign));
    assert w.store.blocks["b"].round == 2;
    StaleStartIsStuck(w);
    StuckForever(Step(w, StartAssign), 1, more);
    RunContinues(Unpruned, TwoBlocks + [StartAssign], more);
  }
}
