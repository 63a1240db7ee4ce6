/**
 The step system at work: a process with its caching backend, worker, pruner and Start, whose methods
 do what the steps of IndexerRuns say (indexer/indexer.go: indexingWorker, pruningWorker;
 indexer/backend_cache.go: Start).
 */
module ServiceProcess {
  import opened Model
  import opened BlockConversion
  import opened IndexStore
  import opened IndexerRuns
  import opened Cache
  import opened CacheRefinement

  ghost predicate DistinctHashes(h: seq<Indexed>) {
    forall i, j :: 0 <= i < j < |h| ==> h[i].data.block.hash != h[j].data.block.hash
  }

  /** A block that is committed has a hash of its own. */
  ghost predicate NewHash(w: World, e: Event) {
    |Step(w, e).history| > |w.history| ==>
      var b := Step(w, e).history[|w.history|].data.block;
      forall i :: 0 <= i < |w.history| ==> w.history[i].data.block.hash != b.hash
  }

  ghost predicate AllNewHashes(cfg: Config, events: seq<Event>) {
    events == [] ||
    (AllNewHashes(cfg, events[..|events| - 1]) && NewHash(Run(cfg, events[..|events| - 1]), events[|events| - 1]))
  }

  lemma StepKeepsHashes(w: World, e: Event)
    requires DistinctHashes(w.history) && NewHash(w, e)
    ensures DistinctHashes(Step(w, e).history)
  {
  }

  /** Only the observer call and a restart change what the cache has been shown. */
  lemma ShownKept(w: World, e: Event)
    requires w.since <= Observed(w) && !e.Notify? && !e.Restart?
    ensures Step(w, e).since <= Observed(Step(w, e)) && Shown(Step(w, e)) == Shown(w)
  {
    assert Step(w, e).since == w.since && Observed(Step(w, e)) == Observed(w) && w.history <= Step(w, e).history;
  }

  /** The block on its way to the observer is next in line for the cache, and all that it will be shown. */
  ghost predicate CanNotify(w: World, max: nat)
    requires w.since <= Observed(w)
  {
    w.worker.Published? ==>
      && w.since <= Observed(AfterNotify(w)) && Shown(AfterNotify(w)) == Shown(w) + [w.worker.data]
      && FollowsAll(w.worker.data, CacheBlocks(w, max))
  }

  lemma NotifyEffect(w: World, max: nat)
    requires RoundsInv(w) && DistinctHashes(w.history)
    ensures w.since <= Observed(w) && CanNotify(w, max)
  {
    if w.worker.Published? {
      NotifyShowsBlock(w);
      forall k | 0 <= k < |CacheBlocks(w, max)| ensures Precedes(CacheBlocks(w, max)[k], w.worker.data) {
        PublishedBlockIsNext(w, max, k);
      }
    }
  }

  /** Where the next pass of the worker starts and ends. */
  method NextPass(ghost w: World, cfg: Config, last: Option<nat>, nodeRetained: nat, nodeLatest: nat)
    returns (worker: Worker)
    requires cfg == w.cfg && last == LastIndexed(w)
    ensures worker == PlanPass(w, nodeRetained, nodeLatest)
  {
    var startAt := if last.None? then 0 else last.value + 1;
    var floor := if cfg.indexingStart == 0 then nodeRetained else cfg.indexingStart;
    if floor > startAt {
      startAt := floor;
    }
    var latest := if cfg.indexingEnd == 0 then nodeLatest else cfg.indexingEnd;
    if startAt > latest {
      return if cfg.indexingEnd != 0 then Finished else Idle;
    }
    worker := Indexing(startAt, latest, floor);
  }

  class Process {
    const blockSize: nat
    var cb: CachingBackend
    var cfg: Config
    var worker: Worker
    var pruner: Pruner
    var starter: Starter

    /** Where the step system is. */
    ghost var world: World

    /** The fields agree with the step system, and the cache holds what its observer has been shown. */
    ghost predicate Valid()
      reads this, cb, cb.inner
    {
      && cfg == world.cfg && worker == world.worker && pruner == world.pruner && starter == world.starter
      && cb.inner.store == world.store && cb.lastIndexedRound == world.cacheLast
      && world.since <= Observed(world) && cb.history == Shown(world) && cb.Valid()
    }

    constructor (inner: IndexBackend, cfg: Config, blockSize: nat)
      requires inner.store == EmptyStore
      ensures Valid() && world == Init(cfg) && fresh(cb) && cb.inner == inner
    {
      this.blockSize := blockSize;
      cb := new CachingBackend(inner, blockSize);
      this.cfg, worker, pruner, starter, world := cfg, Idle, Waiting, StartPending, Init(cfg);
    }

    /** A new process on the same store. */
    method Restart(newCfg: Config)
      requires Valid()
      modifies this
      ensures Valid() && world == Step(old(world), IndexerRuns.Restart(newCfg))
      ensures fresh(cb) && cb.inner == old(cb.inner)
    {
      cb := new CachingBackend(cb.inner, blockSize);
      cfg, worker, pruner, starter := newCfg, Idle, Waiting, StartPending;
      world := Step(world, IndexerRuns.Restart(newCfg));
    }

    /** CachingBackend.Start: a query of the inner backend, and the write of its result. */
    method Start(e: Event)
      requires Valid() && (e.StartQuery? || e.StartAssign?)
      modifies this, cb
      ensures Valid() && world == Step(old(world), e) && cb == old(cb)
    {
      ghost var before := world;
      if e.StartQuery? && starter.StartPending? {
        var last := cb.inner.store.continues;
        starter := StartRead(if e.ok && last.Some? then last.value else 0);
      } else if e.StartAssign? && starter.StartRead? {
        cb.AssignLastIndexedRound(starter.value);
        starter := Started;
      }
      world := Step(before, e);
      ShownKept(before, e);
    }

    /** The head of the worker's loop: where to start and where to end. */
    method Plan(nodeRetained: nat, nodeLatest: nat)
      requires Valid()
      modifies this
      ensures Valid() && world == Step(old(world), IndexerRuns.Plan(nodeRetained, nodeLatest)) && cb == old(cb)
    {
      ghost var before := world;
      if worker.Idle? {
        var last := cb.QueryLastIndexedRound();
        worker := NextPass(before, cfg, last, nodeRetained, nodeLatest);
      }
      world := Step(before, IndexerRuns.Plan(nodeRetained, nodeLatest));
      ShownKept(before, IndexerRuns.Plan(nodeRetained, nodeLatest));
    }

    method Attempt(b: RawBlock, dbOk: bool)
      requires Valid()
      modifies this, cb.inner
      ensures Valid() && world == Step(old(world), IndexerRuns.Attempt(b, dbOk)) && cb == old(cb)
    {
      ghost var before := world;
      if worker.Indexing? && b.round == worker.round {
        var r := cb.inner.StoreBlockData(b, dbOk);
        worker := if r.Some? then Committed(r.value, worker.latest, worker.floor) else Idle;
      }
      world := Step(before, IndexerRuns.Attempt(b, dbOk));
      ShownKept(before, IndexerRuns.Attempt(b, dbOk));
    }

    /** The node fails, or the chain event goes out. */
    method Proceed(e: Event)
      requires Valid() && (e.AttemptFails? || e.Publish?)
      modifies this
      ensures Valid() && world == Step(old(world), e) && cb == old(cb)
    {
      ghost var before := world;
      if e.AttemptFails? && worker.Indexing? {
        worker := Idle;
      } else if e.Publish? && worker.Committed? {
        worker := Published(worker.data, worker.latest, worker.floor);
      }
      world := Step(before, e);
      ShownKept(before, e);
    }

    /** The observer call. */
    method Notify()
      requires Valid() && CanNotify(world, cb.maxCacheSize)
      modifies this, cb
      ensures Valid() && world == Step(old(world), IndexerRuns.Notify) && cb == old(cb)
    {
      if worker.Published? {
        assert Latest(cb.history, cb.maxCacheSize) == CacheBlocks(world, cb.maxCacheSize);
        cb.OnBlockIndexed(worker.data);
        var round := worker.data.block.round;
        worker := if round < worker.latest then Indexing(round + 1, worker.latest, worker.floor) else Idle;
      }
      world := Step(world, IndexerRuns.Notify);
    }

    /** The pruner's steps. */
    method PruneStep(e: Event)
      requires Valid() && (e.ChoosePrune? || e.MarkPrune? || e.DeletePrune?)
      modifies this, cb.inner
      ensures Valid() && world == Step(old(world), e) && cb == old(cb)
    {
      ghost var before := world;
      if e.ChoosePrune? && pruner.Waiting? {
        var last := cb.QueryLastIndexedRound();
        if last.Some? && last.value > cfg.pruningStep {
          pruner := Chosen(last.value - cfg.pruningStep);
        }
      } else if e.MarkPrune? && pruner.Chosen? {
        cb.inner.StoreLastRetainedRound(pruner.bound, e.ok);
        pruner := if e.ok then Marked(pruner.bound) else Waiting;
      } else if e.DeletePrune? && pruner.Marked? {
        cb.inner.DeleteRounds(pruner.bound, e.ok);
        pruner := Waiting;
      }
      world := Step(before, e);
      ShownKept(before, e);
    }

    /** Any step. */
    method Do(e: Event)
      requires Valid() && RoundsInv(world) && DistinctHashes(world.history)
      modifies this, cb, cb.inner
      ensures Valid() && world == Step(old(world), e)
      ensures (cb == old(cb) || fresh(cb)) && cb.inner == old(cb.inner)
    {
      NotifyEffect(world, cb.maxCacheSize);
      match e {
        case Restart(newCfg) => Restart(newCfg);
        case StartQuery(_) => Start(e);
        case StartAssign => Start(e);
        case Plan(nodeRetained, nodeLatest) => Plan(nodeRetained, nodeLatest);
        case Attempt(b, dbOk) => Attempt(b, dbOk);
        case AttemptFails => Proceed(e);
        case Publish => Proceed(e);
        case Notify => Notify();
        case _ => PruneStep(e);
      }
    }
  }

  /** A schedule carried out by a process: store, counter and cache are those of the step system, so that
      what is proved of `Run` and `CacheBlocks` holds of the objects. */
  method Execute(cfg: Config, events: seq<Event>, blockSize: nat) returns (p: Process)
    requires SafePlans(cfg, events) && AllNewHashes(cfg, events)
    ensures p.Valid() && p.world == Run(cfg, events)
  {
    var inner := new IndexBackend();
    p := new Process(inner, cfg, blockSize);
    for n := 0 to |events|
      invariant p.Valid() && p.world == Run(cfg, events[..n]) && fresh(p) && fresh(p.cb) && fresh(p.cb.inner)
      invariant DistinctHashes(p.world.history)
    {
      Ready(cfg, events, n);
      StepKeepsHashes(p.world, events[n]);
      p.Do(events[n]);
    }
    assert events[..|events|] == events;
  }

  lemma Ready(cfg: Config, events: seq<Event>, n: nat)
    requires SafePlans(cfg, events) && AllNewHashes(cfg, events) && n < |events|
    ensures RoundsInv(Run(cfg, events[..n])) && NewHash(Run(cfg, events[..n]), events[n])
    ensures Run(cfg, events[..n + 1]) == Step(Run(cfg, events[..n]), events[n])
  {
    SafePrefix(cfg, events, n);
    NewHashAt(cfg, events, n);
    RoundsHold(cfg, events[..n]);
    assert events[..n + 1][..n] == events[..n];
  }

  lemma {:induction false} SafePrefix(cfg: Config, events: seq<Event>, n: nat)
    requires SafePlans(cfg, events) && n <= |events|
    ensures SafePlans(cfg, events[..n])
    decreases |events|
  {
    if n < |events| {
      SafePrefix(cfg, events[..|events| - 1], n);
      assert events[..|events| - 1][..n] == events[..n];
    } else {
      assert events[..n] == events;
    }
  }

  lemma {:induction false} NewHashAt(cfg: Config, events: seq<Event>, n: nat)
    requires AllNewHashes(cfg, events) && n < |events|
    ensures NewHash(Run(cfg, events[..n]), events[n])
    decreases |events|
  {
    if n < |events| - 1 {
      NewHashAt(cfg, events[..|events| - 1], n);
      assert events[..|events| - 1][..n] == events[..n];
    }
  }
}
