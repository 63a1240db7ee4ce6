/**
 The indexer service as interleaved steps over the store (indexer/indexer.go: indexingWorker,
 pruningWorker; indexer/backend.go: Prune; indexer/backend_cache.go: Start and the observer).

 `Run(cfg, events)` is the state after any finite schedule: planning and indexing attempts of the
 worker, the three steps of a stored block (commit, chain event, observer), the two steps of the
 caching backend's start (query, assign), the pruner's three steps (choose a bound, write the marker,
 delete), node and database failures at any point, and restarts with any configuration.  An event
 that is not enabled in the current state changes nothing.
 */
module IndexerRuns {
  import opened Model
  import opened Tables
  import opened BlockConversion
  import opened BlockProperties
  import opened IndexStore
  import opened StoreProperties
  import opened EmittedData

  datatype Config = Config(indexingStart: nat, indexingEnd: nat, pruningStep: nat)

  datatype Worker =
    | Idle
    | Indexing(round: nat, latest: nat, floor: nat)  // floor: the bound read when this pass was planned
    | Committed(data: BlockData, latest: nat, floor: nat)  // chain event not yet sent
    | Published(data: BlockData, latest: nat, floor: nat)  // observer not yet called
    | Finished

  datatype Pruner = Waiting | Chosen(bound: nat) | Marked(bound: nat)

  /** Where the caching backend's Start is; it runs beside the workers. */
  datatype Starter = StartPending | StartRead(value: nat) | Started

  /** A committed block: what the observers get, the logs of its chain event, and the floor under which
      rounds were passed over to reach it. */
  datatype Indexed = Indexed(data: BlockData, dbLogs: seq<Log>, floor: nat)

  /**
   `history` lists every block ever committed, `since` how many of them precede the last restart,
   `cacheLast` is the caching backend's last indexed round, `deleted` the highest committed prune bound.
   */
  datatype World = World(cfg: Config, store: Store, worker: Worker, pruner: Pruner, starter: Starter,
                         history: seq<Indexed>, since: nat, cacheLast: nat, deleted: nat)

  datatype Event =
    | Restart(cfg: Config)
    | StartQuery(ok: bool)
    | StartAssign
    | Plan(nodeRetained: nat, nodeLatest: nat)
    | Attempt(block: RawBlock, dbOk: bool)
    | AttemptFails
    | Publish
    | Notify
    | ChoosePrune
    | MarkPrune(ok: bool)
    | DeletePrune(ok: bool)

  function Init(cfg: Config): World {
    World(cfg, EmptyStore, Idle, Waiting, StartPending, [], 0, 0, 0)
  }

  function RoundOf(i: Indexed): nat { i.data.block.round }

  /** CachingBackend.QueryLastIndexedRound: its own counter unless that is zero. */
  function LastIndexed(w: World): Option<nat> {
    if w.cacheLast != 0 then Some(w.cacheLast) else w.store.continues
  }

  function NextAfter(o: Option<nat>): nat { if o.None? then 0 else o.value + 1 }

  /** The floor a planning step reads. */
  function FloorRead(w: World, nodeRetained: nat): nat {
    if w.cfg.indexingStart == 0 then nodeRetained else w.cfg.indexingStart
  }

  function PlanPass(w: World, nodeRetained: nat, nodeLatest: nat): Worker {
    var floor := FloorRead(w, nodeRetained);
    var startAt := Max(NextAfter(LastIndexed(w)), floor);
    var latest := if w.cfg.indexingEnd == 0 then nodeLatest else w.cfg.indexingEnd;
    if startAt <= latest then Indexing(startAt, latest, floor)
    else if w.cfg.indexingEnd != 0 then Finished
    else Idle
  }

  ghost predicate Commits(s: Store, b: RawBlock, dbOk: bool) {
    dbOk && Convertible(b) && Accepts(s, ModelsOf(b))
  }

  ghost function AfterCommit(w: World, b: RawBlock): World
    requires w.worker.Indexing? && Convertible(b)
  {
    var m := ModelsOf(b);
    w.(store := StoreAfter(w.store, m),
       history := w.history + [Indexed(Emitted(m), m.logs, w.worker.floor)],
       worker := Committed(Emitted(m), w.worker.latest, w.worker.floor))
  }

  /** The observer raises the counter, and the pass goes on. */
  function AfterNotify(w: World): World
    requires w.worker.Published?
  {
    var round := w.worker.data.block.round;
    w.(cacheLast := Max(w.cacheLast, round),
       worker := if round < w.worker.latest then Indexing(round + 1, w.worker.latest, w.worker.floor) else Idle)
  }

  ghost function Step(w: World, e: Event): World {
    match e
    case Restart(cfg) =>
      w.(cfg := cfg, worker := Idle, pruner := Waiting, starter := StartPending, since := |w.history|, cacheLast := 0)
    case StartQuery(ok) =>
      if !w.starter.StartPending? then w
      else w.(starter := StartRead(if ok && w.store.continues.Some? then w.store.continues.value else 0))
    case StartAssign =>
      if w.starter.StartRead? then w.(cacheLast := w.starter.value, starter := Started) else w
    case Plan(nodeRetained, nodeLatest) =>
      if w.worker.Idle? then w.(worker := PlanPass(w, nodeRetained, nodeLatest)) else w
    case Attempt(b, dbOk) =>
      if !w.worker.Indexing? || b.round != w.worker.round then w
      else if Commits(w.store, b, dbOk) then AfterCommit(w, b)
      else w.(worker := Idle)
    case AttemptFails =>
      if w.worker.Indexing? then w.(worker := Idle) else w
    case Publish =>
      if w.worker.Committed? then w.(worker := Published(w.worker.data, w.worker.latest, w.worker.floor)) else w
    case Notify =>
      if w.worker.Published? then AfterNotify(w) else w
    case ChoosePrune =>
      var last := LastIndexed(w);
      if w.pruner.Waiting? && last.Some? && last.value > w.cfg.pruningStep
      then w.(pruner := Chosen(last.value - w.cfg.pruningStep)) else w
    case MarkPrune(ok) =>
      if !w.pruner.Chosen? then w
      else if ok then w.(store := w.store.(lastRetained := Some(w.pruner.bound)), pruner := Marked(w.pruner.bound))
      else w.(pruner := Waiting)
    case DeletePrune(ok) =>
      if !w.pruner.Marked? then w
      else if ok then w.(store := DeleteBelow(w.store, w.pruner.bound), pruner := Waiting,
                         deleted := Max(w.deleted, w.pruner.bound))
      else w.(pruner := Waiting)
  }

  ghost function Run(cfg: Config, events: seq<Event>): World {
    if events == [] then Init(cfg) else Step(Run(cfg, events[..|events| - 1]), events[|events| - 1])
  }

  /** The hypothesis on inputs: failed transactions emit no logs. */
  ghost predicate Admissible(e: Event) {
    e.Attempt? && Convertible(e.block) ==> FailuresEmitNothing(EthFacts(e.block.items))
  }

  ghost predicate AllAdmissible(events: seq<Event>) {
    forall i :: 0 <= i < |events| ==> Admissible(events[i])
  }

  // ---------------------------------------------------------------- safe plans

  /** The counter is behind the store. */
  predicate Lags(w: World) { LastIndexed(w) != w.store.continues }

  ghost predicate RoundStored(s: Store, round: nat) {
    exists h :: h in s.blocks && s.blocks[h].round == round
  }

  predicate PruneSpares(w: World, round: nat) { !w.pruner.Waiting? ==> w.pruner.bound <= round }

  /** A round above the tip, or one that is stored and that no prune under way will delete. */
  ghost predicate Safe(w: World, round: nat) {
    round >= NextAfter(w.store.continues) || (RoundStored(w.store, round) && PruneSpares(w, round))
  }

  /** If this step plans a pass, it starts at a safe round. */
  ghost predicate SafePlan(w: World, e: Event) {
    e.Plan? && w.worker.Idle? && PlanPass(w, e.nodeRetained, e.nodeLatest).Indexing? ==>
      Safe(w, PlanPass(w, e.nodeRetained, e.nodeLatest).round)
  }

  /** All passes of the schedule do. */
  ghost predicate SafePlans(cfg: Config, events: seq<Event>) {
    events == [] ||
    (SafePlans(cfg, events[..|events| - 1]) && SafePlan(Run(cfg, events[..|events| - 1]), events[|events| - 1]))
  }

  // ---------------------------------------------------------------- invariant: phases and headers

  /** A block on its way to the observers is the last one, and of this process. */
  ghost predicate PhaseInv(w: World) {
    && w.since <= |w.history|
    && (w.worker.Committed? || w.worker.Published? ==>
          w.since < |w.history| && w.worker.data == w.history[|w.history| - 1].data)
  }

  /** Blocks not below the highest committed prune bound still have their row. */
  ghost predicate HeadersInv(blocks: map<Hash, Block>, h: seq<Indexed>, deleted: nat) {
    forall i :: 0 <= i < |h| && RoundOf(h[i]) >= deleted ==>
      Lookup(blocks, h[i].data.block.hash) == Some(BlockRow(h[i].data.block))
  }

  lemma StepKeepsPhase(w: World, e: Event)
    requires PhaseInv(w)
    ensures PhaseInv(Step(w, e))
  {
  }

  /** In every schedule. */
  lemma {:induction false} PhasesHold(cfg: Config, events: seq<Event>)
    ensures PhaseInv(Run(cfg, events))
  {
    if events != [] {
      PhasesHold(cfg, events[..|events| - 1]);
      StepKeepsPhase(Run(cfg, events[..|events| - 1]), events[|events| - 1]);
    }
  }

  lemma HeadersAppend(s: Store, m: Models, h: seq<Indexed>, x: Indexed, deleted: nat)
    requires HeadersInv(s.blocks, h, deleted) && FreshBlock(s.blocks, m.block) && x.data.block == m.block
    ensures HeadersInv(StoreAfter(s, m).blocks, h + [x], deleted)
  {
    var blocks, h' := StoreAfter(s, m).blocks, h + [x];
    forall i | 0 <= i < |h'| && RoundOf(h'[i]) >= deleted
      ensures Lookup(blocks, h'[i].data.block.hash) == Some(BlockRow(h'[i].data.block))
    {
      if i < |h| {
        assert Lookup(s.blocks, h[i].data.block.hash) == Some(BlockRow(h[i].data.block));
      }
    }
  }

  /** Of the blocks that no committed prune has passed, no two have the same round. */
  ghost predicate LiveDistinct(h: seq<Indexed>, deleted: nat) {
    forall i, j :: 0 <= i < j < |h| && RoundOf(h[i]) >= deleted ==> RoundOf(h[i]) != RoundOf(h[j])
  }

  ghost predicate LiveInv(w: World) {
    HeadersInv(w.store.blocks, w.history, w.deleted) && LiveDistinct(w.history, w.deleted)
  }

  lemma LiveAppend(blocks: map<Hash, Block>, b: Block, h: seq<Indexed>, x: Indexed, deleted: nat)
    requires HeadersInv(blocks, h, deleted) && LiveDistinct(h, deleted) && FreshBlock(blocks, b) && x.data.block == b
    ensures LiveDistinct(h + [x], deleted)
  {
    forall i | 0 <= i < |h| && RoundOf(h[i]) >= deleted ensures RoundOf(h[i]) != RoundOf(x) {
      assert Lookup(blocks, h[i].data.block.hash) == Some(BlockRow(h[i].data.block));
    }
  }

  lemma StepKeepsLive(w: World, e: Event)
    requires LiveInv(w)
    ensures LiveInv(Step(w, e))
  {
    if e.Attempt? && w.worker.Indexing? && e.block.round == w.worker.round && Commits(w.store, e.block, e.dbOk) {
      var m := ModelsOf(e.block);
      var x := Indexed(Emitted(m), m.logs, w.worker.floor);
      HeadersAppend(w.store, m, w.history, x, w.deleted);
      LiveAppend(w.store.blocks, m.block, w.history, x, w.deleted);
    } else if e.DeletePrune? && w.pruner.Marked? && e.ok {
      DeleteKeepsHeaders(w.store, w.history, w.deleted, w.pruner.bound);
    }
  }

  /** In every schedule. */
  lemma {:induction false} LiveHolds(cfg: Config, events: seq<Event>)
    ensures LiveInv(Run(cfg, events))
  {
    if events != [] {
      LiveHolds(cfg, events[..|events| - 1]);
      StepKeepsLive(Run(cfg, events[..|events| - 1]), events[|events| - 1]);
    }
  }

  lemma DeleteKeepsHeaders(s: Store, h: seq<Indexed>, deleted: nat, bound: nat)
    requires HeadersInv(s.blocks, h, deleted)
    ensures HeadersInv(DeleteBelow(s, bound).blocks, h, Max(deleted, bound))
  {
    forall i | 0 <= i < |h| && RoundOf(h[i]) >= Max(deleted, bound)
      ensures Lookup(DeleteBelow(s, bound).blocks, h[i].data.block.hash) == Some(BlockRow(h[i].data.block))
    {
      assert Lookup(s.blocks, h[i].data.block.hash) == Some(BlockRow(h[i].data.block));
    }
  }

  // ---------------------------------------------------------------- invariant: rounds

  ghost predicate Increasing(h: seq<Indexed>) {
    forall i, j :: 0 <= i < j < |h| ==> RoundOf(h[i]) < RoundOf(h[j])
  }

  function LastRound(h: seq<Indexed>): Option<nat> {
    if h == [] then None else Some(RoundOf(h[|h| - 1]))
  }

  /** Block i either follows its predecessor directly or is no higher than the floor in force. */
  ghost predicate GapsJustified(h: seq<Indexed>) {
    forall i :: 0 <= i < |h| ==> RoundOf(h[i]) <= Max(NextAfter(LastRound(h[..i])), h[i].floor)
  }

  ghost predicate HistoryInv(w: World) {
    Increasing(w.history) && GapsJustified(w.history) && w.store.continues == LastRound(w.history)
  }

  ghost predicate BoundsInv(w: World) {
    && (!w.pruner.Waiting? ==> w.pruner.bound < NextAfter(w.store.continues))
    && (w.deleted == 0 || w.deleted < NextAfter(w.store.continues))
  }

  /** The counter is never ahead, and behind only as long as the observer has not been called or after
      Start has written it. */
  ghost predicate CounterInv(w: World) {
    && (w.cacheLast == 0 || w.cacheLast < NextAfter(w.store.continues))
    && (w.starter.StartRead? ==> w.starter.value == 0 || w.starter.value < NextAfter(w.store.continues))
    && (Lags(w) ==> w.starter.Started? || w.worker.Committed? || w.worker.Published?)
  }

  /** The worker is at a new round, or, led astray by the counter, at one that is stored and stays so. */
  ghost predicate NewRound(w: World)
    requires w.worker.Indexing?
  {
    NextAfter(w.store.continues) <= w.worker.round <= Max(NextAfter(w.store.continues), w.worker.floor)
  }

  ghost predicate OldRound(w: World)
    requires w.worker.Indexing?
  {
    && w.starter.Started? && 0 < w.cacheLast < w.worker.round < NextAfter(w.store.continues)
    && RoundStored(w.store, w.worker.round) && PruneSpares(w, w.worker.round)
  }

  ghost predicate WorkerInv(w: World) {
    w.worker.Indexing? ==> w.worker.round <= w.worker.latest && (NewRound(w) || OldRound(w))
  }

  ghost predicate RoundsInv(w: World) {
    && PhaseInv(w) && HistoryInv(w) && BoundsInv(w) && CounterInv(w) && WorkerInv(w)
    && HeadersInv(w.store.blocks, w.history, w.deleted)
  }

  lemma HistoryAppend(h: seq<Indexed>, x: Indexed)
    requires Increasing(h) && GapsJustified(h)
    requires NextAfter(LastRound(h)) <= RoundOf(x) <= Max(NextAfter(LastRound(h)), x.floor)
    ensures Increasing(h + [x]) && GapsJustified(h + [x])
  {
    var h' := h + [x];
    forall i, j | 0 <= i < j < |h'| ensures RoundOf(h'[i]) < RoundOf(h'[j]) {
      if j == |h| {
        assert i == |h| - 1 || RoundOf(h[i]) < RoundOf(h[|h| - 1]);
      }
    }
    forall i | 0 <= i < |h'| ensures RoundOf(h'[i]) <= Max(NextAfter(LastRound(h'[..i])), h'[i].floor) {
      assert h'[..i] == h[..i];
      assert h[..|h|] == h;
    }
  }

  lemma CommitKeepsRounds(w: World, b: RawBlock)
    requires RoundsInv(w) && w.worker.Indexing? && NewRound(w) && b.round == w.worker.round
    requires Convertible(b) && FreshBlock(w.store.blocks, ModelsOf(b).block)
    ensures RoundsInv(AfterCommit(w, b))
  {
    var w', x := AfterCommit(w, b), Indexed(Emitted(ModelsOf(b)), ModelsOf(b).logs, w.worker.floor);
    HistoryAppend(w.history, x);
    HeadersAppend(w.store, ModelsOf(b), w.history, x, w.deleted);
    assert w'.store.continues == Some(b.round);
    assert w'.pruner == w.pruner && w'.deleted == w.deleted && w'.starter == w.starter && w'.cacheLast == w.cacheLast;
  }

  /** The unique index on rounds stops a worker that the counter has led astray. */
  lemma OldRoundIsRejected(w: World, b: RawBlock)
    requires w.worker.Indexing? && OldRound(w) && b.round == w.worker.round && Convertible(b)
    ensures !Accepts(w.store, ModelsOf(b))
  {
  }

  lemma AttemptKeepsRounds(w: World, b: RawBlock, dbOk: bool)
    requires RoundsInv(w)
    ensures RoundsInv(Step(w, Attempt(b, dbOk)))
  {
    if w.worker.Indexing? && b.round == w.worker.round && Commits(w.store, b, dbOk) {
      if !NewRound(w) {
        OldRoundIsRejected(w, b);
      }
      CommitKeepsRounds(w, b);
    }
  }

  /** A step of the worker or of Start that leaves history, store and pruner alone. */
  lemma QuietStepKeepsRounds(w: World, w': World)
    requires RoundsInv(w) && w'.history == w.history && w'.store == w.store
    requires w'.pruner == w.pruner && w'.deleted == w.deleted
    requires PhaseInv(w') && CounterInv(w') && WorkerInv(w')
    ensures RoundsInv(w')
  {
  }

  lemma NotifyKeepsRounds(w: World)
    requires RoundsInv(w) && w.worker.Published?
    ensures RoundsInv(AfterNotify(w))
  {
    var w' := AfterNotify(w);
    assert w.store.continues == Some(w.worker.data.block.round);
    assert w'.cacheLast == w.worker.data.block.round;
    QuietStepKeepsRounds(w, w');
  }

  lemma PlanKeepsRounds(w: World, nodeRetained: nat, nodeLatest: nat)
    requires RoundsInv(w) && w.worker.Idle? && SafePlan(w, Plan(nodeRetained, nodeLatest))
    ensures RoundsInv(Step(w, Plan(nodeRetained, nodeLatest)))
  {
    QuietStepKeepsRounds(w, Step(w, Plan(nodeRetained, nodeLatest)));
  }

  lemma StartKeepsRounds(w: World, e: Event)
    requires RoundsInv(w) && (e.StartQuery? || e.StartAssign?)
    ensures RoundsInv(Step(w, e))
  {
    QuietStepKeepsRounds(w, Step(w, e));
  }

  lemma RestartKeepsRounds(w: World, cfg: Config)
    requires RoundsInv(w)
    ensures RoundsInv(Step(w, Restart(cfg)))
  {
  }

  /** A step of the pruner has the bounds, the headers and a worker at an old round to answer for. */
  lemma PrunerStepKeepsRounds(w: World, w': World)
    requires RoundsInv(w) && w'.history == w.history && w'.worker == w.worker && w'.starter == w.starter
    requires w'.since == w.since && w'.cacheLast == w.cacheLast && w'.store.continues == w.store.continues
    requires BoundsInv(w') && HeadersInv(w'.store.blocks, w.history, w'.deleted)
    requires w.worker.Indexing? && OldRound(w) ==>
               RoundStored(w'.store, w.worker.round) && PruneSpares(w', w.worker.round)
    ensures RoundsInv(w')
  {
  }

  lemma ChooseKeepsRounds(w: World)
    requires RoundsInv(w)
    ensures RoundsInv(Step(w, ChoosePrune))
  {
    var w' := Step(w, ChoosePrune);
    if w' != w {
      assert BoundsInv(w');
      PrunerStepKeepsRounds(w, w');
    }
  }

  lemma MarkKeepsRounds(w: World, ok: bool)
    requires RoundsInv(w)
    ensures RoundsInv(Step(w, MarkPrune(ok)))
  {
    var w' := Step(w, MarkPrune(ok));
    if w' != w {
      assert w'.store.blocks == w.store.blocks && w'.deleted == w.deleted;
      assert BoundsInv(w');
      PrunerStepKeepsRounds(w, w');
    }
  }

  lemma DeleteSpares(s: Store, bound: nat, round: nat)
    requires RoundStored(s, round) && bound <= round
    ensures RoundStored(DeleteBelow(s, bound), round)
  {
    var h :| h in s.blocks && s.blocks[h].round == round;
    assert h in DeleteBelow(s, bound).blocks;
  }

  lemma DeleteKeepsRounds(w: World, ok: bool)
    requires RoundsInv(w)
    ensures RoundsInv(Step(w, DeletePrune(ok)))
  {
    if w.pruner.Marked? {
      DeleteKeepsHeaders(w.store, w.history, w.deleted, w.pruner.bound);
      if w.worker.Indexing? && OldRound(w) {
        DeleteSpares(w.store, w.pruner.bound, w.worker.round);
      }
    }
    PrunerStepKeepsRounds(w, Step(w, DeletePrune(ok)));
  }

  lemma WorkerKeepsRounds(w: World, e: Event)
    requires RoundsInv(w) && (e.AttemptFails? || e.Publish?)
    ensures RoundsInv(Step(w, e))
  {
    QuietStepKeepsRounds(w, Step(w, e));
  }

  lemma StepKeepsRounds(w: World, e: Event)
    requires RoundsInv(w) && SafePlan(w, e)
    ensures RoundsInv(Step(w, e))
  {
    match e {
      case Restart(cfg) => RestartKeepsRounds(w, cfg);
      case StartQuery(_) => StartKeepsRounds(w, e);
      case StartAssign => StartKeepsRounds(w, e);
      case Attempt(b, dbOk) => AttemptKeepsRounds(w, b, dbOk);
      case ChoosePrune => ChooseKeepsRounds(w);
      case MarkPrune(ok) => MarkKeepsRounds(w, ok);
      case DeletePrune(ok) => DeleteKeepsRounds(w, ok);
      case Plan(nodeRetained, nodeLatest) =>
        if w.worker.Idle? {
          PlanKeepsRounds(w, nodeRetained, nodeLatest);
        }
      case Notify =>
        if w.worker.Published? {
          NotifyKeepsRounds(w);
        }
      case _ => WorkerKeepsRounds(w, e);
    }
  }

  lemma {:induction false} RoundsHold(cfg: Config, events: seq<Event>)
    requires SafePlans(cfg, events)
    ensures RoundsInv(Run(cfg, events))
  {
    if events != [] {
      RoundsHold(cfg, events[..|events| - 1]);
      StepKeepsRounds(Run(cfg, events[..|events| - 1]), events[|events| - 1]);
    }
  }

  // ---------------------------------------------------------------- invariant: rows

  /** Everything of an emitted block is in the tables. */
  ghost predicate Retained(s: Store, bd: BlockData) {
    && Lookup(s.blocks, bd.block.hash) == Some(BlockRow(bd.block))
    && (forall t :: t in bd.uniqueTxes ==> Lookup(s.txs, t.hash) == Some(Persisted(t)))
    && (forall r :: r in bd.receipts ==> Lookup(s.receipts, r.hash) == Some(Persisted(r)))
    && (forall l :: l in DataLogs(bd) ==> Lookup(s.logs, Key(l)) == Some(l))
  }

  ghost predicate LogHasRow(s: Store, l: Log) {
    && SuccessStored(s.txs, l.txHash)
    && s.txs[l.txHash].round == l.round && s.txs[l.txHash].blockHash == l.blockHash
    && s.txs[l.txHash].index == l.txIndex
  }

  ghost predicate FromHistory(h: seq<Indexed>, l: Log) {
    exists i :: 0 <= i < |h| && l in DataLogs(h[i].data)
  }

  ghost predicate BlockFromHistory(h: seq<Indexed>, b: Block) {
    exists i :: 0 <= i < |h| && b == BlockRow(h[i].data.block)
  }

  ghost predicate LogRowsInv(s: Store, h: seq<Indexed>) {
    forall k :: k in s.logs ==> k == Key(s.logs[k]) && LogHasRow(s, s.logs[k]) && FromHistory(h, s.logs[k])
  }

  ghost predicate BlockRowsInv(s: Store, h: seq<Indexed>) {
    forall n :: n in s.blocks ==> BlockFromHistory(h, s.blocks[n])
  }

  ghost predicate DataInv(h: seq<Indexed>) {
    forall i :: 0 <= i < |h| ==> WellFormed(h[i].data) && h[i].dbLogs == DataLogs(h[i].data)
  }

  /** No block at or above the highest committed prune bound has lost anything. */
  ghost predicate RetainedInv(s: Store, h: seq<Indexed>, deleted: nat) {
    forall i :: 0 <= i < |h| && RoundOf(h[i]) >= deleted ==> Retained(s, h[i].data)
  }

  ghost predicate RowsInv(w: World) {
    && Aligned(w.store.txs, w.store.receipts)
    && LogRowsInv(w.store, w.history)
    && BlockRowsInv(w.store, w.history)
    && DataInv(w.history)
    && RetainedInv(w.store, w.history, w.deleted)
  }

  /** A committed block leaves earlier emitted blocks in place. */
  lemma CommitRetains(s: Store, m: Models, bd: BlockData)
    requires Accepts(s, m) && Retained(s, bd) && WellFormed(bd)
    ensures Retained(StoreAfter(s, m), bd)
  {
    forall t | t in bd.uniqueTxes ensures Lookup(Merge(s.txs, m.txs), t.hash) == Some(Persisted(t)) {
      assert OwnRow(t, bd) && Lookup(s.txs, t.hash) == Some(Persisted(t));
      WritesRespectSuccess(s.txs, m.txs, t.hash);
    }
    forall r | r in bd.receipts ensures Lookup(Merge(s.receipts, m.receipts), r.hash) == Some(Persisted(r)) {
      assert OwnRow(r, bd) && Lookup(s.receipts, r.hash) == Some(Persisted(r));
      WritesRespectSuccess(s.receipts, m.receipts, r.hash);
    }
    AddLogsMeans(s.logs, m.logs);
    forall l | l in DataLogs(bd) ensures Lookup(AddLogs(s.logs, m.logs), Key(l)) == Some(l) {
      assert Lookup(s.logs, Key(l)) == Some(l);
    }
    assert bd.block.hash in s.blocks;
  }

  /** ... and is itself complete in the tables. */
  lemma CommitStoresNew(s: Store, b: RawBlock)
    requires Sound(s, b)
    ensures Retained(StoreAfter(s, ModelsOf(b)), Emitted(ModelsOf(b)))
  {
    var m := ModelsOf(b);
    var bd := Emitted(m);
    SuccessesMeans(m.txs);
    SuccessesMeans(m.receipts);
    forall t | t in bd.uniqueTxes ensures Lookup(Merge(s.txs, m.txs), t.hash) == Some(Persisted(t)) {
      var i :| 0 <= i < |m.txs| && m.txs[i] == t;
      SuccessIsStored(s.txs, m.txs, i);
    }
    forall r | r in bd.receipts ensures Lookup(Merge(s.receipts, m.receipts), r.hash) == Some(Persisted(r)) {
      var i :| 0 <= i < |m.receipts| && m.receipts[i] == r;
      SuccessIsStored(s.receipts, m.receipts, i);
    }
    EmittedLogs(s, b);
    AddLogsMeans(s.logs, m.logs);
    forall l | l in DataLogs(bd) ensures Lookup(AddLogs(s.logs, m.logs), Key(l)) == Some(l) {
      var k :| 0 <= k < |m.logs| && m.logs[k] == l;
    }
  }

  /** A log of the new block names the row of a success that the block stores. */
  lemma NewLogHasRow(s: Store, b: RawBlock, l: Log)
    requires Sound(s, b) && l in ModelsOf(b).logs
    ensures LogHasRow(StoreAfter(s, ModelsOf(b)), l)
  {
    var m := ModelsOf(b);
    var facts := EthFacts(b.items);
    LogsNumbered(facts, b.round, b.hash);
    var k :| 0 <= k < |m.logs| && m.logs[k] == l;
    assert facts[l.txIndex].success;
    assert m.txs[l.txIndex] == TxRow(facts, l.txIndex, b.round, b.hash);
    SuccessIsStored(s.txs, m.txs, l.txIndex);
  }

  lemma CommitKeepsLogRows(s: Store, m: Models, l: Log)
    requires Accepts(s, m) && LogHasRow(s, l)
    ensures LogHasRow(StoreAfter(s, m), l)
  {
    WritesRespectSuccess(s.txs, m.txs, l.txHash);
  }

  lemma FromHistoryGrows(h: seq<Indexed>, x: Indexed, l: Log)
    requires FromHistory(h, l) || l in DataLogs(x.data)
    ensures FromHistory(h + [x], l)
  {
    var h' := h + [x];
    if l in DataLogs(x.data) {
      assert h'[|h|] == x;
    } else {
      var i :| 0 <= i < |h| && l in DataLogs(h[i].data);
      assert h'[i] == h[i];
    }
  }

  lemma CommitKeepsLogs(s: Store, h: seq<Indexed>, b: RawBlock, x: Indexed)
    requires LogRowsInv(s, h) && Sound(s, b) && x.data == Emitted(ModelsOf(b))
    ensures LogRowsInv(StoreAfter(s, ModelsOf(b)), h + [x])
  {
    var m := ModelsOf(b);
    var s' := StoreAfter(s, m);
    AddLogsMeans(s.logs, m.logs);
    AddLogsKeys(s.logs, m.logs);
    forall k | k in s'.logs
      ensures k == Key(s'.logs[k]) && LogHasRow(s', s'.logs[k]) && FromHistory(h + [x], s'.logs[k])
    {
      if k in s.logs {
        CommitKeepsLogRows(s, m, s.logs[k]);
        FromHistoryGrows(h, x, s.logs[k]);
      } else {
        var i :| 0 <= i < |m.logs| && Key(m.logs[i]) == k;
        NewLogHasRow(s, b, m.logs[i]);
        EmittedLogs(s, b);
        FromHistoryGrows(h, x, m.logs[i]);
      }
    }
  }

  lemma CommitKeepsBlocks(s: Store, h: seq<Indexed>, m: Models, x: Indexed)
    requires BlockRowsInv(s, h) && x.data == Emitted(m)
    ensures BlockRowsInv(StoreAfter(s, m), h + [x])
  {
    var s', h' := StoreAfter(s, m), h + [x];
    forall n | n in s'.blocks ensures BlockFromHistory(h', s'.blocks[n]) {
      if n == m.block.hash {
        assert h'[|h|].data.block == m.block;
      } else {
        var i :| 0 <= i < |h| && s.blocks[n] == BlockRow(h[i].data.block);
        assert h'[i] == h[i];
      }
    }
  }

  lemma CommitKeepsRetained(s: Store, h: seq<Indexed>, deleted: nat, b: RawBlock, x: Indexed)
    requires RetainedInv(s, h, deleted) && DataInv(h) && Sound(s, b)
    requires x.data == Emitted(ModelsOf(b)) && x.dbLogs == ModelsOf(b).logs
    ensures RetainedInv(StoreAfter(s, ModelsOf(b)), h + [x], deleted) && DataInv(h + [x])
  {
    var s', h' := StoreAfter(s, ModelsOf(b)), h + [x];
    forall i | 0 <= i < |h'| && RoundOf(h'[i]) >= deleted ensures Retained(s', h'[i].data) {
      if i < |h| {
        CommitRetains(s, ModelsOf(b), h[i].data);
      } else {
        CommitStoresNew(s, b);
      }
    }
    EmittedIsWellFormed(s, b);
    EmittedLogs(s, b);
  }

  lemma CommitKeepsRows(w: World, b: RawBlock)
    requires RowsInv(w) && w.worker.Indexing? && Sound(w.store, b)
    ensures RowsInv(AfterCommit(w, b))
  {
    var m := ModelsOf(b);
    var x := Indexed(Emitted(m), m.logs, w.worker.floor);
    ModelsAligned(b);
    MergeAligned(w.store.txs, m.txs, w.store.receipts, m.receipts);
    CommitKeepsLogs(w.store, w.history, b, x);
    CommitKeepsBlocks(w.store, w.history, m, x);
    CommitKeepsRetained(w.store, w.history, w.deleted, b, x);
  }

  lemma DeleteRetains(s: Store, bound: nat, bd: BlockData)
    requires Retained(s, bd) && WellFormed(bd) && bd.block.round >= bound
    ensures Retained(DeleteBelow(s, bound), bd)
  {
    var s' := DeleteBelow(s, bound);
    forall t | t in bd.uniqueTxes ensures Lookup(s'.txs, t.hash) == Some(Persisted(t)) {
      assert OwnRow(t, bd) && Lookup(s.txs, t.hash) == Some(Persisted(t));
    }
    forall r | r in bd.receipts ensures Lookup(s'.receipts, r.hash) == Some(Persisted(r)) {
      assert OwnRow(r, bd) && Lookup(s.receipts, r.hash) == Some(Persisted(r));
    }
    forall l | l in DataLogs(bd) ensures Lookup(s'.logs, Key(l)) == Some(l) {
      assert Lookup(s.logs, Key(l)) == Some(l);
    }
  }

  lemma DeleteKeepsLogs(s: Store, h: seq<Indexed>, bound: nat)
    requires LogRowsInv(s, h)
    ensures LogRowsInv(DeleteBelow(s, bound), h)
  {
  }

  lemma DeleteKeepsRetained(s: Store, h: seq<Indexed>, deleted: nat, bound: nat)
    requires RetainedInv(s, h, deleted) && DataInv(h)
    ensures RetainedInv(DeleteBelow(s, bound), h, Max(deleted, bound))
  {
    forall i | 0 <= i < |h| && RoundOf(h[i]) >= Max(deleted, bound) ensures Retained(DeleteBelow(s, bound), h[i].data) {
      DeleteRetains(s, bound, h[i].data);
    }
  }

  lemma DeleteKeepsRows(w: World, w': World, bound: nat)
    requires RowsInv(w)
    requires w' == w.(store := DeleteBelow(w.store, bound), pruner := Waiting, deleted := Max(w.deleted, bound))
    ensures RowsInv(w')
  {
    KeepAligned(w.store.txs, w.store.receipts, bound);
    DeleteKeepsLogs(w.store, w.history, bound);
    DeleteKeepsRetained(w.store, w.history, w.deleted, bound);
  }

  lemma StepKeepsRows(w: World, e: Event)
    requires RowsInv(w) && Admissible(e)
    ensures RowsInv(Step(w, e))
  {
    if e.Attempt? && w.worker.Indexing? && e.block.round == w.worker.round && Commits(w.store, e.block, e.dbOk) {
      CommitKeepsRows(w, e.block);
    } else if e.DeletePrune? && w.pruner.Marked? && e.ok {
      DeleteKeepsRows(w, Step(w, e), w.pruner.bound);
    }
  }

  lemma {:induction false} RowsHold(cfg: Config, events: seq<Event>)
    requires AllAdmissible(events)
    ensures RowsInv(Run(cfg, events))
  {
    if events != [] {
      RowsHold(cfg, events[..|events| - 1]);
      StepKeepsRows(Run(cfg, events[..|events| - 1]), events[|events| - 1]);
    }
  }
}
