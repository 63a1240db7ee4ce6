/** Continuing a schedule step by step, and the schedules of empty blocks that concrete runs are made of. */
module Schedules {
  import opened Model
  import opened BlockConversion
  import opened IndexStore
  import opened IndexerRuns

  // ---------------------------------------------------------------- continuations

  ghost function RunFrom(w: World, events: seq<Event>): World
    decreases |events|
  {
    if events == [] then w else RunFrom(Step(w, events[0]), events[1..])
  }

  ghost predicate SafeFrom(w: World, events: seq<Event>)
    decreases |events|
  {
    events == [] || (SafePlan(w, events[0]) && SafeFrom(Step(w, events[0]), events[1..]))
  }

  lemma RunAppend(cfg: Config, events: seq<Event>, e: Event)
    ensures Run(cfg, events + [e]) == Step(Run(cfg, events), e)
    ensures SafePlans(cfg, events + [e]) <==> SafePlans(cfg, events) && SafePlan(Run(cfg, events), e)
  {
    assert (events + [e])[..|events|] == events;
  }

  lemma {:induction false} RunContinues(cfg: Config, events: seq<Event>, more: seq<Event>)
    ensures Run(cfg, events + more) == RunFrom(Run(cfg, events), more)
    ensures SafePlans(cfg, events + more) <==> SafePlans(cfg, events) && SafeFrom(Run(cfg, events), more)
    decreases |more|
  {
    if more == [] {
      assert events + more == events;
    } else {
      RunAppend(cfg, events, more[0]);
      RunContinues(cfg, events + [more[0]], more[1..]);
      assert events + [more[0]] + more[1..] == events + more;
    }
  }

  /** Admissible steps with safe plans that lead from one state to another. */
  ghost predicate Leads(w: World, events: seq<Event>, w': World) {
    SafeFrom(w, events) && AllAdmissible(events) && RunFrom(w, events) == w'
  }

  lemma LeadsByStep(w: World, e: Event)
    requires SafePlan(w, e) && Admissible(e)
    ensures Leads(w, [e], Step(w, e))
  {
    assert [e][1..] == [];
  }

  lemma {:induction false} RunsOn(w: World, a: seq<Event>, b: seq<Event>)
    ensures RunFrom(w, a + b) == RunFrom(RunFrom(w, a), b)
    ensures SafeFrom(w, a + b) <==> SafeFrom(w, a) && SafeFrom(RunFrom(w, a), b)
    decreases |a|
  {
    if a == [] {
      assert a + b == b;
    } else {
      RunsOn(Step(w, a[0]), a[1..], b);
      assert (a + b)[1..] == a[1..] + b;
    }
  }

  lemma LeadsOn(w: World, a: seq<Event>, v: World, b: seq<Event>, u: World)
    requires Leads(w, a, v) && Leads(v, b, u)
    ensures Leads(w, a + b, u)
  {
    RunsOn(w, a, b);
  }

  lemma LeadsOnByStep(w: World, a: seq<Event>, v: World, e: Event)
    requires Leads(w, a, v) && SafePlan(v, e) && Admissible(e)
    ensures Leads(w, a + [e], Step(v, e))
  {
    LeadsByStep(v, e);
    LeadsOn(w, a, v, [e], Step(v, e));
  }

  lemma LeadsFromRun(cfg: Config, events: seq<Event>, more: seq<Event>, w: World)
    requires SafePlans(cfg, events) && AllAdmissible(events) && Leads(Run(cfg, events), more, w)
    ensures Run(cfg, events + more) == w && SafePlans(cfg, events + more) && AllAdmissible(events + more)
  {
    RunContinues(cfg, events, more);
  }

  lemma LeadsFromStart(cfg: Config, events: seq<Event>, w: World)
    requires Leads(Init(cfg), events, w)
    ensures Run(cfg, events) == w && SafePlans(cfg, events) && AllAdmissible(events)
  {
    LeadsFromRun(cfg, [], events, w);
    assert [] + events == events;
  }

  // ---------------------------------------------------------------- blocks

  function EmptyBlock(round: nat, hash: Hash): RawBlock { RawBlock(round, hash, [], 0, 0) }

  /** An empty block meets no obstacle but the keys of the block table. */
  lemma EmptyBlockCommits(s: Store, round: nat, hash: Hash)
    requires hash !in s.blocks && !RoundStored(s, round)
    ensures Commits(s, EmptyBlock(round, hash), true) && Admissible(Attempt(EmptyBlock(round, hash), true))
    ensures StoreAfter(s, ModelsOf(EmptyBlock(round, hash))).blocks ==
            s.blocks[hash := Block(hash, round, Header(0, 0, 0), [])]
    ensures Emitted(ModelsOf(EmptyBlock(round, hash))).block == Block(hash, round, Header(0, 0, 0), [])
  {
    var m := ModelsOf(EmptyBlock(round, hash));
    assert EthFacts(EmptyBlock(round, hash).items) == [] && GasSum([]) == 0;
    assert m.txs == [] && m.receipts == [] && m.logs == [] && m.block.header == Header(0, 0, 0);
  }

  /** The three steps of a block. */
  function IndexEvents(b: RawBlock): seq<Event> { [Attempt(b, true), Publish, Notify] }

  ghost function AfterBlock(w: World, b: RawBlock): World
    requires w.worker.Indexing? && Convertible(b)
  {
    var m := ModelsOf(b);
    w.(store := StoreAfter(w.store, m), history := w.history + [Indexed(Emitted(m), m.logs, w.worker.floor)],
       cacheLast := Max(w.cacheLast, b.round),
       worker := if b.round < w.worker.latest then Indexing(b.round + 1, w.worker.latest, w.worker.floor) else Idle)
  }

  lemma BlockLeads(w: World, b: RawBlock)
    requires w.worker.Indexing? && w.worker.round == b.round
    requires Commits(w.store, b, true) && Admissible(Attempt(b, true))
    ensures Leads(w, IndexEvents(b), AfterBlock(w, b))
  {
    var e := Attempt(b, true);
    LeadsByStep(w, e);
    LeadsOnByStep(w, [e], Step(w, e), Publish);
    LeadsOnByStep(w, [e] + [Publish], Step(Step(w, e), Publish), Notify);
    assert [e] + [Publish] + [Notify] == IndexEvents(b);
  }

  // ---------------------------------------------------------------- two blocks

  const Unpruned := Config(1, 0, 0)

  const A := EmptyBlock(1, "a")
  const B := EmptyBlock(2, "b")
  const C := EmptyBlock(3, "c")

  /** Round 1 is indexed, Start reads it, and round 2 is indexed before Start writes what it has read. */
  const TwoBlocks: seq<Event> :=
    [Plan(0, 1)] + IndexEvents(A) + [StartQuery(true)] + [Plan(0, 2)] + IndexEvents(B)

  ghost predicate ReadOneOfTwo(w: World) {
    && w.cfg == Unpruned && w.worker.Idle? && w.pruner.Waiting? && w.starter == StartRead(1)
    && w.cacheLast == 2 && w.store.continues == Some(2) && w.deleted == 0
    && |w.history| == 2 && w.history[0].data.block == Block("a", 1, Header(0, 0, 0), [])
    && w.history[1].data.block == Block("b", 2, Header(0, 0, 0), [])
    && w.store.blocks == map["a" := Block("a", 1, Header(0, 0, 0), []), "b" := Block("b", 2, Header(0, 0, 0), [])]
  }

  lemma TwoBlocksLead() returns (w: World)
    ensures Leads(Init(Unpruned), TwoBlocks, w) && ReadOneOfTwo(w)
  {
    var w0 := Init(Unpruned);
    var w1 := Step(w0, Plan(0, 1));
    LeadsByStep(w0, Plan(0, 1));
    assert w1.worker == Indexing(1, 1, 1);
    EmptyBlockCommits(w1.store, 1, "a");
    BlockLeads(w1, A);
    var w2 := AfterBlock(w1, A);
    LeadsOn(w0, [Plan(0, 1)], w1, IndexEvents(A), w2);
    var w3 := Step(w2, StartQuery(true));
    LeadsOnByStep(w0, [Plan(0, 1)] + IndexEvents(A), w2, StartQuery(true));
    var w4 := Step(w3, Plan(0, 2));
    LeadsOnByStep(w0, [Plan(0, 1)] + IndexEvents(A) + [StartQuery(true)], w3, Plan(0, 2));
    assert w4.worker == Indexing(2, 2, 1);
    EmptyBlockCommits(w4.store, 2, "b");
    BlockLeads(w4, B);
    w := AfterBlock(w4, B);
    LeadsOn(w0, [Plan(0, 1)] + IndexEvents(A) + [StartQuery(true)] + [Plan(0, 2)], w4, IndexEvents(B), w);
  }
}
