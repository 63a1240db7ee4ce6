/**
 The marker of the last retained round (indexer/backend.go: Prune, storeLastRetainedRound; the bound
 comes from indexer/indexer.go: pruningWorker): when it is true, and what makes it false.
 */
module RetainedMarker {
  import opened Model
  import opened IndexStore
  import opened IndexerRuns
  import opened RunTheorems
  import opened Schedules
  import opened IndexedCounter

  function Marker(s: Store): nat { if s.lastRetained.Some? then s.lastRetained.value else 0 }

  /** All rounds from the marker on that were indexed are stored. */
  ghost predicate MarkerTruthful(w: World) {
    forall i :: 0 <= i < |w.history| && RoundOf(w.history[i]) >= Marker(w.store) ==>
      Retained(w.store, w.history[i].data)
  }

  /** The marker is truthful exactly when no indexed round lies from it up to the highest committed prune
      bound. */
  lemma MarkerTruthfulExactly(cfg: Config, events: seq<Event>)
    requires AllAdmissible(events) && SafePlans(cfg, events)
    ensures
      var w := Run(cfg, events);
      MarkerTruthful(w) <==>
      forall i :: 0 <= i < |w.history| ==> !(Marker(w.store) <= RoundOf(w.history[i]) < w.deleted)
  {
    var w := Run(cfg, events);
    RowsHold(cfg, events);
    forall i | 0 <= i < |w.history|
      ensures RoundOf(w.history[i]) < w.deleted ==> !Retained(w.store, w.history[i].data)
    {
      StoredExactlyAboveDeleted(cfg, events, i);
    }
  }

  // ---------------------------------------------------------------- a marker that never falls

  predicate Falls(w: World, e: Event) {
    e.MarkPrune? && e.ok && w.pruner.Chosen? && w.pruner.bound < Marker(w.store)
  }

  ghost predicate MarkerNeverFalls(cfg: Config, events: seq<Event>) {
    events == [] ||
    (MarkerNeverFalls(cfg, events[..|events| - 1]) && !Falls(Run(cfg, events[..|events| - 1]), events[|events| - 1]))
  }

  ghost predicate MarkerInv(w: World) {
    w.deleted <= Marker(w.store) && (w.pruner.Marked? ==> Marker(w.store) == w.pruner.bound)
  }

  lemma StepKeepsMarker(w: World, e: Event)
    requires MarkerInv(w) && !Falls(w, e)
    ensures MarkerInv(Step(w, e))
  {
  }

  lemma {:induction false} MarkerHolds(cfg: Config, events: seq<Event>)
    requires MarkerNeverFalls(cfg, events)
    ensures MarkerInv(Run(cfg, events))
  {
    if events != [] {
      MarkerHolds(cfg, events[..|events| - 1]);
      StepKeepsMarker(Run(cfg, events[..|events| - 1]), events[|events| - 1]);
    }
  }

  /** A marker that never falls never promises too much, whether or not the deletes after it commit. */
  lemma MarkerIsTruthful(cfg: Config, events: seq<Event>)
    requires AllAdmissible(events) && MarkerNeverFalls(cfg, events)
    ensures MarkerTruthful(Run(cfg, events))
  {
    MarkerHolds(cfg, events);
    RowsHold(cfg, events);
  }

  /** No restart raises the pruning step. */
  ghost predicate StepNeverGrows(cfg: Config, events: seq<Event>) {
    events == [] ||
    (var w, e := Run(cfg, events[..|events| - 1]), events[|events| - 1];
     StepNeverGrows(cfg, events[..|events| - 1]) && (e.Restart? ==> e.cfg.pruningStep <= w.cfg.pruningStep))
  }

  /** The marker and the bounds chosen keep their distance from the counter. */
  ghost predicate DistanceInv(w: World) {
    var step := w.cfg.pruningStep;
    && (w.store.lastRetained.Some? ==> Marker(w.store) + step < NextAfter(LastIndexed(w)))
    && (!w.pruner.Waiting? ==> w.pruner.bound + step < NextAfter(LastIndexed(w)))
    && (w.pruner.Chosen? ==> Marker(w.store) <= w.pruner.bound)
  }

  lemma StepKeepsDistance(w: World, e: Event)
    requires RoundsInv(w) && DistanceInv(w) && Steady(w, e)
    requires e.Restart? ==> e.cfg.pruningStep <= w.cfg.pruningStep
    ensures DistanceInv(Step(w, e))
  {
    SteadyRises(w, e);
    assert e.Attempt? ==> Step(w, e).store.lastRetained == w.store.lastRetained;
  }

  lemma {:induction false} DistanceHolds(cfg: Config, events: seq<Event>)
    requires StepNeverGrows(cfg, events) && CounterNeverFalls(cfg, events)
    ensures DistanceInv(Run(cfg, events))
  {
    if events != [] {
      var init := events[..|events| - 1];
      DistanceHolds(cfg, init);
      SteadyHolds(cfg, init);
      RoundsHold(cfg, init);
      StepKeepsDistance(Run(cfg, init), events[|events| - 1]);
    }
  }

  /** It can only fall if a restart raises the pruning step or Start lowers the counter. */
  lemma {:induction false} SteadyMarker(cfg: Config, events: seq<Event>)
    requires StepNeverGrows(cfg, events) && CounterNeverFalls(cfg, events)
    ensures MarkerNeverFalls(cfg, events)
  {
    if events != [] {
      SteadyMarker(cfg, events[..|events| - 1]);
      DistanceHolds(cfg, events[..|events| - 1]);
    }
  }

  // ---------------------------------------------------------------- runs in which it falls

  const Mark: seq<Event> := [ChoosePrune] + [MarkPrune(true)]

  predicate CanMark(w: World) {
    w.pruner.Waiting? && LastIndexed(w).Some? && LastIndexed(w).value > w.cfg.pruningStep
  }

  /** A choice of the pruner and its marker. */
  function Marking(w: World): World
    requires CanMark(w)
  {
    var bound := LastIndexed(w).value - w.cfg.pruningStep;
    w.(store := w.store.(lastRetained := Some(bound)), pruner := Marked(bound))
  }

  lemma MarkLeads(w: World)
    requires CanMark(w)
    ensures Leads(w, Mark, Marking(w))
  {
    LeadsByStep(w, ChoosePrune);
    LeadsOnByStep(w, [ChoosePrune], Step(w, ChoosePrune), MarkPrune(true));
  }

  lemma StepAndMarkLead(w: World, e: Event)
    requires SafePlan(w, e) && Admissible(e) && CanMark(Step(w, e))
    ensures Leads(w, [e] + Mark, Marking(Step(w, e)))
  {
    LeadsByStep(w, e);
    MarkLeads(Step(w, e));
    LeadsOn(w, [e], Step(w, e), Mark, Marking(Step(w, e)));
  }

  /** A marker set below what a committed prune has deleted of the indexed rounds is false. */
  lemma LowMarkerLies(cfg: Config, events: seq<Event>, more: seq<Event>, w: World, i: nat)
    requires AllAdmissible(events) && SafePlans(cfg, events) && Leads(Run(cfg, events), more, w)
    requires i < |w.history| && Marker(w.store) <= RoundOf(w.history[i]) < w.deleted
    ensures AllAdmissible(events + more) && SafePlans(cfg, events + more)
    ensures !MarkerTruthful(Run(cfg, events + more))
  {
    LeadsFromRun(cfg, events, more, w);
    MarkerTruthfulExactly(cfg, events + more);
  }

  /** A restart with a step that reaches a deleted round makes the next marker false. */
  lemma LargerStepBreaksMarker(cfg: Config, events: seq<Event>, cfg': Config, i: nat)
    requires AllAdmissible(events) && SafePlans(cfg, events) && i < |Run(cfg, events).history|
    requires
      var w := Run(cfg, events);
      && w.store.continues.Some? && w.store.continues.value > cfg'.pruningStep
      && w.store.continues.value - cfg'.pruningStep <= RoundOf(w.history[i]) < w.deleted
    ensures !MarkerTruthful(Run(cfg, events + ([Restart(cfg')] + Mark)))
  {
    var w := Run(cfg, events);
    StepAndMarkLead(w, Restart(cfg'));
    LowMarkerLies(cfg, events, [Restart(cfg')] + Mark, Marking(Step(w, Restart(cfg'))), i);
  }

  /** So does Start, if what it has read is that low. */
  lemma StaleStartBreaksMarker(cfg: Config, events: seq<Event>, i: nat)
    requires AllAdmissible(events) && SafePlans(cfg, events) && i < |Run(cfg, events).history|
    requires
      var w := Run(cfg, events);
      && w.starter.StartRead? && w.starter.value > w.cfg.pruningStep && w.pruner.Waiting?
      && w.starter.value - w.cfg.pruningStep <= RoundOf(w.history[i]) < w.deleted
    ensures !MarkerTruthful(Run(cfg, events + ([StartAssign] + Mark)))
  {
    var w := Run(cfg, events);
    StepAndMarkLead(w, StartAssign);
    LowMarkerLies(cfg, events, [StartAssign] + Mark, Marking(Step(w, StartAssign)), i);
  }

  /** Two blocks, and a prune of the first. */
  const PrunedToTwo: seq<Event> := TwoBlocks + Mark + [DeletePrune(true)]

  ghost predicate OnePruned(w: World) {
    && w.cfg == Unpruned && w.worker.Idle? && w.pruner.Waiting? && w.starter == StartRead(1)
    && w.store.continues == Some(2) && w.deleted == 2 && |w.history| == 2 && RoundOf(w.history[0]) == 1
  }

  lemma PrunedToTwoLeads() returns (w: World)
    ensures Leads(Init(Unpruned), PrunedToTwo, w) && OnePruned(w)
  {
    var v := TwoBlocksLead();
    MarkLeads(v);
    var u := Marking(v);
    LeadsOn(Init(Unpruned), TwoBlocks, v, Mark, u);
    LeadsOnByStep(Init(Unpruned), TwoBlocks + Mark, u, DeletePrune(true));
    w := Step(u, DeletePrune(true));
  }

  /** A larger step after a restart: the marker says 1, and round 1 is gone. */
  lemma MarkerCanLie()
    ensures AllAdmissible(PrunedToTwo) && SafePlans(Unpruned, PrunedToTwo)
    ensures !MarkerTruthful(Run(Unpruned, PrunedToTwo + ([Restart(Config(1, 0, 1))] + Mark)))
  {
    var w := PrunedToTwoLeads();
    LeadsFromStart(Unpruned, PrunedToTwo, w);
    LargerStepBreaksMarker(Unpruned, PrunedToTwo, Config(1, 0, 1), 0);
  }

  /** The same with one step and without a restart: Start writes the old round it has read. */
  lemma StaleStartCanLie()
    ensures AllAdmissible(PrunedToTwo) && SafePlans(Unpruned, PrunedToTwo)
    ensures !MarkerTruthful(Run(Unpruned, PrunedToTwo + ([StartAssign] + Mark)))
  {
    var w := PrunedToTwoLeads();
    LeadsFromStart(Unpruned, PrunedToTwo, w);
    StaleStartBreaksMarker(Unpruned, PrunedToTwo, 0);
  }
}
