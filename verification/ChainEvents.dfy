/**
 Indexer and event loop in one process (indexer/utils.go: the chain event sent after a commit;
 filters/subscribe.go, filters/event_system.go).  Only committed blocks emit events; they are dropped
 as long as no event system is attached, and when its channel is full.  A restart begins without one.
 */
module ChainEvents {
  import opened Model
  import opened EmittedData
  import opened CacheRefinement
  import opened LogCodec
  import opened LogFilters
  import opened PullAndPush
  import IndexerRuns
  import EventSystem

  /** `kept` lists the positions in the history of the blocks whose events were accepted since the restart,
      `lost` those of the blocks whose events were dropped. */
  datatype World = World(service: IndexerRuns.World, loop: EventSystem.World, attached: bool, kept: seq<nat>,
                         lost: set<nat>)

  datatype Event = Service(indexer: IndexerRuns.Event) | Attach | Loop(client: EventSystem.Event)

  function Init(cfg: IndexerRuns.Config): World {
    World(IndexerRuns.Init(cfg), EventSystem.Start, false, [], {})
  }

  function EventOf(x: IndexerRuns.Indexed): EventSystem.ChainEvent {
    EventSystem.ChainEvent(IndexerRuns.RoundOf(x), FromModels(x.dbLogs))
  }

  predicate HasRoom(w: World) { w.attached && |w.loop.queue| < EventSystem.CHAIN_EV_CHAN_SIZE }

  /** The event of block n is offered to the channel. */
  ghost function Offer(w: World, n: nat): World
    requires n < |w.service.history|
  {
    if HasRoom(w) then
      w.(loop := EventSystem.Step(w.loop, EventSystem.Emit(EventOf(w.service.history[n]))), kept := w.kept + [n])
    else w.(lost := w.lost + {n})
  }

  ghost function Step(w: World, e: Event): World {
    match e
    case Service(s) =>
      var service := IndexerRuns.Step(w.service, s);
      if s.Restart? then World(service, EventSystem.Start, false, [], {})
      else if s.Publish? && w.service.worker.Committed? && w.service.history != [] then
        Offer(w, |w.service.history| - 1).(service := service)
      else w.(service := service)
    case Attach => w.(attached := true)
    case Loop(l) => if !w.attached || l.Emit? then w else w.(loop := EventSystem.Step(w.loop, l))
  }

  ghost function Run(cfg: IndexerRuns.Config, events: seq<Event>): World {
    if events == [] then Init(cfg) else Step(Run(cfg, events[..|events| - 1]), events[|events| - 1])
  }

  /** The indexer's part of a schedule. */
  function Indexing(events: seq<Event>): seq<IndexerRuns.Event> {
    if events == [] then [] else
    var last := events[|events| - 1];
    Indexing(events[..|events| - 1]) + (if last.Service? then [last.indexer] else [])
  }

  lemma {:induction false} ServiceRuns(cfg: IndexerRuns.Config, events: seq<Event>)
    ensures Run(cfg, events).service == IndexerRuns.Run(cfg, Indexing(events))
  {
    if events != [] {
      var init, last := events[..|events| - 1], events[|events| - 1];
      ServiceRuns(cfg, init);
      if last.Service? {
        IndexerStep(cfg, Indexing(init), last.indexer);
      } else {
        assert Indexing(events) == Indexing(init);
      }
    }
  }

  lemma IndexerStep(cfg: IndexerRuns.Config, events: seq<IndexerRuns.Event>, e: IndexerRuns.Event)
    ensures IndexerRuns.Run(cfg, events + [e]) == IndexerRuns.Step(IndexerRuns.Run(cfg, events), e)
  {
    assert (events + [e])[..|events|] == events;
  }

  // ---------------------------------------------------------------- positions

  ghost predicate Ascending(s: seq<nat>) {
    forall i, j :: 0 <= i < j < |s| ==> s[i] < s[j]
  }

  /** Between two of its elements an ascending list without gaps counts up. */
  lemma {:induction false} CountsUp(s: seq<nat>, a: nat, k: nat)
    requires Ascending(s) && a <= k < |s|
    requires forall p :: s[a] <= p <= s[k] ==> p in s
    ensures s[k] == s[a] + (k - a)
    decreases k
  {
    if a < k {
      CountsUp(s, a, k - 1);
      var next := s[k - 1] + 1;
      assert next in s;
      var m :| 0 <= m < |s| && s[m] == next;
      assert k - 1 < m;
    }
  }

  lemma {:induction false} AtLeast(s: seq<nat>, lo: nat, k: nat)
    requires Ascending(s) && k < |s| && (forall i :: 0 <= i < |s| ==> lo <= s[i])
    ensures lo + k <= s[k]
  {
    if k > 0 {
      AtLeast(s, lo, k - 1);
    }
  }

  lemma {:induction false} AtMost(s: seq<nat>, hi: nat, k: nat)
    requires Ascending(s) && k < |s| && (forall i :: 0 <= i < |s| ==> s[i] < hi)
    ensures s[k] + (|s| - k) <= hi
    decreases |s| - k
  {
    if k + 1 < |s| {
      AtMost(s, hi, k + 1);
    }
  }

  // ---------------------------------------------------------------- events are history

  /** How many blocks of the history have been offered to the channel. */
  function Offered(s: IndexerRuns.World): nat {
    if s.worker.Committed? && s.history != [] then |s.history| - 1 else |s.history|
  }

  /** The events of blocks i..j-1. */
  function EventsOf(h: seq<IndexerRuns.Indexed>, i: nat, j: nat): (r: seq<EventSystem.ChainEvent>)
    requires i <= j <= |h|
    ensures |r| == j - i
  {
    seq(j - i, k requires 0 <= k < j - i => EventOf(h[i + k]))
  }

  ghost predicate Positions(kept: seq<nat>, lost: set<nat>, since: nat, offered: nat) {
    && Ascending(kept) && since <= offered
    && (forall k :: 0 <= k < |kept| ==> since <= kept[k] < offered)
    && (forall p :: p in lost ==> since <= p < offered && p !in kept)
    && (forall p :: since <= p < offered ==> p in kept || p in lost)
  }

  ghost predicate EventsAt(accepted: seq<EventSystem.ChainEvent>, h: seq<IndexerRuns.Indexed>, kept: seq<nat>) {
    |accepted| == |kept| && forall k :: 0 <= k < |kept| ==> kept[k] < |h| && accepted[k] == EventOf(h[kept[k]])
  }

  /** The blocks committed since the restart are either lost or kept, and the events taken and waiting are
      those of the kept ones, in order. */
  ghost predicate Accepted(w: World) {
    && Positions(w.kept, w.lost, w.service.since, Offered(w.service))
    && EventsAt(w.loop.taken + w.loop.queue, w.service.history, w.kept)
  }

  lemma PositionsGrow(kept: seq<nat>, lost: set<nat>, since: nat, n: nat)
    requires Positions(kept, lost, since, n)
    ensures Positions(kept + [n], lost, since, n + 1) && Positions(kept, lost + {n}, since, n + 1)
  {
    assert forall p :: p in kept + [n] <==> p in kept || p == n;
  }

  lemma OfferKeepsAccepted(w: World, n: nat)
    requires n < |w.service.history| && Positions(w.kept, w.lost, w.service.since, n)
    requires EventsAt(w.loop.taken + w.loop.queue, w.service.history, w.kept)
    ensures
      var w' := Offer(w, n);
      && Positions(w'.kept, w'.lost, w.service.since, n + 1)
      && EventsAt(w'.loop.taken + w'.loop.queue, w.service.history, w'.kept)
  {
    var ev := EventOf(w.service.history[n]);
    PositionsGrow(w.kept, w.lost, w.service.since, n);
    assert w.loop.taken + (w.loop.queue + [ev]) == w.loop.taken + w.loop.queue + [ev];
  }

  lemma PublishStep(w: World)
    requires w.service.worker.Committed? && w.service.history != []
    ensures
      var s, w' := w.service, Step(w, Service(IndexerRuns.Publish));
      && w'.service.history == s.history && w'.service.since == s.since && w'.service.worker.Published?
      && w'.loop == Offer(w, |s.history| - 1).loop && w'.kept == Offer(w, |s.history| - 1).kept
      && w'.lost == Offer(w, |s.history| - 1).lost
  {
  }

  /** An event is accepted exactly if an event system is attached and fewer than ten events are waiting. */
  lemma OfferMeans(w: World)
    requires w.service.worker.Committed? && w.service.history != []
    ensures
      var n, w' := |w.service.history| - 1, Step(w, Service(IndexerRuns.Publish));
      if w.attached && |w.loop.queue| < 10 then
        w'.kept == w.kept + [n] && w'.lost == w.lost && w'.loop.taken == w.loop.taken &&
        w'.loop.queue == w.loop.queue + [EventOf(w.service.history[n])]
      else w'.kept == w.kept && w'.lost == w.lost + {n} && w'.loop == w.loop
  {
  }

  /** A step of the indexer that neither restarts nor publishes offers nothing. */
  lemma QuietServiceStep(s: IndexerRuns.World, e: IndexerRuns.Event)
    requires !e.Restart? && !(e.Publish? && s.worker.Committed?) && s.since <= Offered(s)
    ensures
      var s' := IndexerRuns.Step(s, e);
      s'.since == s.since && Offered(s') == Offered(s) && s.history <= s'.history
  {
  }

  lemma QuietStepKeepsAccepted(w: World, e: IndexerRuns.Event)
    requires Accepted(w) && !e.Restart? && !(e.Publish? && w.service.worker.Committed?)
    ensures Accepted(Step(w, Service(e)))
  {
    QuietServiceStep(w.service, e);
  }

  lemma ServiceStepKeepsAccepted(w: World, e: IndexerRuns.Event)
    requires Accepted(w) && IndexerRuns.PhaseInv(w.service)
    ensures Accepted(Step(w, Service(e)))
  {
    var s := w.service;
    if e.Publish? && s.worker.Committed? {
      PublishStep(w);
      OfferKeepsAccepted(w, |s.history| - 1);
    } else if !e.Restart? {
      QuietStepKeepsAccepted(w, e);
    }
  }

  lemma LoopStepKeepsAccepted(w: World, e: EventSystem.Event)
    requires Accepted(w)
    ensures Accepted(Step(w, Loop(e)))
  {
    var loop := EventSystem.Step(w.loop, e);
    assert e.Emit? || loop.taken + loop.queue == w.loop.taken + w.loop.queue;
  }

  lemma LoopStepKeepsInv(w: World, e: Event)
    requires EventSystem.Inv(w.loop)
    ensures EventSystem.Inv(Step(w, e).loop)
  {
    if e.Loop? {
      EventSystem.StepKeepsInv(w.loop, e.client);
    } else if e.Service? && e.indexer.Publish? && w.service.history != [] {
      EventSystem.StepKeepsInv(w.loop, EventSystem.Emit(EventOf(w.service.history[|w.service.history| - 1])));
    }
  }

  lemma {:induction false} AcceptedHolds(cfg: IndexerRuns.Config, events: seq<Event>)
    ensures Accepted(Run(cfg, events)) && EventSystem.Inv(Run(cfg, events).loop)
  {
    if events != [] {
      var init, last := events[..|events| - 1], events[|events| - 1];
      AcceptedHolds(cfg, init);
      LoopStepKeepsInv(Run(cfg, init), last);
      if last.Loop? {
        LoopStepKeepsAccepted(Run(cfg, init), last.client);
      } else if last.Service? {
        ServiceRuns(cfg, init);
        IndexerRuns.PhasesHold(cfg, Indexing(init));
        ServiceStepKeepsAccepted(Run(cfg, init), last.indexer);
      }
    }
  }

  lemma NoneLostCounts(kept: seq<nat>, since: nat, offered: nat)
    requires Positions(kept, {}, since, offered)
    ensures |kept| == offered - since
  {
    if kept != [] {
      AtMost(kept, offered, 0);
    }
    if since < offered {
      var last := |kept| - 1;
      assert since in kept && offered - 1 in kept;
      var a :| 0 <= a < |kept| && kept[a] == since;
      var z :| 0 <= z < |kept| && kept[z] == offered - 1;
      assert kept[0] == since && kept[last] == offered - 1;
      CountsUp(kept, 0, last);
    }
  }

  lemma AllKept(kept: seq<nat>, lost: set<nat>, since: nat, offered: nat)
    requires Positions(kept, lost, since, offered)
    ensures lost == {} <==> |kept| == offered - since
    ensures lost == {} ==> forall k :: 0 <= k < |kept| ==> kept[k] == since + k
  {
    if lost == {} {
      NoneLostCounts(kept, since, offered);
    }
    if |kept| == offered - since {
      forall k | 0 <= k < |kept| ensures kept[k] == since + k {
        AtLeast(kept, since, k);
        AtMost(kept, offered, k);
      }
      assert forall p :: p in lost ==> kept[p - since] == p;
    }
  }

  lemma NoneLostExactly(accepted: seq<EventSystem.ChainEvent>, h: seq<IndexerRuns.Indexed>, kept: seq<nat>,
                        lost: set<nat>, since: nat, offered: nat)
    requires Positions(kept, lost, since, offered) && EventsAt(accepted, h, kept) && offered <= |h|
    ensures lost == {} <==> accepted == EventsOf(h, since, offered)
  {
    AllKept(kept, lost, since, offered);
    if lost == {} {
      forall k | 0 <= k < |accepted| ensures accepted[k] == EventsOf(h, since, offered)[k] {
        assert kept[k] == since + k;
      }
    }
  }

  /** In every run the events taken and waiting are those of the blocks committed since the restart, in
      order and each once, but for the lost ones; and exactly these blocks' if and only if none was lost. */
  lemma EventsAreHistory(cfg: IndexerRuns.Config, events: seq<Event>)
    ensures Accepted(Run(cfg, events))
    ensures
      var w := Run(cfg, events);
      var s := w.service;
      w.lost == {} <==> w.loop.taken + w.loop.queue == EventsOf(s.history, s.since, Offered(s))
  {
    AcceptedHolds(cfg, events);
    var w := Run(cfg, events);
    var s := w.service;
    NoneLostExactly(w.loop.taken + w.loop.queue, s.history, w.kept, w.lost, s.since, Offered(s));
  }

  // ---------------------------------------------------------------- headers

  lemma EventsRise(accepted: seq<EventSystem.ChainEvent>, h: seq<IndexerRuns.Indexed>, kept: seq<nat>)
    requires EventsAt(accepted, h, kept) && Ascending(kept) && IndexerRuns.Increasing(h)
    ensures EventSystem.Rising(accepted)
  {
    forall a, b | 0 <= a < b < |accepted| ensures accepted[a].round < accepted[b].round {
      assert accepted[a] == EventOf(h[kept[a]]) && accepted[b] == EventOf(h[kept[b]]);
      assert IndexerRuns.RoundOf(h[kept[a]]) < IndexerRuns.RoundOf(h[kept[b]]);
    }
  }

  lemma FirstPartRises(a: seq<EventSystem.ChainEvent>, b: seq<EventSystem.ChainEvent>)
    requires EventSystem.Rising(a + b)
    ensures EventSystem.Rising(a)
  {
    assert forall i :: 0 <= i < |a| ==> (a + b)[i] == a[i];
  }

  /** A head subscriber sees strictly rising rounds, at every point of every run of safe plans, dropped
      events or not. */
  lemma HeadersRise(cfg: IndexerRuns.Config, events: seq<Event>, id: nat, i: nat, j: nat)
    requires IndexerRuns.SafePlans(cfg, Indexing(events))
    requires id in Run(cfg, events).loop.sessions && Run(cfg, events).loop.sessions[id].sub.NewHeads?
    requires i < j < |Run(cfg, events).loop.sessions[id].sent|
    ensures
      var sent := Run(cfg, events).loop.sessions[id].sent;
      sent[i].Head? && sent[j].Head? && sent[i].round < sent[j].round
  {
    var w := Run(cfg, events);
    AcceptedHolds(cfg, events);
    ServiceRuns(cfg, events);
    IndexerRuns.RoundsHold(cfg, Indexing(events));
    EventsRise(w.loop.taken + w.loop.queue, w.service.history, w.kept);
    FirstPartRises(w.loop.taken, w.loop.queue);
    EventSystem.SentHeadersRise(w.loop, id, i, j);
  }

  // ---------------------------------------------------------------- logs

  /** The logs of a subscription's messages, put together. */
  function Batches(sent: seq<EventSystem.Message>): seq<EthLog> {
    if sent == [] then [] else
    var last := sent[|sent| - 1];
    Batches(sent[..|sent| - 1]) + (if last.Batch? then last.logs else [])
  }

  function EventLogs(evs: seq<EventSystem.ChainEvent>): (r: seq<seq<EthLog>>)
    ensures |r| == |evs|
  {
    seq(|evs|, k requires 0 <= k < |evs| => evs[k].logs)
  }

  lemma BatchesAppend(sent: seq<EventSystem.Message>, sub: EventSystem.Subscription, ev: EventSystem.ChainEvent)
    requires sub.NewLogs?
    ensures Batches(sent + EventSystem.Expected(sub, ev)) ==
            Batches(sent) + Selected(ev.logs, sub.from, sub.to, sub.criteria)
  {
    var more := EventSystem.Expected(sub, ev);
    if more == [] {
      assert sent + more == sent;
    } else {
      assert (sent + more)[..|sent|] == sent;
    }
  }

  lemma {:induction false} ExpectedIsSelected(evs: seq<EventSystem.ChainEvent>, c: Criteria)
    ensures Batches(EventSystem.ExpectedAll(EventSystem.NewLogs(None, None, c), evs)) ==
            Join(Answers(EventLogs(evs), c))
  {
    if evs != [] {
      var sub, init, ev := EventSystem.NewLogs(None, None, c), evs[..|evs| - 1], evs[|evs| - 1];
      ExpectedIsSelected(init, c);
      assert EventSystem.ExpectedAll(sub, evs) == EventSystem.ExpectedAll(sub, init) + EventSystem.Expected(sub, ev);
      BatchesAppend(EventSystem.ExpectedAll(sub, init), sub, ev);
      assert Answers(EventLogs(evs), c)[..|evs| - 1] == Answers(EventLogs(init), c);
    }
  }

  /** The blocks whose events were taken since the subscription was installed: the first of them, and the
      one after the last. */
  predicate HasTaken(w: World, id: nat) {
    id in w.loop.sessions && w.loop.sessions[id].since < |w.loop.taken| <= |w.kept|
  }

  function FirstBlock(w: World, id: nat): nat
    requires HasTaken(w, id)
  {
    w.kept[w.loop.sessions[id].since]
  }

  function EndBlock(w: World, id: nat): nat
    requires HasTaken(w, id)
  {
    w.kept[|w.loop.taken| - 1] + 1
  }

  /** No event of these blocks was dropped. */
  ghost predicate NoneLost(w: World, id: nat)
    requires HasTaken(w, id)
  {
    forall p :: FirstBlock(w, id) <= p < EndBlock(w, id) ==> p !in w.lost
  }

  lemma TakenLogs(taken: seq<EventSystem.ChainEvent>, queue: seq<EventSystem.ChainEvent>, h: seq<IndexerRuns.Indexed>,
                  kept: seq<nat>, since: nat)
    requires EventsAt(taken + queue, h, kept) && since < |taken| && IndexerRuns.DataInv(h)
    requires forall k :: since <= k < |taken| ==> kept[k] == kept[since] + (k - since)
    ensures kept[|taken| - 1] < |h|
    ensures EventLogs(taken[since..]) == Decoded(h, kept[since], kept[|taken| - 1] + 1)
  {
    assert |kept| == |taken + queue| == |taken| + |queue|;
    var i := kept[since];
    forall k | 0 <= k < |taken| - since ensures taken[since..][k].logs == FromModels(DataLogs(h[i + k].data)) {
      assert kept[since + k] == i + k;
      assert (taken + queue)[since + k] == taken[since..][k] == EventOf(h[i + k]);
    }
  }

  lemma TakenCount(w: World, id: nat, k: nat)
    requires Accepted(w) && HasTaken(w, id) && NoneLost(w, id)
    requires w.loop.sessions[id].since <= k < |w.loop.taken|
    ensures w.kept[k] == FirstBlock(w, id) + (k - w.loop.sessions[id].since)
  {
    var since, last := w.loop.sessions[id].since, |w.loop.taken| - 1;
    assert w.kept[k] <= w.kept[last];
    assert forall p :: w.kept[since] <= p <= w.kept[k] ==> p in w.kept;
    CountsUp(w.kept, since, k);
  }

  lemma TakenSince(w: World, id: nat)
    requires Accepted(w) && HasTaken(w, id) && NoneLost(w, id) && IndexerRuns.DataInv(w.service.history)
    ensures FirstBlock(w, id) < EndBlock(w, id) <= |w.service.history|
    ensures EventLogs(w.loop.taken[w.loop.sessions[id].since..]) ==
            Decoded(w.service.history, FirstBlock(w, id), EndBlock(w, id))
  {
    var since := w.loop.sessions[id].since;
    forall k | since <= k < |w.loop.taken| ensures w.kept[k] == w.kept[since] + (k - since) {
      TakenCount(w, id, k);
    }
    TakenLogs(w.loop.taken, w.loop.queue, w.service.history, w.kept, since);
  }

  ghost predicate ListensTo(w: World, id: nat, c: Criteria) {
    && w.loop.loop.Select? && id in w.loop.index && id in w.loop.sessions
    && w.loop.sessions[id].sub == EventSystem.NewLogs(None, None, c)
  }

  lemma SentSelected(loop: EventSystem.World, id: nat, c: Criteria)
    requires id in loop.sessions && EventSystem.UpToDate(loop, id)
    requires loop.sessions[id].sub == EventSystem.NewLogs(None, None, c)
    ensures Batches(loop.sessions[id].sent) == Join(Answers(EventLogs(loop.taken[loop.sessions[id].since..]), c))
  {
    ExpectedIsSelected(loop.taken[loop.sessions[id].since..], c);
  }

  lemma RunDelivers(cfg: IndexerRuns.Config, events: seq<Event>, id: nat)
    requires Run(cfg, events).loop.loop.Select? && id in Run(cfg, events).loop.index
    ensures id in Run(cfg, events).loop.sessions && EventSystem.UpToDate(Run(cfg, events).loop, id)
  {
    AcceptedHolds(cfg, events);
    EventSystem.InvDelivers(Run(cfg, events).loop, id);
  }

  lemma RunTakes(cfg: IndexerRuns.Config, events: seq<Event>, id: nat)
    requires IndexerRuns.AllAdmissible(Indexing(events)) && HasTaken(Run(cfg, events), id)
    requires NoneLost(Run(cfg, events), id)
    ensures
      var w := Run(cfg, events);
      && FirstBlock(w, id) < EndBlock(w, id) <= |w.service.history|
      && EventLogs(w.loop.taken[w.loop.sessions[id].since..]) ==
         Decoded(w.service.history, FirstBlock(w, id), EndBlock(w, id))
  {
    AcceptedHolds(cfg, events);
    ServiceRuns(cfg, events);
    IndexerRuns.RowsHold(cfg, Indexing(events));
    TakenSince(Run(cfg, events), id);
  }

  lemma SentIsBlocks(w: World, id: nat, i: nat, j: nat, c: Criteria)
    requires id in w.loop.sessions && EventSystem.UpToDate(w.loop, id) && i <= j <= |w.service.history|
    requires w.loop.sessions[id].sub == EventSystem.NewLogs(None, None, c)
    requires EventLogs(w.loop.taken[w.loop.sessions[id].since..]) == Decoded(w.service.history, i, j)
    ensures Batches(w.loop.sessions[id].sent) == Join(Answers(Decoded(w.service.history, i, j), c))
  {
    SentSelected(w.loop, id, c);
  }

  /** What the subscription has been sent are its blocks, filtered one by one. */
  lemma RunSends(cfg: IndexerRuns.Config, events: seq<Event>, id: nat, c: Criteria)
    requires IndexerRuns.AllAdmissible(Indexing(events)) && HasTaken(Run(cfg, events), id)
    requires NoneLost(Run(cfg, events), id) && ListensTo(Run(cfg, events), id, c)
    ensures
      var w := Run(cfg, events);
      var i, j := FirstBlock(w, id), EndBlock(w, id);
      && i < j <= |w.service.history|
      && Batches(w.loop.sessions[id].sent) == Join(Answers(Decoded(w.service.history, i, j), c))
  {
    var w := Run(cfg, events);
    RunDelivers(cfg, events, id);
    RunTakes(cfg, events, id);
    SentIsBlocks(w, id, FirstBlock(w, id), EndBlock(w, id), c);
  }

  lemma RunPulls(cfg: IndexerRuns.Config, events: seq<Event>, i: nat, j: nat, max: nat, rows: seq<Log>, c: Criteria)
    requires IndexerRuns.AllAdmissible(Indexing(events)) && IndexerRuns.SafePlans(cfg, Indexing(events))
    requires AnswersBlocks(Run(cfg, events).service, i, j, max, rows)
    ensures Join(Answers(Decoded(Run(cfg, events).service.history, i, j), c)) ==
            Selected(FromModels(rows), None, None, c)
  {
    ServiceRuns(cfg, events);
    LogsSettle(cfg, Indexing(events));
    IndexerRuns.RoundsHold(cfg, Indexing(events));
    PushedIsPulled(Run(cfg, events).service, i, j, max, rows, c);
  }

  /** Indexer, store, cache, event loop and both filters together: what a log subscription has been sent
      since its installation is, put together, what eth_getLogs answers for the blocks from the first to the
      last event taken since, if no event of these blocks was dropped and no prune has passed them. */
  lemma SubscriberSawTheAnswer(cfg: IndexerRuns.Config, events: seq<Event>, id: nat, c: Criteria, max: nat,
                               rows: seq<Log>)
    requires IndexerRuns.AllAdmissible(Indexing(events)) && IndexerRuns.SafePlans(cfg, Indexing(events))
    requires
      var w := Run(cfg, events);
      && ListensTo(w, id, c) && HasTaken(w, id) && NoneLost(w, id)
      && AnswersBlocks(w.service, FirstBlock(w, id), EndBlock(w, id), max, rows)
    ensures Batches(Run(cfg, events).loop.sessions[id].sent) == Selected(FromModels(rows), None, None, c)
  {
    RunSends(cfg, events, id, c);
    RunPulls(cfg, events, FirstBlock(Run(cfg, events), id), EndBlock(Run(cfg, events), id), max, rows, c);
  }
}
