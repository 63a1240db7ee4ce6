/**
 The subscription event loop as a step system (filters/event_system.go; the emitting side is
 indexer/utils.go).

 Channels without buffer are rendezvous: a send is one step that needs the loop at that send and the
 client at a receive.  A client receives while it reads and, to drain, while it unsubscribes.
 */
module EventSystem {
  import opened Model
  import opened LogCodec
  import opened LogFilters

  const CHAIN_EV_CHAN_SIZE: nat := 10

  datatype ChainEvent = ChainEvent(round: nat, logs: seq<EthLog>)

  datatype Subscription =
    | NewHeads
    | NewLogs(from: Option<int>, to: Option<int>, criteria: Criteria)

  datatype Message = Head(round: nat) | Batch(round: nat, logs: seq<EthLog>)

  /** What a subscription is sent for an event. */
  ghost function Expected(s: Subscription, ev: ChainEvent): seq<Message> {
    match s
    case NewHeads => [Head(ev.round)]
    case NewLogs(from, to, c) =>
      var matched := Selected(ev.logs, from, to, c);
      if matched == [] then [] else [Batch(ev.round, matched)]
  }

  /** A head subscription is sent every round; a log subscription the logs it asks for, if there are any. */
  lemma ExpectedMeans(s: Subscription, ev: ChainEvent, l: EthLog)
    ensures s.NewHeads? ==> Expected(s, ev) == [Head(ev.round)]
    ensures s.NewLogs? ==> |Expected(s, ev)| <= 1
    ensures s.NewLogs? && |Expected(s, ev)| == 1 ==>
              var m := Expected(s, ev)[0];
              && m.Batch? && m.round == ev.round && m.logs != []
              && (l in m.logs <==> l in ev.logs && WithinBounds(l, s.from, s.to) && Matches(l, s.criteria))
    ensures s.NewLogs? && Expected(s, ev) == [] && l in ev.logs ==>
              !(WithinBounds(l, s.from, s.to) && Matches(l, s.criteria))
  {
    if s.NewLogs? {
      SelectedMember(ev.logs, s.from, s.to, s.criteria, l);
    }
  }

  ghost function ExpectedAll(s: Subscription, evs: seq<ChainEvent>): seq<Message> {
    if evs == [] then [] else ExpectedAll(s, evs[..|evs| - 1]) + Expected(s, evs[|evs| - 1])
  }

  datatype Loop =
    | Select                                          // at the select statement
    | SendingLogs(ev: ChainEvent, todo: set<nat>)     // in handleLogs
    | SendingHeads(ev: ChainEvent, todo: set<nat>)    // in handleChainEvent

  datatype Phase = Installing | Reading | Unsubscribing | Closing | Returned

  /** A subscription that exists: `since` events had been taken off the channel when it was installed, all
      up to `upto` have been dealt with for it, and `sent` is what went over its channel. */
  datatype Session = Session(sub: Subscription, phase: Phase, since: nat, upto: nat, sent: seq<Message>)

  datatype World = World(queue: seq<ChainEvent>, taken: seq<ChainEvent>, loop: Loop,
                         index: set<nat>, sessions: map<nat, Session>)

  const Start := World([], [], Select, {}, map[])

  datatype Event =
    | Emit(ev: ChainEvent)
    | Take
    | Send(id: nat)
    | EndPhase
    | RequestInstall(id: nat, sub: Subscription)
    | Install(id: nat)
    | RequestUninstall(id: nat)
    | Uninstall(id: nat)
    | Return(id: nat)

  ghost function LogTargets(w: World, ev: ChainEvent): set<nat> {
    set id | id in w.index && id in w.sessions && w.sessions[id].sub.NewLogs? && Expected(w.sessions[id].sub, ev) != []
  }

  ghost function HeadTargets(w: World): set<nat> {
    set id | id in w.index && id in w.sessions && w.sessions[id].sub.NewHeads?
  }

  /** Log subscriptions without a match have dealt with the event at once. */
  ghost function SkipUnmatched(w: World, ev: ChainEvent): map<nat, Session> {
    map id | id in w.sessions ::
      if id in w.index && Expected(w.sessions[id].sub, ev) == [] then w.sessions[id].(upto := w.sessions[id].upto + 1)
      else w.sessions[id]
  }

  function Phased(w: World, id: nat, p: Phase): World
    requires id in w.sessions
  {
    w.(sessions := w.sessions[id := w.sessions[id].(phase := p)])
  }

  predicate InPhase(w: World, id: nat, p: Phase) { id in w.sessions && w.sessions[id].phase == p }

  predicate Receives(w: World, id: nat) { InPhase(w, id, Reading) || InPhase(w, id, Unsubscribing) }

  /** The session after its messages for this event. */
  ghost function SentTo(s: Session, ev: ChainEvent): Session {
    s.(upto := s.upto + 1, sent := s.sent + Expected(s.sub, ev))
  }

  ghost function Delivered(w: World, id: nat, ev: ChainEvent): map<nat, Session>
    requires id in w.sessions
  {
    w.sessions[id := SentTo(w.sessions[id], ev)]
  }

  ghost function Step(w: World, e: Event): World {
    match e
    case Emit(ev) =>
      // A full channel drops the event.
      if |w.queue| < CHAIN_EV_CHAN_SIZE then w.(queue := w.queue + [ev]) else w
    case Take =>
      if !w.loop.Select? || w.queue == [] then w
      else w.(queue := w.queue[1..], taken := w.taken + [w.queue[0]],
              loop := SendingLogs(w.queue[0], LogTargets(w, w.queue[0])), sessions := SkipUnmatched(w, w.queue[0]))
    case Send(id) =>
      if !CanSend(w, id) then w
      else w.(loop := w.loop.(todo := w.loop.todo - {id}), sessions := Delivered(w, id, w.loop.ev))
    case EndPhase =>
      if w.loop.SendingLogs? && w.loop.todo == {} then w.(loop := SendingHeads(w.loop.ev, HeadTargets(w)))
      else if w.loop.SendingHeads? && w.loop.todo == {} then w.(loop := Select)
      else w
    case RequestInstall(id, sub) =>
      if id in w.sessions then w else w.(sessions := w.sessions[id := Session(sub, Installing, 0, 0, [])])
    case Install(id) =>
      if !w.loop.Select? || !InPhase(w, id, Installing) then w
      else w.(index := w.index + {id},
              sessions := w.sessions[id := w.sessions[id].(phase := Reading, since := |w.taken|, upto := |w.taken|)])
    case RequestUninstall(id) => if InPhase(w, id, Reading) then Phased(w, id, Unsubscribing) else w
    case Uninstall(id) =>
      if !w.loop.Select? || !InPhase(w, id, Unsubscribing) then w
      else Phased(w, id, Closing).(index := w.index - {id})
    case Return(id) => if InPhase(w, id, Closing) then Phased(w, id, Returned) else w
  }

  ghost function Run(events: seq<Event>): World {
    if events == [] then Start else Step(Run(events[..|events| - 1]), events[|events| - 1])
  }

  // ---------------------------------------------------------------- invariant

  /** Away from its select the loop deals with the event it has taken last. */
  ghost predicate ChannelInv(w: World) {
    && |w.queue| <= CHAIN_EV_CHAN_SIZE
    && (!w.loop.Select? ==> w.taken != [] && w.loop.ev == w.taken[|w.taken| - 1])
  }

  /** The event in hand has still to be dealt with for this subscription. */
  ghost predicate IsPending(w: World, id: nat) {
    && !w.loop.Select? && id in w.index
    && (id in w.loop.todo || (w.loop.SendingLogs? && id in w.sessions && w.sessions[id].sub.NewHeads?))
  }

  /** What a session says of itself: it has been sent what events since..upto-1 call for, and if it is
      installed these are all that were taken, but for one that is pending. */
  ghost predicate SessionOk(s: Session, taken: seq<ChainEvent>, installed: bool, pending: bool) {
    && s.since <= s.upto <= |taken|
    && s.sent == ExpectedAll(s.sub, taken[s.since..s.upto])
    && (installed <==> s.phase == Reading || s.phase == Unsubscribing)
    && (installed ==> s.upto == |taken| - (if pending then 1 else 0))
    && (s.phase == Installing ==> s.since == s.upto == 0)
  }

  ghost predicate SessionInv(w: World, id: nat)
    requires id in w.sessions
  {
    SessionOk(w.sessions[id], w.taken, id in w.index, IsPending(w, id))
  }

  ghost predicate IndexInv(w: World) {
    && (forall id :: id in w.index ==> id in w.sessions)
    && (!w.loop.Select? ==> w.loop.todo <= w.index)
    && (forall id :: !w.loop.Select? && id in w.loop.todo ==>
          id in w.sessions && (w.loop.SendingLogs? <==> w.sessions[id].sub.NewLogs?))
  }

  ghost predicate SessionsInv(w: World) {
    forall id :: id in w.sessions ==> SessionInv(w, id)
  }

  ghost predicate Inv(w: World) {
    ChannelInv(w) && IndexInv(w) && SessionsInv(w)
  }

  lemma ExpectedAppend(s: Subscription, taken: seq<ChainEvent>, since: nat, n: nat)
    requires since <= n < |taken|
    ensures ExpectedAll(s, taken[since..n + 1]) == ExpectedAll(s, taken[since..n]) + Expected(s, taken[n])
  {
    var all := taken[since..n + 1];
    assert all[..|all| - 1] == taken[since..n] && all[|all| - 1] == taken[n];
  }

  lemma SessionSent(s: Session, taken: seq<ChainEvent>)
    requires SessionOk(s, taken, true, true)
    ensures SessionOk(SentTo(s, taken[|taken| - 1]), taken, true, false)
  {
    var s' := SentTo(s, taken[|taken| - 1]);
    assert s'.sent == ExpectedAll(s'.sub, taken[s'.since..s'.upto]) by {
      ExpectedAppend(s.sub, taken, s.since, |taken| - 1);
    }
  }

  lemma SessionTakes(s: Session, taken: seq<ChainEvent>, ev: ChainEvent, installed: bool)
    requires SessionOk(s, taken, installed, false)
    ensures SessionOk(s, taken + [ev], installed, true)
  {
    assert (taken + [ev])[s.since..s.upto] == taken[s.since..s.upto];
  }

  lemma SessionSkips(s: Session, taken: seq<ChainEvent>, ev: ChainEvent)
    requires SessionOk(s, taken, true, false) && Expected(s.sub, ev) == []
    ensures SessionOk(s.(upto := s.upto + 1), taken + [ev], true, false)
  {
    SessionTakes(s, taken, ev, true);
    SessionSent(s, taken + [ev]);
    assert s.sent + [] == s.sent;
  }

  lemma SessionStarts(sub: Subscription, taken: seq<ChainEvent>, p: bool)
    ensures SessionOk(Session(sub, Installing, 0, 0, []), taken, false, p)
  {
  }

  lemma SessionInstalls(s: Session, taken: seq<ChainEvent>, p: bool)
    requires SessionOk(s, taken, false, p) && s.phase == Installing
    ensures SessionOk(s.(phase := Reading, since := |taken|, upto := |taken|), taken, true, false)
  {
    assert taken[0..0] == [] && taken[|taken|..|taken|] == [];
  }

  lemma EmitKeepsInv(w: World, ev: ChainEvent)
    requires Inv(w)
    ensures Inv(Step(w, Emit(ev)))
  {
    var w' := Step(w, Emit(ev));
    assert w'.taken == w.taken && w'.loop == w.loop && w'.index == w.index && w'.sessions == w.sessions;
    forall id | id in w'.sessions ensures SessionInv(w', id) {
      assert SessionInv(w, id);
    }
  }

  /** A step that leaves a session and what it depends on alone keeps its invariant. */
  lemma SameSession(w: World, w': World, k: nat)
    requires k in w.sessions && k in w'.sessions && w'.sessions[k] == w.sessions[k] && SessionInv(w, k)
    requires w'.taken == w.taken && (k in w'.index <==> k in w.index) && (IsPending(w', k) <==> IsPending(w, k))
    ensures SessionInv(w', k)
  {
  }

  lemma TakeKeepsSession(w: World, id: nat)
    requires w.loop.Select? && w.queue != [] && id in w.sessions && SessionInv(w, id)
    ensures SessionInv(Step(w, Take), id)
  {
    var w' := Step(w, Take);
    var s, ev := w.sessions[id], w.queue[0];
    assert w'.taken == w.taken + [ev] && w'.index == w.index && !IsPending(w, id);
    if id in w.index && Expected(s.sub, ev) == [] {
      SessionSkips(s, w.taken, ev);
      assert w'.sessions[id] == s.(upto := s.upto + 1) && !IsPending(w', id);
    } else {
      SessionTakes(s, w.taken, ev, id in w.index);
      assert w'.sessions[id] == s && (id in w.index ==> IsPending(w', id));
    }
  }

  lemma TakeKeepsIndex(w: World)
    requires IndexInv(w) && w.loop.Select? && w.queue != []
    ensures IndexInv(Step(w, Take))
  {
    var w' := Step(w, Take);
    assert w'.sessions.Keys == w.sessions.Keys && w'.index == w.index;
    assert forall id :: id in w.sessions ==> w'.sessions[id].sub == w.sessions[id].sub;
  }

  lemma TakeKeepsInv(w: World)
    requires Inv(w) && w.loop.Select? && w.queue != []
    ensures Inv(Step(w, Take))
  {
    var w' := Step(w, Take);
    TakeKeepsIndex(w);
    forall id | id in w'.sessions ensures SessionInv(w', id) {
      TakeKeepsSession(w, id);
    }
  }

  predicate CanSend(w: World, id: nat) { !w.loop.Select? && id in w.loop.todo && Receives(w, id) }

  lemma SendSettlesPending(w: World, id: nat)
    requires CanSend(w, id) && id in w.index
    requires w.loop.SendingLogs? <==> w.sessions[id].sub.NewLogs?
    ensures IsPending(w, id)
    ensures
      var w' := Step(w, Send(id));
      && w'.taken == w.taken && w'.index == w.index && !IsPending(w', id)
      && id in w'.sessions && w'.sessions[id] == SentTo(w.sessions[id], w.loop.ev)
  {
  }

  lemma SendAdvancesSession(w: World, id: nat)
    requires CanSend(w, id) && w.taken != [] && w.loop.ev == w.taken[|w.taken| - 1] && SessionInv(w, id)
    requires w.loop.SendingLogs? <==> w.sessions[id].sub.NewLogs?
    ensures SessionInv(Step(w, Send(id)), id)
  {
    var w' := Step(w, Send(id));
    SendSettlesPending(w, id);
    assert SessionOk(w'.sessions[id], w.taken, true, false) by {
      SessionSent(w.sessions[id], w.taken);
    }
  }

  lemma SendKeepsSession(w: World, id: nat, k: nat)
    requires CanSend(w, id) && k != id && k in w.sessions && SessionInv(w, k)
    ensures SessionInv(Step(w, Send(id)), k)
  {
    SameSession(w, Step(w, Send(id)), k);
  }

  lemma SendKeepsIndex(w: World, id: nat)
    requires IndexInv(w) && CanSend(w, id)
    ensures IndexInv(Step(w, Send(id)))
  {
    var w' := Step(w, Send(id));
    assert w'.sessions.Keys == w.sessions.Keys && w'.index == w.index;
    assert forall k :: k in w.sessions ==> w'.sessions[k].sub == w.sessions[k].sub;
  }

  lemma SendKeepsInv(w: World, id: nat)
    requires Inv(w) && CanSend(w, id)
    ensures Inv(Step(w, Send(id)))
  {
    var w' := Step(w, Send(id));
    assert w'.taken == w.taken && w'.queue == w.queue;
    SendKeepsIndex(w, id);
    SendAdvancesSession(w, id);
    forall k | k in w'.sessions && k != id ensures SessionInv(w', k) {
      SendKeepsSession(w, id, k);
    }
  }

  lemma EndPhaseKeepsSession(w: World, k: nat)
    requires IndexInv(w) && k in w.sessions && SessionInv(w, k)
    ensures SessionInv(Step(w, EndPhase), k)
  {
    SameSession(w, Step(w, EndPhase), k);
  }

  lemma EndPhaseKeepsInv(w: World)
    requires Inv(w)
    ensures Inv(Step(w, EndPhase))
  {
    var w' := Step(w, EndPhase);
    assert IndexInv(w');
    assert w'.taken == w.taken && w'.queue == w.queue;
    forall k | k in w'.sessions ensures SessionInv(w', k) {
      EndPhaseKeepsSession(w, k);
    }
  }

  predicate ClientStep(e: Event) {
    e.RequestInstall? || e.Install? || e.RequestUninstall? || e.Uninstall? || e.Return?
  }

  /** A client's own step, by its kind. */
  lemma OwnStepKeepsSession(w: World, e: Event)
    requires ClientStep(e) && IndexInv(w) && e.id in Step(w, e).sessions && Step(w, e) != w
    requires e.id in w.sessions ==> SessionInv(w, e.id)
    ensures SessionInv(Step(w, e), e.id)
  {
    var w' := Step(w, e);
    assert w'.taken == w.taken && w'.loop == w.loop;
    match e {
      case RequestInstall(id, sub) => SessionStarts(sub, w.taken, IsPending(w', id));
      case Install(id) => SessionInstalls(w.sessions[id], w.taken, IsPending(w, id));
      case _ =>
    }
  }

  lemma OtherStepKeepsSession(w: World, e: Event, k: nat)
    requires ClientStep(e) && k in w.sessions && k != e.id && SessionInv(w, k)
    ensures k in Step(w, e).sessions && SessionInv(Step(w, e), k)
  {
    SameSession(w, Step(w, e), k);
  }

  lemma ClientStepKeepsIndex(w: World, e: Event)
    requires IndexInv(w) && SessionsInv(w) && ClientStep(e)
    ensures IndexInv(Step(w, e))
  {
    assert e.id in w.sessions ==> SessionInv(w, e.id);
  }

  lemma ClientStepKeepsSessions(w: World, e: Event)
    requires IndexInv(w) && SessionsInv(w) && ClientStep(e)
    ensures SessionsInv(Step(w, e))
  {
    forall k | k in Step(w, e).sessions ensures SessionInv(Step(w, e), k) {
      assert k in w.sessions ==> SessionInv(w, k);
      if Step(w, e) != w {
        if k == e.id {
          OwnStepKeepsSession(w, e);
        } else {
          OtherStepKeepsSession(w, e, k);
        }
      }
    }
  }

  lemma ClientStepKeepsInv(w: World, e: Event)
    requires Inv(w) && ClientStep(e)
    ensures Inv(Step(w, e))
  {
    assert ChannelInv(Step(w, e));
    ClientStepKeepsIndex(w, e);
    ClientStepKeepsSessions(w, e);
  }

  lemma StepKeepsInv(w: World, e: Event)
    requires Inv(w)
    ensures Inv(Step(w, e))
  {
    match e {
      case Emit(ev) => EmitKeepsInv(w, ev);
      case Take =>
        if w.loop.Select? && w.queue != [] {
          TakeKeepsInv(w);
        }
      case Send(id) =>
        if CanSend(w, id) {
          SendKeepsInv(w, id);
        }
      case EndPhase => EndPhaseKeepsInv(w);
      case _ => ClientStepKeepsInv(w, e);
    }
  }

  lemma {:induction false} InvHolds(events: seq<Event>)
    ensures Inv(Run(events))
  {
    if events != [] {
      InvHolds(events[..|events| - 1]);
      StepKeepsInv(Run(events[..|events| - 1]), events[|events| - 1]);
    }
  }

  // ---------------------------------------------------------------- theorems

  /** Whenever the loop is back at its select, every installed subscription has been sent exactly what the
      events taken since its installation call for, in order: none lost, none repeated. */
  lemma DeliveryIsExact(events: seq<Event>, id: nat)
    requires Run(events).loop.Select? && id in Run(events).index
    ensures id in Run(events).sessions && UpToDate(Run(events), id)
  {
    InvHolds(events);
    InvDelivers(Run(events), id);
  }

  /** The subscription has been sent what all events taken since its installation call for. */
  ghost predicate UpToDate(w: World, id: nat)
    requires id in w.sessions
  {
    var s := w.sessions[id];
    s.since <= |w.taken| && s.sent == ExpectedAll(s.sub, w.taken[s.since..])
  }

  lemma InvDelivers(w: World, id: nat)
    requires Inv(w) && w.loop.Select? && id in w.index
    ensures id in w.sessions && UpToDate(w, id)
  {
    assert SessionInv(w, id);
    assert w.taken[w.sessions[id].since..|w.taken|] == w.taken[w.sessions[id].since..];
  }

  lemma {:induction false} HeadersOf(evs: seq<ChainEvent>)
    ensures |ExpectedAll(NewHeads, evs)| == |evs|
    ensures forall i :: 0 <= i < |evs| ==> ExpectedAll(NewHeads, evs)[i] == Head(evs[i].round)
  {
    if evs != [] {
      HeadersOf(evs[..|evs| - 1]);
    }
  }

  ghost predicate Rising(evs: seq<ChainEvent>) {
    forall i, j :: 0 <= i < j < |evs| ==> evs[i].round < evs[j].round
  }

  /** A head subscriber sees strictly rising rounds, at every point, if those of the events rise. */
  lemma SentHeadersRise(w: World, id: nat, i: nat, j: nat)
    requires Rising(w.taken) && id in w.sessions && w.sessions[id].sub.NewHeads? && SessionInv(w, id)
    requires i < j < |w.sessions[id].sent|
    ensures
      var sent := w.sessions[id].sent;
      sent[i].Head? && sent[j].Head? && sent[i].round < sent[j].round
  {
    var s := w.sessions[id];
    HeadersOf(w.taken[s.since..s.upto]);
    assert w.taken[s.since + i] == w.taken[s.since..s.upto][i];
    assert w.taken[s.since + j] == w.taken[s.since..s.upto][j];
  }

  lemma ReturnedStays(w: World, e: Event, id: nat)
    requires InPhase(w, id, Returned) && id !in w.index && (!w.loop.Select? ==> w.loop.todo <= w.index)
    ensures InPhase(Step(w, e), id, Returned) && Step(w, e).sessions[id].sent == w.sessions[id].sent
  {
  }

  /** Once Unsubscribe has returned nothing more is sent. */
  lemma {:induction false} NothingAfterReturn(events: seq<Event>, k: nat, id: nat)
    requires k <= |events| && InPhase(Run(events[..k]), id, Returned)
    ensures InPhase(Run(events), id, Returned)
    ensures Run(events).sessions[id].sent == Run(events[..k]).sessions[id].sent
    decreases |events|
  {
    if k == |events| {
      assert events[..k] == events;
    } else {
      var init := events[..|events| - 1];
      assert init[..k] == events[..k];
      NothingAfterReturn(init, k, id);
      assert id !in Run(init).index && (!Run(init).loop.Select? ==> Run(init).loop.todo <= Run(init).index) by {
        InvHolds(init);
        assert SessionInv(Run(init), id);
      }
      ReturnedStays(Run(init), events[|events| - 1], id);
    }
  }

  /** A pending send always finds its client at a receive, be it reading or draining, so it can take place:
      the loop is never stuck. */
  lemma PendingSendIsEnabled(events: seq<Event>, id: nat)
    requires !Run(events).loop.Select? && id in Run(events).loop.todo
    ensures Receives(Run(events), id)
    ensures
      var w' := Run(events + [Send(id)]);
      !w'.loop.Select? && w'.loop.todo == Run(events).loop.todo - {id}
  {
    InvHolds(events);
    assert SessionInv(Run(events), id);
    assert (events + [Send(id)])[..|events|] == events;
  }

  /** Away from its select the loop always has a step: a send to some client, or the end of the phase. */
  lemma LoopAlwaysMoves(events: seq<Event>) returns (e: Event)
    requires !Run(events).loop.Select?
    ensures e.Send? || e.EndPhase?
    ensures Run(events + [e]).loop != Run(events).loop
  {
    if Run(events).loop.todo == {} {
      e := EndPhase;
      assert (events + [e])[..|events|] == events;
    } else {
      var id :| id in Run(events).loop.todo;
      e := Send(id);
      PendingSendIsEnabled(events, id);
      assert id !in Run(events + [e]).loop.todo;
    }
  }
}
