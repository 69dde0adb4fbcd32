/**
 When the results of a program can be collected, on the whole peer: notices travel through the
 input queue of the data memory, which throws away what it takes before a distribution is accepted.
 */
module Retrieval {
  import opened Types
  import opened Node
  import opened Completion
  import I = InstructionMemory
  import D = DataMemory
  import Behaviour
  import Distribution
  import ReedSolomon
  import Instructions

  // ---------- what an initialised memory has handled ----------

  /** The memory is where its events have led it, and has said what they made it say. */
  ghost predicate IsRun(n: Node, events: seq<D.InEvent>) {
    match n.memory
    case Uninitialized => events == [] && n.emitted == []
    case Ready(cfg, state) =>
      && cfg.Wide() && D.AllFit(cfg, events) && D.Run(cfg, D.INITIAL, events).state == state
      && n.emitted == [D.Initialized] + Emits(D.Run(cfg, D.INITIAL, events).actions)
  }

  lemma {:induction false} EmitsAppend(a: D.Log, b: D.Log)
    ensures Emits(a + b) == Emits(a) + Emits(b)
  {
    if b == [] {
      assert a + b == a;
    } else {
      assert (a + b)[..|a + b| - 1] == a + b[..|b| - 1];
      EmitsAppend(a, b[..|b| - 1]);
    }
  }

  /** A ready memory handles one more event. */
  lemma HandledIsRun(n: Node, ev: D.InEvent, events: seq<D.InEvent>)
    requires n.memory.Ready? && IsRun(n, events) && D.Fits(n.memory.cfg, ev)
    ensures n.memory.cfg.Wide() && IsRun(Handled(n, ev), events + [ev])
  {
    var cfg, before := n.memory.cfg, D.Run(n.memory.cfg, D.INITIAL, events);
    D.RunSnoc(cfg, D.INITIAL, events, ev);
    var now := D.Step(cfg, before.state, ev).actions;
    EmitsAppend(before.actions, now);
    Regroup([D.Initialized], Emits(before.actions), Emits(now));
  }

  lemma StepIsRun(site: Site, n: Node, step: Step, events: seq<D.InEvent>)
    requires WellFormed(site, n) && Possible(site, n, step) && IsRun(n, events)
    ensures IsRun(Next(site, n, step), events + HandledBy(n, step))
  {
    if HandledBy(n, step) == [] {
      assert events + HandledBy(n, step) == events;
      QuietIsRun(site, n, step, events);
    } else if step.MemoryTurn? {
      assert n.input[0] in n.input;
      HandledIsRun(n.(input := n.input[1..]), n.input[0].event, events);
    } else {
      HandledIsRun(n, step.event, events);
    }
  }

  lemma QuietIsRun(site: Site, n: Node, step: Step, events: seq<D.InEvent>)
    requires WellFormed(site, n) && Possible(site, n, step) && IsRun(n, events) && HandledBy(n, step) == []
    ensures IsRun(Next(site, n, step), events)
  {
    assert step.MemoryTurn? ==> n.input[0] in n.input;
    assert [D.Initialized] + [] == [D.Initialized];
  }

  lemma {:induction false} MemoryIsRun(site: Site, steps: seq<Step>)
    requires site.code.Valid() && RunFrom(site, START, steps).Some?
    ensures IsRun(RunFrom(site, START, steps).value, HandledEvents(site, steps))
  {
    if steps != [] {
      var k := |steps| - 1;
      MemoryIsRun(site, steps[..k]);
      StepIsRun(site, RunFrom(site, START, steps[..k]).value, steps[k], HandledEvents(site, steps[..k]));
    }
  }

  // ---------- which shards are known ----------

  /** The shards of `id` that one event tells of. */
  function Tells(cfg: D.Config, ev: D.InEvent, id: Vid): set<Sid> {
    if ev.StoreConfirmed? && ev.full.id == id then {ev.full.sid}
    else if ev.PeerShardsActualized? && id in ev.ids && ev.peer in cfg.distribution then {cfg.distribution[ev.peer]}
    else {}
  }

  function Learned(cfg: D.Config, events: seq<D.InEvent>, id: Vid): set<Sid> {
    if events == [] then {} else
    Learned(cfg, events[..|events| - 1], id) + Tells(cfg, events[|events| - 1], id)
  }

  lemma {:induction false} LocatedKeys(locations: D.Nested<PeerId>, ids: seq<Vid>, sid: Sid, peer: PeerId, id: Vid)
    ensures D.At(D.Located(locations, ids, sid, peer), id).Keys == D.At(locations, id).Keys + if id in ids then {sid} else {}
  {
    if ids != [] {
      LocatedKeys(locations, ids[..|ids| - 1], sid, peer, id);
    }
  }

  lemma StepLearns(cfg: D.Config, s: D.State, ev: D.InEvent, id: Vid)
    requires cfg.Valid() && D.Fits(cfg, ev) && !D.Step(cfg, s, ev).state.stopped
    ensures D.At(D.Step(cfg, s, ev).state.locations, id).Keys == D.At(s.locations, id).Keys + Tells(cfg, ev, id)
  {
    StepStops(cfg, s, ev);
    if ev.PeerShardsActualized? {
      LocatedKeys(s.locations, ev.ids, cfg.distribution[ev.peer], ev.peer, id);
    } else if ev.StoreConfirmed? {
      ConfirmedKeys(cfg, s, ev.full, ev.location, id);
    } else {
      LocationsKept(cfg, s, ev);
    }
  }

  lemma ConfirmedKeys(cfg: D.Config, s: D.State, full: D.FullShardId, location: PeerId, id: Vid)
    ensures D.At(D.Confirmed(cfg, s, full, location).state.locations, id).Keys ==
      D.At(s.locations, id).Keys + if full.id == id then {full.sid} else {}
  {
    if full.id == id {
      assert full == D.Full(id, full.sid);
      Distribution.ConfirmedState(cfg, s, id, full.sid, location);
    } else {
      Distribution.ConfirmedSameSpread(cfg, s, full, location, id);
    }
  }

  /** A running memory knows exactly the shards that it was told of. */
  lemma {:induction false} KnownIsLearned(cfg: D.Config, events: seq<D.InEvent>, id: Vid)
    requires cfg.Valid() && D.AllFit(cfg, events) && !D.Run(cfg, D.INITIAL, events).state.stopped
    ensures D.At(D.Run(cfg, D.INITIAL, events).state.locations, id).Keys == Learned(cfg, events, id)
  {
    if events != [] {
      var k := |events| - 1;
      StepStops(cfg, D.Run(cfg, D.INITIAL, events[..k]).state, events[k]);
      KnownIsLearned(cfg, events[..k], id);
      StepLearns(cfg, D.Run(cfg, D.INITIAL, events[..k]).state, events[k], id);
    }
  }

  /**
   In every run of the peer, an initialised and running memory agrees to collect `id` exactly when
   it was told of `K` distinct shards by confirmations and notices that it took after it had been
   initialised.  What it took before counts for nothing.
   */
  lemma RetrievableIff(site: Site, steps: seq<Step>, id: Vid, order: seq<Sid>)
    requires site.code.Valid() && RunFrom(site, START, steps).Some?
    ensures var m := RunFrom(site, START, steps).value.memory;
      m.Ready? && !m.state.stopped ==>
        && (!Refuses(D.Step(m.cfg, m.state, D.RecollectRequest(id, order)).actions) <==>
            K <= |Learned(m.cfg, HandledEvents(site, steps), id)|)
        && (id in D.Distributed(m.state) <==> K <= |Learned(m.cfg, HandledEvents(site, steps), id)|)
  {
    var m := RunFrom(site, START, steps).value.memory;
    if m.Ready? && !m.state.stopped {
      MemoryIsRun(site, steps);
      KnownIsLearned(m.cfg, HandledEvents(site, steps), id);
      assert |D.At(m.state.locations, id)| == |D.At(m.state.locations, id).Keys|;
      ListedIff(m.cfg, m.state, id, order);
      RefusedIff(m.cfg, m.state, id, order);
    }
  }

  /** Every id with an entry has a location. */
  ghost predicate NoEmptyEntry(locations: D.Nested<PeerId>) {
    forall id :: id in locations ==> locations[id] != map[]
  }

  lemma {:induction false} LocatedEntries(locations: D.Nested<PeerId>, ids: seq<Vid>, sid: Sid, peer: PeerId)
    requires NoEmptyEntry(locations)
    ensures NoEmptyEntry(D.Located(locations, ids, sid, peer))
  {
    if ids != [] {
      LocatedEntries(locations, ids[..|ids| - 1], sid, peer);
      InsertedEntry(D.Located(locations, ids[..|ids| - 1], sid, peer), ids[|ids| - 1], sid, peer);
    }
  }

  lemma InsertedEntry(locations: D.Nested<PeerId>, id: Vid, sid: Sid, peer: PeerId)
    requires NoEmptyEntry(locations)
    ensures NoEmptyEntry(D.Insert(locations, id, sid, peer))
  {
    assert sid in D.Insert(locations, id, sid, peer)[id];
  }

  lemma StepEntries(cfg: D.Config, s: D.State, ev: D.InEvent)
    requires cfg.Valid() && D.Fits(cfg, ev) && NoEmptyEntry(s.locations)
    ensures NoEmptyEntry(D.Step(cfg, s, ev).state.locations)
  {
    if ev.PeerShardsActualized? {
      if ev.peer in cfg.distribution {
        LocatedEntries(s.locations, ev.ids, cfg.distribution[ev.peer], ev.peer);
      }
    } else if ev.StoreConfirmed? {
      ConfirmedEntries(cfg, s, ev.full, ev.location);
    } else {
      LocationsKept(cfg, s, ev);
    }
  }

  lemma ConfirmedEntries(cfg: D.Config, s: D.State, full: D.FullShardId, location: PeerId)
    requires NoEmptyEntry(s.locations)
    ensures NoEmptyEntry(D.Confirmed(cfg, s, full, location).state.locations)
  {
    InsertedEntry(s.locations, full.id, full.sid, location);
    assert D.Confirmed(cfg, s, full, location).state.locations == D.Insert(s.locations, full.id, full.sid, location);
  }

  lemma {:induction false} EntriesHaveLocations(cfg: D.Config, events: seq<D.InEvent>)
    requires cfg.Valid() && D.AllFit(cfg, events)
    ensures NoEmptyEntry(D.Run(cfg, D.INITIAL, events).state.locations)
  {
    if events != [] {
      var k := |events| - 1;
      EntriesHaveLocations(cfg, events[..k]);
      StepEntries(cfg, D.Run(cfg, D.INITIAL, events[..k]).state, events[k]);
    }
  }

  /** What a request that is refused is answered with. */
  function Refusal(error: D.RecollectionError): D.Action {
    D.Emit(D.RecollectResponse(Err(error)))
  }

  /** A request answered from the locations alone. */
  lemma RefusalFrom(cfg: D.Config, s: D.State, id: Vid, order: seq<Sid>)
    requires cfg.Valid() && !s.stopped && NoEmptyEntry(s.locations)
    ensures var actions := D.Step(cfg, s, D.RecollectRequest(id, order)).actions;
      var known := |D.At(s.locations, id)|;
      && (Refusal(D.UnknownDataId) in actions <==> known == 0)
      && (Refusal(D.NotEnoughShards) in actions <==> 0 < known < K)
      && (known < K ==> |actions| == 1)
  {
    RefusedIff(cfg, s, id, order);
    var actions := D.Step(cfg, s, D.RecollectRequest(id, order)).actions;
    assert id in s.locations <==> D.At(s.locations, id) != map[];
    IsRefused(actions, D.UnknownDataId);
    IsRefused(actions, D.NotEnoughShards);
  }

  lemma IsRefused(actions: D.Log, error: D.RecollectionError)
    ensures Refusal(error) in actions ==> Refuses(actions)
  {
    if Refusal(error) in actions {
      var i :| 0 <= i < |actions| && actions[i] == Refusal(error);
      assert actions[i].out.response.Err?;
    }
  }

  /**
   In every run of the data memory that has not ended, a request for an id is answered with its being
   unknown exactly when nothing was ever told of it, and with too few shards exactly when some but
   fewer than `K` were told of; a refusal is all that the request brings.
   */
  lemma RefusalIff(cfg: D.Config, events: seq<D.InEvent>, id: Vid, order: seq<Sid>)
    requires cfg.Valid() && D.AllFit(cfg, events) && AllAssigned(cfg, Received(events))
    ensures var actions := D.Step(cfg, D.Run(cfg, D.INITIAL, events).state, D.RecollectRequest(id, order)).actions;
      var told := Learned(cfg, events, id);
      && (Refusal(D.UnknownDataId) in actions <==> told == {})
      && (Refusal(D.NotEnoughShards) in actions <==> 0 < |told| < K)
      && (|told| < K ==> |actions| == 1)
  {
    var s := D.Run(cfg, D.INITIAL, events).state;
    StopsOnUnassignedPeer(cfg, events);
    EntriesHaveLocations(cfg, events);
    KnownIsLearned(cfg, events, id);
    RefusalFrom(cfg, s, id, order);
    assert |D.At(s.locations, id)| == |D.At(s.locations, id).Keys|;
  }

  // ---------- in terms of the peers that reported ----------

  /** The peers whose notice about `id` is among the events. */
  function Heard(events: seq<D.InEvent>, id: Vid): set<PeerId> {
    if events == [] then {} else
    var last := events[|events| - 1];
    Heard(events[..|events| - 1], id) + if last.PeerShardsActualized? && id in last.ids then {last.peer} else {}
  }

  predicate NeverConfirmed(events: seq<D.InEvent>, id: Vid) {
    forall i :: 0 <= i < |events| && events[i].StoreConfirmed? ==> events[i].full.id != id
  }

  lemma {:induction false} LearnedFromHeard(cfg: D.Config, events: seq<D.InEvent>, id: Vid)
    requires NeverConfirmed(events, id) && AllAssigned(cfg, Received(events))
    ensures Heard(events, id) <= cfg.distribution.Keys
    ensures forall sid :: sid in Learned(cfg, events, id) <==>
      exists peer :: peer in Heard(events, id) && cfg.distribution[peer] == sid
  {
    if events != [] {
      var k := |events| - 1;
      ReceivedBefore(cfg, events);
      LearnedFromHeard(cfg, events[..k], id);
    }
  }

  lemma ReceivedBefore(cfg: D.Config, events: seq<D.InEvent>)
    requires events != [] && AllAssigned(cfg, Received(events))
    ensures AllAssigned(cfg, Received(events[..|events| - 1]))
    ensures events[|events| - 1].PeerShardsActualized? ==> events[|events| - 1].peer in cfg.distribution
  {
    var last := events[|events| - 1];
    assert last.PeerShardsActualized? ==> (last.peer, last.ids) in Received(events);
  }

  lemma {:induction false} SameCount(distribution: map<PeerId, Sid>, peers: set<PeerId>, sids: set<Sid>)
    requires Injective(distribution) && peers <= distribution.Keys
    requires forall sid :: sid in sids <==> exists p :: p in peers && distribution[p] == sid
    ensures |sids| == |peers|
    decreases peers
  {
    if peers != {} {
      var p :| p in peers;
      forall sid | sid in sids - {distribution[p]}
        ensures exists q :: q in peers - {p} && distribution[q] == sid
      {
        var q :| q in peers && distribution[q] == sid;
      }
      SameCount(distribution, peers - {p}, sids - {distribution[p]});
    }
  }

  /**
   With every peer assigned a shard of its own, a result that was never put as data can be collected
   exactly when `K` distinct peers' notices about it were taken after initialisation.
   */
  lemma ResultRetrievableIff(site: Site, steps: seq<Step>, id: Vid, order: seq<Sid>)
    requires site.code.Valid() && RunFrom(site, START, steps).Some?
    requires var m := RunFrom(site, START, steps).value.memory;
      m.Ready? && !m.state.stopped && Injective(m.cfg.distribution)
    requires NeverConfirmed(HandledEvents(site, steps), id)
    ensures var m := RunFrom(site, START, steps).value.memory;
      !Refuses(D.Step(m.cfg, m.state, D.RecollectRequest(id, order)).actions) <==> K <= |Heard(HandledEvents(site, steps), id)|
  {
    var m, events := RunFrom(site, START, steps).value.memory, HandledEvents(site, steps);
    RetrievableIff(site, steps, id, order);
    MemoryIsRun(site, steps);
    StopsOnUnassignedPeer(m.cfg, events);
    LearnedFromHeard(m.cfg, events, id);
    SameCount(m.cfg.distribution, Heard(events, id), Learned(m.cfg, events, id));
  }

  // ---------- no notice is lost on the way but before initialisation ----------

  function NoticeOf(ev: D.InEvent): seq<Notice> {
    if ev.PeerShardsActualized? then [(ev.peer, ev.ids)] else []
  }

  /** The notices the instruction memory has handed over. */
  function Told(steps: seq<Step>): seq<Notice> {
    if steps == [] then [] else
    var last := steps[|steps| - 1];
    Told(steps[..|steps| - 1]) + if last.Forward? then NoticeOf(last.event) else []
  }

  function Waiting(input: seq<MemoryInput>): seq<Notice> {
    if input == [] then [] else
    (if input[0].Event? then NoticeOf(input[0].event) else []) + Waiting(input[1..])
  }

  /** The notices taken by a memory that was not initialised yet. */
  ghost function Lost(site: Site, steps: seq<Step>): seq<Notice>
    requires site.code.Valid() && RunFrom(site, START, steps).Some?
  {
    if steps == [] then [] else
    var k := |steps| - 1;
    Lost(site, steps[..k]) + LostBy(RunFrom(site, START, steps[..k]).value, steps[k])
  }

  function LostBy(n: Node, step: Step): seq<Notice> {
    if n.memory.Uninitialized? && step.MemoryTurn? && n.input != [] &&
      n.input[0].Event? then NoticeOf(n.input[0].event) else []
  }

  lemma {:induction false} WaitingAppend(a: seq<MemoryInput>, b: seq<MemoryInput>)
    ensures Waiting(a + b) == Waiting(a) + Waiting(b)
  {
    if a == [] {
      assert a + b == b;
    } else {
      assert (a + b)[1..] == a[1..] + b;
      WaitingAppend(a[1..], b);
    }
  }

  function ToldBy(step: Step): seq<Notice> {
    if step.Forward? then NoticeOf(step.event) else []
  }

  lemma ReceivedSnoc(events: seq<D.InEvent>, more: seq<D.InEvent>)
    requires |more| <= 1
    ensures Received(events + more) == Received(events) + Received(more)
    ensures Received(more) == if more == [] then [] else NoticeOf(more[0])
  {
    if more == [] {
      assert events + more == events;
    } else {
      assert (events + more)[..|events|] == events;
      assert more[..0] == [];
    }
  }

  /** One step moves a notice along: told, waiting, taken too early or handled. */
  lemma StepConserves(site: Site, n: Node, step: Step)
    requires WellFormed(site, n) && Possible(site, n, step)
    ensures Waiting(n.input) + ToldBy(step) ==
      LostBy(n, step) + Received(HandledBy(n, step)) + Waiting(Next(site, n, step).input)
    ensures LostBy(n, step) != [] ==> n.memory.Uninitialized?
  {
    ReceivedSnoc([], HandledBy(n, step));
    if step.MemoryTurn? {
      assert n.input[0] in n.input;
      TurnKeepsRest(site, n);
    } else if step.Forward? {
      WaitingOne(step.event);
      WaitingAppend(n.input, [Event(step.event)]);
    } else if step.InitializeTx? {
      assert Waiting([Initialize(step.distribution)]) == [];
      WaitingAppend(n.input, [Initialize(step.distribution)]);
    } else {
      OthersTellNothing(site, n, step);
    }
  }

  lemma TurnKeepsRest(site: Site, n: Node)
    requires WellFormed(site, n) && Possible(site, n, MemoryTurn)
    ensures Next(site, n, MemoryTurn).input == n.input[1..]
  {
    assert n.input[0] in n.input;
  }

  lemma WaitingOne(ev: D.InEvent)
    ensures Waiting([Event(ev)]) == NoticeOf(ev)
  {
    var one: seq<MemoryInput> := [Event(ev)];
    assert one[1..] == [];
  }

  lemma OthersTellNothing(site: Site, n: Node, step: Step)
    requires WellFormed(site, n) && Possible(site, n, step)
    requires !step.MemoryTurn? && !step.Forward? && !step.InitializeTx?
    ensures Waiting(Next(site, n, step).input) == Waiting(n.input) && Received(HandledBy(n, step)) == []
  {
    ReceivedSnoc([], HandledBy(n, step));
    match step
    case IncomingRequest(request, _) => RequestTellsNothing(n.input, request);
    case NetworkResponse(id, response) => ResponseTellsNothing(n.input, n.behaviour, id, response);
    case _ => QuietInput(site, n, step);
  }

  lemma RequestTellsNothing(input: seq<MemoryInput>, request: Behaviour.Request)
    ensures Waiting(input + [Event(Behaviour.EventFor(request))]) == Waiting(input)
  {
    WaitingOne(Behaviour.EventFor(request));
    WaitingAppend(input, [Event(Behaviour.EventFor(request))]);
  }

  lemma ResponseTellsNothing(
      input: seq<MemoryInput>, b: Behaviour.State, id: Behaviour.RequestId, response: Behaviour.Response)
    ensures Waiting(input + Events(Behaviour.ResponseEvents(b, id, response))) == Waiting(input)
  {
    var events := Behaviour.ResponseEvents(b, id, response);
    if events != [] {
      WaitingOne(events[0]);
      assert Events(events) == [Event(events[0])];
    }
    WaitingAppend(input, Events(events));
  }

  /**
   In every run, the notices handed over are those taken before initialisation, then those handled
   after it, then those still waiting, in this order and with nothing added, left out or repeated.
   */
  lemma {:induction false} NoticesAreConserved(site: Site, steps: seq<Step>)
    requires site.code.Valid() && RunFrom(site, START, steps).Some?
    ensures Told(steps) ==
      Lost(site, steps) + Received(HandledEvents(site, steps)) + Waiting(RunFrom(site, START, steps).value.input)
  {
    if steps != [] {
      var k := |steps| - 1;
      NoticesAreConserved(site, steps[..k]);
      var before := RunFrom(site, START, steps[..k]).value;
      StepConserves(site, before, steps[k]);
      MemoryIsRun(site, steps[..k]);
      var events, handled := HandledEvents(site, steps[..k]), HandledBy(before, steps[k]);
      ReceivedSnoc(events, handled);
      MovedAlong(Lost(site, steps[..k]), Received(events), Waiting(before.input), ToldBy(steps[k]),
                 LostBy(before, steps[k]), Received(handled), Waiting(RunFrom(site, START, steps).value.input));
    }
  }

  // ---------- completed programs ----------

  /** Notices come one per message at most, so every number of them is that of some prefix. */
  lemma {:induction false} PrefixWith(out: seq<I.OutEvent>, sent: nat, k: nat) returns (taken: nat)
    requires sent <= |out| && k <= |Notices(out[..sent])|
    ensures taken <= sent && Notices(out[..taken]) == Notices(out[..sent])[..k]
    decreases sent
  {
    if k == |Notices(out[..sent])| {
      taken := sent;
    } else {
      assert out[..sent][..sent - 1] == out[..sent - 1];
      taken := PrefixWith(out, sent - 1, k);
    }
  }

  lemma NoticesGrow(out: seq<I.OutEvent>, a: nat, b: nat)
    requires a <= b <= |out|
    ensures Notices(out[..a]) <= Notices(out[..b])
  {
    assert out[..b] == out[..a] + out[a..b];
    NoticesAppend(out[..a], out[a..b]);
  }

  /** The events have taken in the notices of some prefix that reaches `upTo`. */
  lemma JoinedUpTo(reports: seq<I.InEvent>, sent: nat, events: seq<D.InEvent>, upTo: nat) returns (taken: nat)
    requires upTo <= sent <= |I.Run(K, reports).out| && Received(events) <= Notices(I.Run(K, reports).out[..sent])
    requires |Notices(I.Run(K, reports).out[..upTo])| <= |Received(events)|
    ensures upTo <= taken && Joined(reports, taken, events)
  {
    var out := I.Run(K, reports).out;
    taken := PrefixWith(out, sent, |Received(events)|);
    if taken < upTo {
      NoticesGrow(out, taken, upTo);
      taken := upTo;
    }
  }

  /** The memory runs and would not refuse to collect `id`. */
  ghost predicate Collectable(cfg: D.Config, s: D.State, id: Vid, order: seq<Sid>)
    requires cfg.Wide()
  {
    !s.stopped && !Refuses(D.Step(cfg, s, D.RecollectRequest(id, order)).actions)
  }

  /**
   The peer was told the notices of the instruction memory up to some message, in order, none of them
   before it was initialised, and has handled the one that came with the completion of `p`.  Then
   every result of `p` can be collected.
   */
  lemma CompletionMeansRetrievable(
      site: Site, steps: seq<Step>, reports: seq<I.InEvent>, sent: nat, f: nat, p: I.ProgramId, id: Vid, order: seq<Sid>)
    requires site.code.Valid() && RunFrom(site, START, steps).Some? && RunFrom(site, START, steps).value.memory.Ready?
    requires Injective(RunFrom(site, START, steps).value.memory.cfg.distribution)
    requires ReportersAssigned(RunFrom(site, START, steps).value.memory.cfg, reports)
    requires f + 2 <= sent <= |I.Run(K, reports).out| && I.Run(K, reports).out[f] == I.FinishedExecution(p)
    requires Told(steps) == Notices(I.Run(K, reports).out[..sent]) && Lost(site, steps) == []
    requires |Notices(I.Run(K, reports).out[..f + 2])| <= |Received(HandledEvents(site, steps))|
    ensures p in I.Run(K, reports).programs
    ensures id in I.Run(K, reports).programs[p].affected ==>
      var m := RunFrom(site, START, steps).value.memory;
      Collectable(m.cfg, m.state, id, order)
  {
    var n, events := RunFrom(site, START, steps).value, HandledEvents(site, steps);
    HandledFirst(site, steps);
    MemoryIsRun(site, steps);
    HandledMeansRetrievable(n.memory.cfg, reports, sent, events, f, p, id, order);
  }

  /** With none lost, the notices handled are the first of those told. */
  lemma HandledFirst(site: Site, steps: seq<Step>)
    requires site.code.Valid() && RunFrom(site, START, steps).Some? && Lost(site, steps) == []
    ensures Received(HandledEvents(site, steps)) <= Told(steps)
  {
    NoticesAreConserved(site, steps);
    FirstOf(Told(steps), Lost(site, steps), Received(HandledEvents(site, steps)),
      Waiting(RunFrom(site, START, steps).value.input));
  }

  lemma FirstOf(told: seq<Notice>, lost: seq<Notice>, handled: seq<Notice>, waiting: seq<Notice>)
    requires lost == [] && told == lost + handled + waiting
    ensures handled <= told
  {
    assert lost + handled + waiting == handled + waiting;
  }

  lemma HandledMeansRetrievable(
      cfg: D.Config, reports: seq<I.InEvent>, sent: nat, events: seq<D.InEvent>, f: nat, p: I.ProgramId,
        id: Vid, order: seq<Sid>)
    requires cfg.Valid() && D.AllFit(cfg, events) && Injective(cfg.distribution) && ReportersAssigned(cfg, reports)
    requires f + 2 <= sent <= |I.Run(K, reports).out| && I.Run(K, reports).out[f] == I.FinishedExecution(p)
    requires Received(events) <= Notices(I.Run(K, reports).out[..sent])
    requires |Notices(I.Run(K, reports).out[..f + 2])| <= |Received(events)|
    ensures p in I.Run(K, reports).programs
    ensures id in I.Run(K, reports).programs[p].affected ==>
      Collectable(cfg, D.Run(cfg, D.INITIAL, events).state, id, order)
  {
    var taken := JoinedUpTo(reports, sent, events, f + 2);
    JoinedMeansRetrievable(cfg, reports, taken, events, f, p, id, order);
  }

  // ---------- a completed program whose result cannot be collected ----------

  function EarlyNotice(distribution: Assignment, a: PeerId, b: PeerId, ids: seq<Vid>): seq<Step> {
    [Forward(D.PeerShardsActualized(a, ids)), MemoryTurn] +
    [InitializeTx(distribution), MemoryTurn] +
    [Forward(D.PeerShardsActualized(b, ids)), MemoryTurn]
  }

  function TwoReports(p: I.ProgramId, program: Instructions.Program, a: PeerId, b: PeerId, ids: seq<Vid>): seq<I.InEvent> {
    [I.FinalizedProgram(p, program, ids), I.ExecutedProgram(a, p), I.ExecutedProgram(b, p)]
  }

  lemma TwoReportsComplete(p: I.ProgramId, program: Instructions.Program, a: PeerId, b: PeerId, ids: seq<Vid>)
    requires a != b
    ensures I.Run(K, TwoReports(p, program, a, b, ids)).out ==
      [I.NextProgram(p, program), I.PeerShardsActualized(p, a, ids), I.FinishedExecution(p),
        I.PeerShardsActualized(p, b, ids)]
  {
    var r := TwoReports(p, program, a, b, ids);
    assert r[..2][..1] == r[..1] && r[..1][..0] == [] && r[..3] == r;
    var none: set<PeerId> := {};
    var asked: I.Tracked := map[p := I.Metadata(I.Executing(none), ids)];
    assert I.Run(K, r[..1]) == I.Effect(asked, [I.NextProgram(p, program)]);
    FirstReport(p, a, ids);
    var one: I.Tracked := map[p := I.Metadata(I.Executing({a}), ids)];
    assert I.Run(K, r[..2]) == I.Effect(one, [I.NextProgram(p, program)] + [I.PeerShardsActualized(p, a, ids)]);
    SecondReport(p, a, b, ids);
  }

  lemma FirstReport(p: I.ProgramId, a: PeerId, ids: seq<Vid>)
    ensures I.Step(K, map[p := I.Metadata(I.Executing({}), ids)], I.ExecutedProgram(a, p)) ==
      I.Effect(map[p := I.Metadata(I.Executing({a}), ids)], [I.PeerShardsActualized(p, a, ids)])
  {
    var none: set<PeerId> := {};
    assert none + {a} == {a} && |{a}| == 1;
    var asked: I.Tracked := map[p := I.Metadata(I.Executing(none), ids)];
    assert asked[p := I.Metadata(I.Executing({a}), ids)] == map[p := I.Metadata(I.Executing({a}), ids)];
  }

  lemma SecondReport(p: I.ProgramId, a: PeerId, b: PeerId, ids: seq<Vid>)
    requires a != b
    ensures I.Step(K, map[p := I.Metadata(I.Executing({a}), ids)], I.ExecutedProgram(b, p)).out ==
      [I.FinishedExecution(p), I.PeerShardsActualized(p, b, ids)]
  {
    assert |{a} + {b}| == 2;
  }

  /** The steps lead to `n`, whose memory has handled `events`, and `told` was handed over. */
  ghost predicate Comes(site: Site, steps: seq<Step>, n: Node, events: seq<D.InEvent>, told: seq<Notice>)
    requires site.code.Valid()
  {
    RunFrom(site, START, steps) == Some(n) && HandledEvents(site, steps) == events && Told(steps) == told
  }

  lemma OneMoreStep(site: Site, steps: seq<Step>, step: Step, n: Node, events: seq<D.InEvent>, told: seq<Notice>)
    requires site.code.Valid() && Comes(site, steps, n, events, told) && Possible(site, n, step)
    ensures Comes(site, steps + [step], Next(site, n, step), events + HandledBy(n, step), told + ToldBy(step))
  {
    assert (steps + [step])[..|steps|] == steps;
  }

  lemma OneStepTo(
      site: Site, steps: seq<Step>, step: Step, n: Node, events: seq<D.InEvent>, told: seq<Notice>,
      events': seq<D.InEvent>, told': seq<Notice>)
    requires site.code.Valid() && Comes(site, steps, n, events, told) && Possible(site, n, step)
    requires events' == events + HandledBy(n, step) && told' == told + ToldBy(step)
    ensures Comes(site, steps + [step], Next(site, n, step), events', told')
  {
    OneMoreStep(site, steps, step, n, events, told);
  }

  lemma Pair<A>(s: seq<A>, a: A, b: A)
    ensures s + [a] + [b] == s + [a, b]
  {
  }

  lemma TakesForwarded(site: Site, n: Node, peer: PeerId, ids: seq<Vid>)
    requires WellFormed(site, n) && n.input == [] && (n.memory.Ready? ==> !n.memory.state.stopped)
    ensures var ev := D.PeerShardsActualized(peer, ids);
      var mid := Next(site, n, Forward(ev));
      && HandledBy(n, Forward(ev)) == [] && ToldBy(Forward(ev)) == [(peer, ids)]
      && WellFormed(site, mid) && Possible(site, mid, MemoryTurn) && Next(site, mid, MemoryTurn) == Handled(n, ev)
      && HandledBy(mid, MemoryTurn) == (if n.memory.Ready? then [ev] else [])
  {
    var ev := D.PeerShardsActualized(peer, ids);
    var mid := Next(site, n, Forward(ev));
    assert mid.input == [Event(ev)] && mid.(input := mid.input[1..]) == n;
  }

  /** A notice handed over to a memory with nothing else to do, and taken. */
  lemma NoticeTaken(site: Site, steps: seq<Step>, n: Node, events: seq<D.InEvent>, told: seq<Notice>,
        peer: PeerId, ids: seq<Vid>)
    requires site.code.Valid() && Comes(site, steps, n, events, told) && n.input == []
    requires n.memory.Ready? ==> !n.memory.state.stopped && n.memory.cfg.Wide()
    ensures var ev := D.PeerShardsActualized(peer, ids);
      Comes(site, steps + [Forward(ev), MemoryTurn], Handled(n, ev),
            events + (if n.memory.Ready? then [ev] else []), told + [(peer, ids)])
  {
    var ev := D.PeerShardsActualized(peer, ids);
    var mid, told' := Next(site, n, Forward(ev)), told + [(peer, ids)];
    TakesForwarded(site, n, peer, ids);
    OneStepTo(site, steps, Forward(ev), n, events, told, events, told');
    OneStepTo(site, steps + [Forward(ev)], MemoryTurn, mid, events, told',
              events + (if n.memory.Ready? then [ev] else []), told');
    Pair(steps, Forward(ev), MemoryTurn);
  }

  lemma OfferIsQuiet(site: Site, n: Node, distribution: Assignment)
    requires WellFormed(site, n) && n.input == [] && n.memory.Uninitialized?
    ensures var mid := Next(site, n, InitializeTx(distribution));
      && HandledBy(n, InitializeTx(distribution)) == [] && ToldBy(InitializeTx(distribution)) == []
      && HandledBy(mid, MemoryTurn) == [] && ToldBy(MemoryTurn) == []
  {
  }

  lemma OfferTaken(site: Site, steps: seq<Step>, n: Node, events: seq<D.InEvent>, told: seq<Notice>, distribution: Assignment)
    requires site.code.Valid() && Comes(site, steps, n, events, told) && n.input == [] && n.memory.Uninitialized?
    ensures Comes(site, steps + [InitializeTx(distribution), MemoryTurn], Offered(site, n, distribution), events, told)
  {
    var offer := InitializeTx(distribution);
    OfferIsQuiet(site, n, distribution);
    TakesOffer(site, n, distribution);
    OneStepTo(site, steps, offer, n, events, told, events, told);
    OneStepTo(site, steps + [offer], MemoryTurn, Next(site, n, offer), events, told, events, told);
    Pair(steps, offer, MemoryTurn);
  }

  lemma TakenTooEarly(site: Site, distribution: Assignment, a: PeerId, ids: seq<Vid>)
    requires site.code.Valid()
    ensures Comes(site, [Forward(D.PeerShardsActualized(a, ids)), MemoryTurn] + [InitializeTx(distribution), MemoryTurn],
                  Offered(site, START, distribution), [], [(a, ids)])
  {
    assert Comes(site, [], START, [], []);
    NoticeTaken(site, [], START, [], [], a, ids);
    var first: seq<Step> := [Forward(D.PeerShardsActualized(a, ids)), MemoryTurn];
    var told: seq<Notice> := [(a, ids)];
    assert [] + first == first && [] + told == told;
    assert Handled(START, D.PeerShardsActualized(a, ids)) == START;
    OfferTaken(site, first, START, [], told, distribution);
  }

  lemma EarlyIsLost(site: Site, distribution: Assignment, a: PeerId, b: PeerId, ids: seq<Vid>) returns (n: Node)
    requires site.code.Valid() && D.VerifyDistribution(site.code, D.Collect(distribution))
    ensures n.memory.Ready? && n.memory.cfg.distribution == D.Collect(distribution) && n.input == []
    ensures Comes(site, EarlyNotice(distribution, a, b, ids), n, [D.PeerShardsActualized(b, ids)], [(a, ids), (b, ids)])
  {
    TakenTooEarly(site, distribution, a, ids);
    var ready, ev := Offered(site, START, distribution), D.PeerShardsActualized(b, ids);
    n := Handled(ready, ev);
    NoticeTaken(site, [Forward(D.PeerShardsActualized(a, ids)), MemoryTurn] + [InitializeTx(distribution), MemoryTurn],
                ready, [], [(a, ids)], b, ids);
    assert [] + [ev] == [ev];
  }

  /**
   For every program with a result and any two assigned peers that report it: the first notice may be
   taken before initialisation.  Then the program is announced as finished, every notice has been
   taken, and the result still cannot be collected.
   */
  lemma LostNotice(site: Site, distribution: Assignment, p: I.ProgramId, program: Instructions.Program,
                   a: PeerId, b: PeerId, ids: seq<Vid>, id: Vid, order: seq<Sid>)
    requires site.code.Valid() && D.VerifyDistribution(site.code, D.Collect(distribution))
    requires a != b && a in D.Collect(distribution) && b in D.Collect(distribution) && id in ids
    ensures I.FinishedExecution(p) in I.Run(K, TwoReports(p, program, a, b, ids)).out
    ensures Told(EarlyNotice(distribution, a, b, ids)) == Notices(I.Run(K, TwoReports(p, program, a, b, ids)).out)
    ensures RunFrom(site, START, EarlyNotice(distribution, a, b, ids)).Some?
    ensures var n := RunFrom(site, START, EarlyNotice(distribution, a, b, ids)).value;
      && n.input == [] && n.memory.Ready? && !n.memory.state.stopped
      && Refuses(D.Step(n.memory.cfg, n.memory.state, D.RecollectRequest(id, order)).actions)
  {
    var steps := EarlyNotice(distribution, a, b, ids);
    var n := EarlyIsLost(site, distribution, a, b, ids);
    TwoReportsComplete(p, program, a, b, ids);
    NoticesOfFour(p, program, a, b, ids);
    OneIsNotEnough(site, steps, n, b, ids, id, order);
  }

  lemma NoticesOfFour(p: I.ProgramId, program: Instructions.Program, a: PeerId, b: PeerId, ids: seq<Vid>)
    ensures Notices([I.NextProgram(p, program), I.PeerShardsActualized(p, a, ids), I.FinishedExecution(p),
                     I.PeerShardsActualized(p, b, ids)]) == [(a, ids), (b, ids)]
    ensures I.FinishedExecution(p) in
      [I.NextProgram(p, program), I.PeerShardsActualized(p, a, ids), I.FinishedExecution(p),
        I.PeerShardsActualized(p, b, ids)]
  {
    var out := [I.NextProgram(p, program), I.PeerShardsActualized(p, a, ids), I.FinishedExecution(p),
                I.PeerShardsActualized(p, b, ids)];
    assert out[..3][..2] == out[..2] && out[..2][..1] == out[..1] && out[..1][..0] == [];
    assert Notices(out[..1]) == [] && Notices(out[..2]) == [(a, ids)] && Notices(out[..3]) == [(a, ids)];
    assert out[2] == I.FinishedExecution(p);
  }

  lemma OneIsNotEnough(site: Site, steps: seq<Step>, n: Node, b: PeerId, ids: seq<Vid>, id: Vid, order: seq<Sid>)
    requires site.code.Valid() && RunFrom(site, START, steps) == Some(n) && n.memory.Ready?
    requires HandledEvents(site, steps) == [D.PeerShardsActualized(b, ids)] && b in n.memory.cfg.distribution
    ensures !n.memory.state.stopped && Refuses(D.Step(n.memory.cfg, n.memory.state, D.RecollectRequest(id, order)).actions)
  {
    var events: seq<D.InEvent> := [D.PeerShardsActualized(b, ids)];
    MemoryIsRun(site, steps);
    OneNotice(n.memory.cfg, b, ids, id);
    StopsOnUnassignedPeer(n.memory.cfg, events);
    RetrievableIff(site, steps, id, order);
  }

  lemma OneNotice(cfg: D.Config, b: PeerId, ids: seq<Vid>, id: Vid)
    requires b in cfg.distribution
    ensures Received([D.PeerShardsActualized(b, ids)]) == [(b, ids)]
    ensures |Learned(cfg, [D.PeerShardsActualized(b, ids)], id)| < K
  {
    var events: seq<D.InEvent> := [D.PeerShardsActualized(b, ids)];
    assert events[..0] == [];
    assert Learned(cfg, events, id) == Tells(cfg, events[0], id) <= {cfg.distribution[b]};
    ReedSolomon.SubsetSize(Learned(cfg, events, id), {cfg.distribution[b]});
  }
}
