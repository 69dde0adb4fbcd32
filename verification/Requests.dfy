/** What one data memory asks of other peers, and when (src/data_memory/mod.rs). */
module Requests {
  import opened Types
  import opened DataMemory

  predicate Asks(log: Log, out: OutEvent) {
    Emit(out) in log
  }

  lemma OneAsks(cfg: Config, s: State, of: FullShardId, known: map<Sid, PeerId>, full: FullShardId, peer: PeerId)
    requires cfg.Wide()
    ensures Asks(AskOne(cfg, s, of, known).actions, AssignedRequest(full, peer)) <==>
      full == of && full.sid in known && known[full.sid] == peer && peer != cfg.localId
    ensures !Asks(AskOne(cfg, s, of, known).actions, ServeShardRequest(full, peer))
  {
  }

  lemma {:induction false} AskedAsks(
      cfg: Config, s: State, id: Vid, known: map<Sid, PeerId>, order: seq<Sid>, full: FullShardId, peer: PeerId)
    requires cfg.Wide()
    ensures Asks(Asked(cfg, s, id, known, order).actions, AssignedRequest(full, peer)) <==>
      full.id == id && full.sid in order && full.sid in known && known[full.sid] == peer && peer != cfg.localId
    ensures !Asks(Asked(cfg, s, id, known, order).actions, ServeShardRequest(full, peer))
  {
    if order != [] {
      var rest, sid := order[..|order| - 1], order[|order| - 1];
      AskedAsks(cfg, s, id, known, rest, full, peer);
      OneAsks(cfg, Asked(cfg, s, id, known, rest).state, Full(id, sid), known, full, peer);
    }
  }

  lemma RecollectedAsks(cfg: Config, s: State, id: Vid, order: seq<Sid>, full: FullShardId, peer: PeerId)
    requires cfg.Wide() && !s.stopped
    ensures Asks(Recollected(cfg, s, id, order).actions, AssignedRequest(full, peer)) <==>
      && Starts(s, id) && full.id == id && full.sid in order
      && full.sid in s.locations[id] && s.locations[id][full.sid] == peer && peer != cfg.localId
    ensures !Asks(Recollected(cfg, s, id, order).actions, ServeShardRequest(full, peer))
  {
    if Starts(s, id) {
      AskedAsks(cfg, s.(assembled := s.assembled[id := map[]]), id, s.locations[id], order, full, peer);
    }
  }

  lemma OtherEventsAskNobody(cfg: Config, s: State, ev: InEvent, full: FullShardId, peer: PeerId)
    requires cfg.Wide() && Fits(cfg, ev) && !ev.RecollectRequest?
    ensures !Asks(Step(cfg, s, ev).actions, AssignedRequest(full, peer))
  {
  }

  /**
   A stored shard is requested exactly when a collection of its data starts, and then of the peer
   that is known to have it; a shard of this peer itself is never requested.
   */
  lemma AssignedRequestIff(cfg: Config, s: State, ev: InEvent, full: FullShardId, peer: PeerId)
    requires cfg.Wide() && Fits(cfg, ev)
    ensures Asks(Step(cfg, s, ev).actions, AssignedRequest(full, peer)) <==>
      && ev.RecollectRequest? && Starts(s, ev.id) && full.id == ev.id && full.sid in ev.order
      && full.sid in s.locations[ev.id] && s.locations[ev.id][full.sid] == peer && peer != cfg.localId
  {
    if s.stopped {
    } else if ev.RecollectRequest? {
      RecollectedAsks(cfg, s, ev.id, ev.order, full, peer);
    } else {
      OtherEventsAskNobody(cfg, s, ev, full, peer);
    }
  }

  lemma PulledAsks(cfg: Config, s: State, id: Vid, author: PeerId, full: FullShardId, peer: PeerId)
    ensures Asks(Pulled(cfg, s, id, author).actions, ServeShardRequest(full, peer)) <==>
      id == full.id && author == peer && peer != cfg.localId && cfg.Assigned() == Some(full.sid)
  {
  }

  lemma OtherEventsPullNothing(cfg: Config, s: State, ev: InEvent, full: FullShardId, peer: PeerId)
    requires cfg.Wide() && Fits(cfg, ev) && !ev.RecollectRequest? && !ev.StorageRequestTx?
    ensures !Asks(Step(cfg, s, ev).actions, ServeShardRequest(full, peer))
  {
  }

  /**
   A shard of fresh data is requested exactly on a storage request of another peer, of that peer,
   and it is the assigned one.
   */
  lemma ServeRequestIff(cfg: Config, s: State, ev: InEvent, full: FullShardId, peer: PeerId)
    requires cfg.Wide() && Fits(cfg, ev)
    ensures Asks(Step(cfg, s, ev).actions, ServeShardRequest(full, peer)) <==>
      !s.stopped && ev == StorageRequestTx(full.id, peer) && peer != cfg.localId && cfg.Assigned() == Some(full.sid)
  {
    if s.stopped {
    } else if ev.RecollectRequest? {
      RecollectedAsks(cfg, s, ev.id, ev.order, full, peer);
    } else if ev.StorageRequestTx? {
      PulledAsks(cfg, s, ev.id, ev.author, full, peer);
    } else {
      OtherEventsPullNothing(cfg, s, ev, full, peer);
    }
  }

  // ---------- answers and reports ----------

  /** The outputs that are neither requests nor about collections and spreads. */
  predicate IsAnnouncement(out: OutEvent) {
    || out.Initialized? || out.PreparedServiceResponse? || out.AssignedStoreSuccess?
    || out.ServeShardResponse? || out.AssignedResponse? || out.ListDistributed?
  }

  /** The shard that the event puts into the local storage, if any, unless the bus writes it. */
  function StoredBy(cfg: Config, s: State, ev: InEvent): Option<(FullShardId, Bytes)> {
    if s.stopped then
      None
    else if ev.ServedShard? && ev.shard.Some? then
      Some((ev.full, ev.shard.value))
    else if ev.StorageRequestTx? && ev.author == cfg.localId && cfg.Assigned().Some? then
      var full := Full(ev.id, cfg.Assigned().value);
      if Get(s.toDistribute, full).Some? then Some((full, Get(s.toDistribute, full).value)) else None
    else
      None
  }

  /** What the event makes the memory say, apart from requests and from news of collections and spreads. */
  function Announces(cfg: Config, s: State, ev: InEvent): seq<OutEvent> {
    if s.stopped then [] else
    match ev
    case PrepareService(id, _) => [PreparedServiceResponse(id)]
    case ServeRequested(full) => [ServeShardResponse(full, Get(s.toDistribute, full))]
    case AssignedRequested(full) => [AssignedResponse(full, Get(s.localStorage, full))]
    case ListRequested => [ListDistributed(Distributed(s))]
    case _ => if StoredBy(cfg, s, ev).Some? then [AssignedStoreSuccess(StoredBy(cfg, s, ev).value.0)] else []
  }

  function Announced(log: Log): seq<OutEvent> {
    if log == [] then [] else
    var last := log[|log| - 1];
    Announced(log[..|log| - 1]) + if last.Emit? && IsAnnouncement(last.out) then [last.out] else []
  }

  lemma {:induction false} NothingAnnounced(log: Log)
    requires forall i :: 0 <= i < |log| ==> !(log[i].Emit? && IsAnnouncement(log[i].out))
    ensures Announced(log) == []
  {
    if log != [] {
      NothingAnnounced(log[..|log| - 1]);
    }
  }

  lemma AnnouncedOne(a: Action)
    ensures Announced([a]) == if a.Emit? && IsAnnouncement(a.out) then [a.out] else []
  {
    assert [a][..0] == [];
  }

  lemma {:induction false} AskedAnnounces(
      cfg: Config, s: State, id: Vid, known: map<Sid, PeerId>, order: seq<Sid>, i: nat)
    requires cfg.Wide() && i < |Asked(cfg, s, id, known, order).actions|
    ensures var a := Asked(cfg, s, id, known, order).actions[i]; !(a.Emit? && IsAnnouncement(a.out))
  {
    var before := Asked(cfg, s, id, known, order[..|order| - 1]);
    if i < |before.actions| {
      AskedAnnounces(cfg, s, id, known, order[..|order| - 1], i);
    }
  }

  lemma RequestAnnouncesNothing(cfg: Config, s: State, id: Vid, order: seq<Sid>)
    requires cfg.Wide()
    ensures Announced(Recollected(cfg, s, id, order).actions) == []
  {
    var actions := Recollected(cfg, s, id, order).actions;
    forall i | 0 <= i < |actions|
      ensures !(actions[i].Emit? && IsAnnouncement(actions[i].out))
    {
      if id in s.locations && K <= |s.locations[id]| && id !in s.assembled && i > 0 {
        AskedAnnounces(cfg, s.(assembled := s.assembled[id := map[]]), id, s.locations[id], order, i - 1);
      }
    }
    NothingAnnounced(actions);
  }

  lemma CollectedAnnouncesNothing(cfg: Config, s: State, full: FullShardId, shard: Option<Bytes>)
    requires cfg.Wide()
    ensures Announced(Collected(cfg, s, full, shard).actions) == []
  {
    NothingAnnounced(Collected(cfg, s, full, shard).actions);
  }

  lemma PulledAnnounces(cfg: Config, s: State, id: Vid, author: PeerId)
    requires !s.stopped
    ensures Announced(Pulled(cfg, s, id, author).actions) == Announces(cfg, s, StorageRequestTx(id, author))
  {
    var actions := Pulled(cfg, s, id, author).actions;
    if actions != [] {
      AnnouncedOne(actions[0]);
      assert actions == [actions[0]];
    }
  }

  /**
   Every event is answered and reported as it should be: data put up for serving, a shard stored, and
   requests for a shard or for the list, each once, with the shard or the list there is; and nothing
   of the kind is said otherwise.
   */
  lemma AnnouncesExactly(cfg: Config, s: State, ev: InEvent)
    requires cfg.Wide() && Fits(cfg, ev)
    ensures Announced(Step(cfg, s, ev).actions) == Announces(cfg, s, ev)
  {
    var actions := Step(cfg, s, ev).actions;
    if s.stopped {
    } else if ev.RecollectRequest? {
      RequestAnnouncesNothing(cfg, s, ev.id, ev.order);
    } else if ev.AssignedShard? {
      CollectedAnnouncesNothing(cfg, s, ev.full, ev.shard);
    } else if ev.StorageRequestTx? {
      PulledAnnounces(cfg, s, ev.id, ev.author);
    } else if ev.StoreConfirmed? {
      NothingAnnounced(actions);
    } else if actions != [] {
      AnnouncedOne(actions[0]);
      assert actions == [actions[0]];
    }
  }

  /** Everything announced over a run. */
  function AllAnnounced(cfg: Config, s: State, events: seq<InEvent>): seq<OutEvent>
    requires cfg.Wide() && AllFit(cfg, events)
  {
    if events == [] then [] else
    var k := |events| - 1;
    AllAnnounced(cfg, s, events[..k]) + Announces(cfg, Run(cfg, s, events[..k]).state, events[k])
  }

  lemma {:induction false} AnnouncedAppend(a: Log, b: Log)
    ensures Announced(a + b) == Announced(a) + Announced(b)
  {
    if b == [] {
      assert a + b == a;
    } else {
      assert (a + b)[..|a + b| - 1] == a + b[..|b| - 1];
      AnnouncedAppend(a, b[..|b| - 1]);
    }
  }

  lemma {:induction false} RunAnnounces(cfg: Config, s: State, events: seq<InEvent>)
    requires cfg.Wide() && AllFit(cfg, events)
    ensures Announced(Run(cfg, s, events).actions) == AllAnnounced(cfg, s, events)
  {
    if events != [] {
      var k := |events| - 1;
      var before := Run(cfg, s, events[..k]);
      RunAnnounces(cfg, s, events[..k]);
      AnnouncesExactly(cfg, before.state, events[k]);
      AnnouncedAppend(before.actions, Step(cfg, before.state, events[k]).actions);
    }
  }
}
