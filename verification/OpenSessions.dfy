/**
 Collections that never end (src/data_memory/mod.rs).  A collection that was started waits for shards
 that it asked for once; requests made meanwhile are taken to be answered by it, and nothing is
 asked for again.
 */
module OpenSessions {
  import opened Types
  import opened ReedSolomon
  import opened DataMemory
  import opened Recollection
  import Completion
  import Requests

  // ---------- one event ----------

  /** The event brings a shard that the open collection of `id` does not have. */
  predicate Brings(s: State, ev: InEvent, id: Vid) {
    && !s.stopped && id in s.assembled
    && ev.AssignedShard? && ev.full.id == id && ev.shard.Some? && ev.full.sid !in s.assembled[id]
  }

  /** The open collection after the event. */
  ghost predicate SessionAfter(s: State, ev: InEvent, id: Vid, after: Option<map<Sid, Bytes>>)
    requires id in s.assembled
  {
    after == if !Brings(s, ev, id) then Some(s.assembled[id])
             else if |s.assembled[id]| == K - 1 then None
             else Some(s.assembled[id][ev.full.sid := ev.shard.value])
  }

  lemma {:induction false} AskingElsewhere(
      cfg: Config, s: State, of: Vid, known: map<Sid, PeerId>, order: seq<Sid>, id: Vid)
    requires cfg.Wide() && of != id
    ensures Lookup(Asked(cfg, s, of, known, order).state.assembled, id) == Lookup(s.assembled, id)
  {
    if order != [] {
      AskingElsewhere(cfg, s, of, known, order[..|order| - 1], id);
    }
  }

  lemma RequestElsewhere(cfg: Config, s: State, of: Vid, order: seq<Sid>, id: Vid)
    requires cfg.Wide() && id in s.assembled
    ensures Lookup(Recollected(cfg, s, of, order).state.assembled, id) == Lookup(s.assembled, id)
  {
    if of != id && of in s.locations {
      AskingElsewhere(cfg, s.(assembled := s.assembled[of := map[]]), of, s.locations[of], order, id);
    }
  }

  lemma ShardArrives(cfg: Config, s: State, full: FullShardId, shard: Option<Bytes>, id: Vid)
    requires cfg.Wide() && Pending(s) && !s.stopped && id in s.assembled
    ensures SessionAfter(s, AssignedShard(full, shard), id, Lookup(Collected(cfg, s, full, shard).state.assembled, id))
  {
    if Brings(s, AssignedShard(full, shard), id) {
      InsertedSize(s.assembled[id], full.sid, shard.value);
    }
  }

  /**
   An open collection is closed by an event exactly when this brings a new shard and `K - 1` are
   held; a new shard is added otherwise, and every other event leaves the collection as it is.
   */
  lemma ClosesIff(cfg: Config, s: State, ev: InEvent, id: Vid)
    requires cfg.Valid() && Fits(cfg, ev) && Pending(s) && id in s.assembled
    ensures SessionAfter(s, ev, id, Lookup(Step(cfg, s, ev).state.assembled, id))
    ensures id !in Step(cfg, s, ev).state.assembled <==> Brings(s, ev, id) && |s.assembled[id]| == K - 1
  {
    if !s.stopped {
      if ev.AssignedShard? {
        ShardArrives(cfg, s, ev.full, ev.shard, id);
      } else if ev.RecollectRequest? {
        RequestElsewhere(cfg, s, ev.id, ev.order, id);
      } else {
        StepKeepsSessions(cfg, s, ev);
      }
    }
  }

  /**
   The event that closes a collection brings the answer exactly when all its shard ids are in the
   code.  One foreign id among them, and the collection ends without a word.
   */
  lemma ClosesSilentlyIff(cfg: Config, s: State, ev: InEvent, id: Vid)
    requires cfg.Valid() && Fits(cfg, ev) && Pending(s) && Brings(s, ev, id) && |s.assembled[id]| == K - 1
    requires cfg.code.AreShards(s.assembled[id]) && cfg.code.IsShard(ev.shard.value)
    ensures var m, e := s.assembled[id][ev.full.sid := ev.shard.value], Step(cfg, s, ev);
      && e.actions == [Decoding(id, m)] + Answer(id, cfg.code.Decoded(m))
      && (e.actions == [Decoding(id, m)] <==> exists sid :: sid in m && cfg.code.Total() <= sid)
      && (e.actions != [Decoding(id, m)] <==> |e.actions| == 2 && IsAnswer(e.actions[1], id))
  {
    var m: map<Sid, Bytes> := s.assembled[id][ev.full.sid := ev.shard.value];
    InsertedSize(s.assembled[id], ev.full.sid, ev.shard.value);
    cfg.code.DecodeFails(m);
  }

  // ---------- requests meanwhile ----------

  /** Nothing about `id` is opened, asked for, decoded or answered. */
  ghost predicate Mute(log: Log, id: Vid) {
    && (forall a :: a in log ==> a != Opened(id) && !IsAnswer(a, id) && !(a.Decoding? && a.id == id))
    && (forall full: FullShardId, peer :: full.id == id ==> Emit(AssignedRequest(full, peer)) !in log)
  }

  /** A request for an id that is being collected does nothing at all. */
  lemma RepeatedRequestIsMute(cfg: Config, s: State, id: Vid, order: seq<Sid>)
    requires cfg.Wide() && id in s.assembled && K <= |At(s.locations, id)|
    ensures Step(cfg, s, RecollectRequest(id, order)) == Effect(s, [])
  {
  }

  /** As long as the collection stays open, nothing is said about its id. */
  lemma OpenIsMute(cfg: Config, s: State, ev: InEvent, id: Vid)
    requires cfg.Valid() && Fits(cfg, ev) && Pending(s) && id in s.assembled && id in Step(cfg, s, ev).state.assembled
    ensures Mute(Step(cfg, s, ev).actions, id)
  {
    var log := Step(cfg, s, ev).actions;
    forall full: FullShardId, peer | full.id == id
      ensures Emit(AssignedRequest(full, peer)) !in log
    {
      Requests.AssignedRequestIff(cfg, s, ev, full, peer);
    }
    StepMoves(cfg, s, ev, id);
    ClosesIff(cfg, s, ev, id);
    forall a | a in log
      ensures a != Opened(id) && !IsAnswer(a, id) && !(a.Decoding? && a.id == id)
    {
      var i :| 0 <= i < |log| && log[i] == a;
      StillOpen(cfg, s, ev, id, i);
    }
  }

  /** Read backwards from an end that is open, nothing can have closed the session within one event. */
  lemma StillOpen(cfg: Config, s: State, ev: InEvent, id: Vid, i: nat)
    requires cfg.Valid() && Fits(cfg, ev) && Pending(s) && id in s.assembled && id in Step(cfg, s, ev).state.assembled
    requires i < |Step(cfg, s, ev).actions|
    ensures var a := Step(cfg, s, ev).actions[i]; a != Opened(id) && !IsAnswer(a, id) && !(a.Decoding? && a.id == id)
  {
    if s.stopped {
    } else if ev.AssignedShard? {
      ClosesIff(cfg, s, ev, id);
      if ev.full.id != id {
        OtherShard(cfg, s, ev.full, ev.shard, id, i);
      }
    } else if ev.RecollectRequest? {
      if ev.id != id {
        OtherRequest(cfg, s, ev.id, ev.order, id, i);
      }
    } else {
      StepAnswersNothing(cfg, s, ev, id);
    }
  }

  predicate AboutOther(a: Action, id: Vid) {
    a != Opened(id) && !IsAnswer(a, id) && !(a.Decoding? && a.id == id)
  }

  lemma OtherShard(cfg: Config, s: State, full: FullShardId, shard: Option<Bytes>, id: Vid, i: nat)
    requires cfg.Wide() && full.id != id && i < |Collected(cfg, s, full, shard).actions|
    ensures AboutOther(Collected(cfg, s, full, shard).actions[i], id)
  {
  }

  lemma {:induction false} OtherAsked(
      cfg: Config, s: State, of: Vid, known: map<Sid, PeerId>, order: seq<Sid>, id: Vid, i: nat)
    requires cfg.Wide() && of != id && i < |Asked(cfg, s, of, known, order).actions|
    ensures AboutOther(Asked(cfg, s, of, known, order).actions[i], id)
  {
    var rest, full := order[..|order| - 1], Full(of, order[|order| - 1]);
    var before := Asked(cfg, s, of, known, rest);
    if i < |before.actions| {
      OtherAsked(cfg, s, of, known, rest, id, i);
    } else if full.sid in known && known[full.sid] == cfg.localId {
      OtherShard(cfg, before.state, full, Get(before.state.localStorage, full), id, i - |before.actions|);
    }
  }

  lemma OtherRequest(cfg: Config, s: State, of: Vid, order: seq<Sid>, id: Vid, i: nat)
    requires cfg.Wide() && of != id && i < |Recollected(cfg, s, of, order).actions|
    ensures AboutOther(Recollected(cfg, s, of, order).actions[i], id)
  {
    if Starts(s, of) || (K <= |At(s.locations, of)| && of !in s.assembled) {
      if i > 0 {
        OtherAsked(cfg, s.(assembled := s.assembled[of := map[]]), of, s.locations[of], order, id, i - 1);
      }
    }
  }

  // ---------- whole runs ----------

  /** The shard ids of `id` that the events deliver a shard for. */
  function Delivered(events: seq<InEvent>, id: Vid): set<Sid> {
    if events == [] then {} else
    var last := events[|events| - 1];
    Delivered(events[..|events| - 1], id) +
    if last.AssignedShard? && last.full.id == id && last.shard.Some? then {last.full.sid} else {}
  }

  /** The collection of `id` is open with shards of exactly these ids, and all was quiet about `id`. */
  ghost predicate StillWaits(e: Effect, id: Vid, sids: set<Sid>) {
    && Pending(e.state) && !e.state.stopped && id in e.state.assembled && e.state.assembled[id].Keys == sids
    && Mute(e.actions, id)
  }

  lemma WaitsOn(cfg: Config, before: Effect, ev: InEvent, id: Vid, sids: set<Sid>)
    requires cfg.Valid() && Fits(cfg, ev) && StillWaits(before, id, sids) && !Step(cfg, before.state, ev).state.stopped
    requires |sids + Delivered([ev], id)| < K
    ensures StillWaits(Step(cfg, before.state, ev).After(before.actions), id, sids + Delivered([ev], id))
  {
    var s := before.state;
    assert [ev][..0] == [];
    StepMoves(cfg, s, ev, id);
    ClosesIff(cfg, s, ev, id);
    if Brings(s, ev, id) {
      assert s.assembled[id][ev.full.sid := ev.shard.value].Keys == sids + {ev.full.sid};
      InsertedSize(s.assembled[id], ev.full.sid, ev.shard.value);
      assert |s.assembled[id]| == |sids|;
    } else {
      assert sids + Delivered([ev], id) == sids;
    }
    OpenIsMute(cfg, s, ev, id);
  }

  lemma DeliveredSnoc(events: seq<InEvent>, id: Vid)
    requires events != []
    ensures Delivered(events, id) == Delivered(events[..|events| - 1], id) + Delivered([events[|events| - 1]], id)
  {
    assert [events[|events| - 1]][..0] == [];
  }

  /** Fewer than `K` distinct shards in all: the collection is open to the end, and mute. */
  lemma {:induction false} WaitsForMore(cfg: Config, s: State, events: seq<InEvent>, id: Vid)
    requires cfg.Valid() && AllFit(cfg, events) && Pending(s) && id in s.assembled && !Run(cfg, s, events).state.stopped
    requires |s.assembled[id].Keys + Delivered(events, id)| < K
    ensures StillWaits(Run(cfg, s, events), id, s.assembled[id].Keys + Delivered(events, id))
  {
    if events == [] {
      assert s.assembled[id].Keys + {} == s.assembled[id].Keys;
    } else {
      var n := |events| - 1;
      var held, now := s.assembled[id].Keys, Run(cfg, s, events[..n]);
      HeldSnoc(held, events, id);
      Completion.StepStops(cfg, now.state, events[n]);
      WaitsForMore(cfg, s, events[..n], id);
      WaitsOn(cfg, now, events[n], id, held + Delivered(events[..n], id));
    }
  }

  lemma HeldSnoc(held: set<Sid>, events: seq<InEvent>, id: Vid)
    requires events != []
    ensures held + Delivered(events, id) ==
      held + Delivered(events[..|events| - 1], id) + Delivered([events[|events| - 1]], id)
    ensures |held + Delivered(events[..|events| - 1], id)| <= |held + Delivered(events, id)|
  {
    DeliveredSnoc(events, id);
    SubsetSize(held + Delivered(events[..|events| - 1], id), held + Delivered(events, id));
  }

  lemma UnionGrows(sids: set<Sid>, more: set<Sid>)
    requires |sids| < |sids + more|
    ensures !(more <= sids)
  {
    assert more <= sids ==> sids + more == sids;
  }

  lemma UnionOne(sids: set<Sid>, sid: Sid)
    ensures |sids + {sid}| <= |sids| + 1
  {
    if sid in sids {
      assert sids + {sid} == sids;
    }
  }

  lemma LastOneCloses(cfg: Config, s: State, ev: InEvent, id: Vid, sids: set<Sid>)
    requires cfg.Valid() && Fits(cfg, ev) && Pending(s) && !s.stopped && id in s.assembled && s.assembled[id].Keys == sids
    requires |sids| < K <= |sids + Delivered([ev], id)|
    ensures id !in Step(cfg, s, ev).state.assembled
  {
    assert [ev][..0] == [];
    UnionGrows(sids, Delivered([ev], id));
    assert Brings(s, ev, id) && Delivered([ev], id) == {ev.full.sid};
    UnionOne(sids, ev.full.sid);
    assert |s.assembled[id]| == |sids|;
    ClosesIff(cfg, s, ev, id);
  }

  /** The run up to the last event is one that waits, and the last event closes the collection. */
  lemma ClosesAtLast(cfg: Config, s: State, events: seq<InEvent>, id: Vid)
    requires cfg.Valid() && AllFit(cfg, events) && Pending(s) && id in s.assembled && !Run(cfg, s, events).state.stopped
    requires events != [] && |s.assembled[id].Keys + Delivered(events[..|events| - 1], id)| < K
    requires K <= |s.assembled[id].Keys + Delivered(events, id)|
    ensures id !in Run(cfg, s, events).state.assembled
  {
    var n, held := |events| - 1, s.assembled[id].Keys;
    var now := Run(cfg, s, events[..n]);
    Completion.StepStops(cfg, now.state, events[n]);
    WaitsForMore(cfg, s, events[..n], id);
    HeldSnoc(held, events, id);
    LastOneCloses(cfg, now.state, events[n], id, held + Delivered(events[..n], id));
  }

  /** `K` distinct shards, with those held: some event closes the collection. */
  lemma {:induction false} EventuallyCloses(cfg: Config, s: State, events: seq<InEvent>, id: Vid) returns (k: nat)
    requires cfg.Valid() && AllFit(cfg, events) && Pending(s) && id in s.assembled && !Run(cfg, s, events).state.stopped
    requires K <= |s.assembled[id].Keys + Delivered(events, id)|
    ensures k <= |events| && AllFit(cfg, events[..k]) && id !in Run(cfg, s, events[..k]).state.assembled
    decreases |events|
  {
    assert s.assembled[id].Keys + {} == s.assembled[id].Keys;
    var n := |events| - 1;
    if K <= |s.assembled[id].Keys + Delivered(events[..n], id)| {
      Completion.StepStops(cfg, Run(cfg, s, events[..n]).state, events[n]);
      k := EventuallyCloses(cfg, s, events[..n], id);
      assert events[..n][..k] == events[..k];
    } else {
      ClosesAtLast(cfg, s, events, id);
      k := |events|;
      assert events[..k] == events;
    }
  }

  /**
   An open collection of a running memory comes to an end, at some point of whatever happens next,
   exactly when the shards it has and the shards delivered for it make `K` distinct ones.  Until
   then it is mute: it answers nothing and asks nobody, however often the data is requested.
   */
  lemma EndsIff(cfg: Config, s: State, events: seq<InEvent>, id: Vid)
    requires cfg.Valid() && AllFit(cfg, events) && Pending(s) && id in s.assembled && !Run(cfg, s, events).state.stopped
    ensures (exists k :: 0 <= k <= |events| && AllFit(cfg, events[..k]) && id !in Run(cfg, s, events[..k]).state.assembled) <==>
      K <= |s.assembled[id].Keys + Delivered(events, id)|
    ensures |s.assembled[id].Keys + Delivered(events, id)| < K ==> Mute(Run(cfg, s, events).actions, id)
  {
    if K <= |s.assembled[id].Keys + Delivered(events, id)| {
      var k := EventuallyCloses(cfg, s, events, id);
    } else {
      WaitsForMore(cfg, s, events, id);
      forall k | 0 <= k <= |events| && AllFit(cfg, events[..k])
        ensures id in Run(cfg, s, events[..k]).state.assembled
      {
        WaitsAt(cfg, s, events, id, k);
      }
    }
  }

  lemma {:induction false} RunningBefore(cfg: Config, s: State, events: seq<InEvent>, k: nat)
    requires cfg.Valid() && AllFit(cfg, events) && !Run(cfg, s, events).state.stopped && k <= |events|
    ensures AllFit(cfg, events[..k]) && !Run(cfg, s, events[..k]).state.stopped
    decreases |events|
  {
    if k == |events| {
      assert events[..k] == events;
    } else {
      var n := |events| - 1;
      Completion.StepStops(cfg, Run(cfg, s, events[..n]).state, events[n]);
      assert events[..n][..k] == events[..k];
      RunningBefore(cfg, s, events[..n], k);
    }
  }

  lemma {:induction false} HeldBefore(held: set<Sid>, events: seq<InEvent>, id: Vid, k: nat)
    requires k <= |events|
    ensures |held + Delivered(events[..k], id)| <= |held + Delivered(events, id)|
    decreases |events|
  {
    if k == |events| {
      assert events[..k] == events;
    } else {
      HeldSnoc(held, events, id);
      assert events[..|events| - 1][..k] == events[..k];
      HeldBefore(held, events[..|events| - 1], id, k);
    }
  }

  lemma WaitsAt(cfg: Config, s: State, events: seq<InEvent>, id: Vid, k: nat)
    requires cfg.Valid() && AllFit(cfg, events) && Pending(s) && id in s.assembled && !Run(cfg, s, events).state.stopped
    requires k <= |events| && |s.assembled[id].Keys + Delivered(events, id)| < K
    ensures AllFit(cfg, events[..k]) && id in Run(cfg, s, events[..k]).state.assembled
  {
    RunningBefore(cfg, s, events, k);
    HeldBefore(s.assembled[id].Keys, events, id, k);
    WaitsForMore(cfg, s, events[..k], id);
  }

  // ---------- an id that can no longer be collected ----------

  /** Open sessions are known well enough to be opened. */
  ghost predicate SessionsKnown(s: State) {
    forall id :: id in s.assembled ==> K <= |At(s.locations, id)|
  }

  lemma KnownGrows(cfg: Config, s: State, ev: InEvent, id: Vid)
    requires cfg.Valid() && Fits(cfg, ev)
    ensures |At(s.locations, id)| <= |At(Step(cfg, s, ev).state.locations, id)|
  {
    var a, b := At(s.locations, id).Keys, At(Step(cfg, s, ev).state.locations, id).Keys;
    forall sid | sid in a
      ensures sid in b
    {
      Completion.LocationsGrow(cfg, s, ev, id, sid);
    }
    SubsetSize(a, b);
  }

  lemma NewSessionIsKnown(cfg: Config, s: State, ev: InEvent, id: Vid)
    requires cfg.Valid() && Fits(cfg, ev) && id !in s.assembled && id in Step(cfg, s, ev).state.assembled
    ensures K <= |At(s.locations, id)|
  {
    if ev.RecollectRequest? && ev.id != id && Starts(s, ev.id) {
      AskingElsewhere(cfg, s.(assembled := s.assembled[ev.id := map[]]), ev.id, s.locations[ev.id], ev.order, id);
    } else if !ev.RecollectRequest? && !ev.AssignedShard? {
      StepKeepsSessions(cfg, s, ev);
    }
  }

  /** In every run an open collection is of an id with enough known locations, so requests for it are mute. */
  lemma {:induction false} OpenIsKnown(cfg: Config, events: seq<InEvent>)
    requires cfg.Valid() && AllFit(cfg, events)
    ensures SessionsKnown(Run(cfg, INITIAL, events).state)
  {
    if events != [] {
      var n := |events| - 1;
      var before, after := Run(cfg, INITIAL, events[..n]).state, Run(cfg, INITIAL, events).state;
      OpenIsKnown(cfg, events[..n]);
      forall id | id in after.assembled
        ensures K <= |At(after.locations, id)|
      {
        KnownGrows(cfg, before, events[n], id);
        if id !in before.assembled {
          NewSessionIsKnown(cfg, before, events[n], id);
        }
      }
    }
  }

  /**
   In every run, while a collection of an id is open, a request for the id has no effect whatsoever:
   nobody is asked and nothing is answered.
   */
  lemma RequestsAreSwallowed(cfg: Config, events: seq<InEvent>, id: Vid, order: seq<Sid>)
    requires cfg.Valid() && AllFit(cfg, events) && id in Run(cfg, INITIAL, events).state.assembled
    ensures var s := Run(cfg, INITIAL, events).state; Step(cfg, s, RecollectRequest(id, order)) == Effect(s, [])
  {
    OpenIsKnown(cfg, events);
    RepeatedRequestIsMute(cfg, Run(cfg, INITIAL, events).state, id, order);
  }

  /** Two locations become known, the data is requested, and both peers reply that they have nothing. */
  function EmptyReplies(id: Vid, a: Sid, pa: PeerId, b: Sid, pb: PeerId, order: seq<Sid>): seq<InEvent> {
    [] + [StoreConfirmed(Full(id, a), pa)] + [StoreConfirmed(Full(id, b), pb)] + [RecollectRequest(id, order)]
       + [AssignedShard(Full(id, a), None)] + [AssignedShard(Full(id, b), None)]
  }

  lemma KnownTwo(cfg: Config, id: Vid, a: Sid, pa: PeerId, b: Sid, pb: PeerId) returns (s: State)
    requires cfg.Valid() && a != b
    ensures s == Run(cfg, INITIAL, [] + [StoreConfirmed(Full(id, a), pa)] + [StoreConfirmed(Full(id, b), pb)]).state
    ensures Starts(s, id) && s.localStorage == map[] && s.assembled == map[]
  {
    RunSnoc(cfg, INITIAL, [], StoreConfirmed(Full(id, a), pa));
    RunSnoc(cfg, INITIAL, [] + [StoreConfirmed(Full(id, a), pa)], StoreConfirmed(Full(id, b), pb));
    s := Run(cfg, INITIAL, [] + [StoreConfirmed(Full(id, a), pa)] + [StoreConfirmed(Full(id, b), pb)]).state;
    assert At(s.locations, id).Keys == {a, b};
  }

  lemma {:induction false} NothingTaken(cfg: Config, s: State, id: Vid, known: map<Sid, PeerId>, order: seq<Sid>)
    requires cfg.Wide() && s.localStorage == map[]
    ensures Asked(cfg, s, id, known, order).state == s
  {
    if order != [] {
      NothingTaken(cfg, s, id, known, order[..|order| - 1]);
    }
  }

  lemma StrandedState(cfg: Config, id: Vid, a: Sid, pa: PeerId, b: Sid, pb: PeerId, order: seq<Sid>)
    requires cfg.Valid() && a != b
    ensures AllFit(cfg, EmptyReplies(id, a, pa, b, pb, order))
    ensures var s := Run(cfg, INITIAL, EmptyReplies(id, a, pa, b, pb, order)).state;
      !s.stopped && s.assembled == map[id := map[]]
  {
    var known := KnownTwo(cfg, id, a, pa, b, pb);
    var events := [] + [StoreConfirmed(Full(id, a), pa)] + [StoreConfirmed(Full(id, b), pb)];
    RunSnoc(cfg, INITIAL, events, RecollectRequest(id, order));
    RequestTakesNothing(cfg, known, id, order);
    events := events + [RecollectRequest(id, order)];
    EmptyReply(cfg, INITIAL, events, Full(id, a));
    EmptyReply(cfg, INITIAL, events + [AssignedShard(Full(id, a), None)], Full(id, b));
  }

  lemma RequestTakesNothing(cfg: Config, s: State, id: Vid, order: seq<Sid>)
    requires cfg.Wide() && Starts(s, id) && s.localStorage == map[] && s.assembled == map[]
    ensures Step(cfg, s, RecollectRequest(id, order)).state == s.(assembled := map[id := map[]])
  {
    NothingTaken(cfg, s.(assembled := s.assembled[id := map[]]), id, s.locations[id], order);
  }

  lemma EmptyReply(cfg: Config, s: State, events: seq<InEvent>, full: FullShardId)
    requires cfg.Wide() && AllFit(cfg, events)
    ensures AllFit(cfg, events + [AssignedShard(full, None)])
    ensures Run(cfg, s, events + [AssignedShard(full, None)]).state == Run(cfg, s, events).state
  {
    EmptyStep(cfg, Run(cfg, s, events).state, full);
    RunSnoc(cfg, s, events, AssignedShard(full, None));
  }

  lemma EmptyStep(cfg: Config, s: State, full: FullShardId)
    requires cfg.Wide()
    ensures Step(cfg, s, AssignedShard(full, None)) == Effect(s, [])
  {
  }

  /**
   For every id, two locations and their order: two empty replies strand the id.  Whatever happens
   next, unless shards of it are delivered that nobody was asked for again, the collection is open
   for ever, and every further request for the id is swallowed.
   */
  lemma EmptyRepliesStrand(
      cfg: Config, id: Vid, a: Sid, pa: PeerId, b: Sid, pb: PeerId, order: seq<Sid>, more: seq<InEvent>)
    requires cfg.Valid() && a != b && AllFit(cfg, more) && |Delivered(more, id)| < K
    requires !Run(cfg, Run(cfg, INITIAL, EmptyReplies(id, a, pa, b, pb, order)).state, more).state.stopped
    ensures var e := Run(cfg, Run(cfg, INITIAL, EmptyReplies(id, a, pa, b, pb, order)).state, more);
      id in e.state.assembled && Mute(e.actions, id)
  {
    StrandedState(cfg, id, a, pa, b, pb, order);
    var s := Run(cfg, INITIAL, EmptyReplies(id, a, pa, b, pb, order)).state;
    assert s.assembled[id].Keys + Delivered(more, id) == Delivered(more, id);
    WaitsForMore(cfg, s, more, id);
  }
}
