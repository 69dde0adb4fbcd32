/**
 Instruction memory and data memory together: the notices `PeerShardsActualized` travel from one
 to the other through first-in-first-out queues.  Once the notice paired with `FinishedExecution`
 has been handled, the results of the program can be recollected.
 */
module Completion {
  import opened Types
  import opened Instructions
  import opened InstructionMemory
  import D = DataMemory
  import ReedSolomon

  type Notice = (PeerId, seq<Vid>)

  /** The notices among the messages of the instruction memory. */
  function Notices(out: seq<OutEvent>): seq<Notice> {
    if out == [] then [] else
    var last := out[|out| - 1];
    Notices(out[..|out| - 1]) + if last.PeerShardsActualized? then [(last.peer, last.ids)] else []
  }

  /** The notices among the events the data memory has taken. */
  function Received(events: seq<D.InEvent>): seq<Notice> {
    if events == [] then [] else
    var last := events[|events| - 1];
    Received(events[..|events| - 1]) + if last.PeerShardsActualized? then [(last.peer, last.ids)] else []
  }

  // ---------- instruction memory: who was announced before completion ----------

  /** Peers announced as holding fresh shards `ids` of the results of `p`. */
  function Announced(out: seq<OutEvent>, p: ProgramId, ids: seq<Vid>): set<PeerId> {
    if out == [] then {} else
    var last := out[|out| - 1];
    Announced(out[..|out| - 1], p, ids) +
    if last.PeerShardsActualized? && last.p == p && last.ids == ids then {last.peer} else {}
  }

  lemma {:induction false} AnnouncedAppend(a: seq<OutEvent>, b: seq<OutEvent>, p: ProgramId, ids: seq<Vid>)
    ensures Announced(a + b, p, ids) == Announced(a, p, ids) + Announced(b, p, ids)
  {
    if b == [] {
      assert a + b == a;
    } else {
      assert (a + b)[..|a + b| - 1] == a + b[..|b| - 1];
      AnnouncedAppend(a, b[..|b| - 1], p, ids);
    }
  }

  lemma {:induction false} AnnouncedIsNoticed(out: seq<OutEvent>, p: ProgramId, ids: seq<Vid>, peer: PeerId)
    requires peer in Announced(out, p, ids)
    ensures (peer, ids) in Notices(out)
  {
    if peer in Announced(out[..|out| - 1], p, ids) {
      AnnouncedIsNoticed(out[..|out| - 1], p, ids, peer);
    }
  }

  lemma ReportAnnounces(threshold: nat, programs: Tracked, peer: PeerId, p: ProgramId)
    requires p in programs
    ensures peer in Announced(Step(threshold, programs, ExecutedProgram(peer, p)).out, p, programs[p].affected)
  {
    AffectedIsKept(threshold, programs, ExecutedProgram(peer, p), p);
    var out := Step(threshold, programs, ExecutedProgram(peer, p)).out;
    assert out[|out| - 1] == PeerShardsActualized(p, peer, programs[p].affected);
  }

  /** Every reporter of a tracked program has been announced with the program's results. */
  lemma {:induction false} ReportersAnnounced(threshold: nat, events: seq<InEvent>, p: ProgramId)
    requires p in Run(threshold, events).programs
    ensures Reporters(events, p) <= Announced(Run(threshold, events).out, p, Run(threshold, events).programs[p].affected)
  {
    var n := |events| - 1;
    var before, after := Run(threshold, events[..n]), Run(threshold, events);
    var now := Step(threshold, before.programs, events[n]);
    var ids := after.programs[p].affected;
    Quorum(threshold, events[..n], p);
    AnnouncedAppend(before.out, now.out, p, ids);
    if p in before.programs {
      ReportersAnnounced(threshold, events[..n], p);
      AffectedIsKept(threshold, before.programs, events[n], p);
      if events[n].ExecutedProgram? && events[n].p == p {
        ReportAnnounces(threshold, before.programs, events[n].peer, p);
      }
    }
  }

  /** Completion of `p` is followed at once by a notice, and by then enough peers were announced. */
  ghost predicate Completed(threshold: nat, out: seq<OutEvent>, f: nat, p: ProgramId, ids: seq<Vid>) {
    && f + 1 < |out|
    && out[f + 1].PeerShardsActualized? && out[f + 1].p == p && out[f + 1].ids == ids
    && |Announced(out[..f + 2], p, ids)| >= threshold
  }

  lemma AffectedIsKept(threshold: nat, programs: Tracked, ev: InEvent, p: ProgramId)
    requires p in programs
    ensures var after := Step(threshold, programs, ev).programs;
      p in after && after[p].affected == programs[p].affected
  {
  }

  lemma FinishingStep(threshold: nat, programs: Tracked, ev: InEvent, f: nat, p: ProgramId)
    requires var out := Step(threshold, programs, ev).out; f < |out| && out[f] == FinishedExecution(p)
    ensures f == 0 && ev.ExecutedProgram? && ev.p == p && p in programs
    ensures Step(threshold, programs, ev).out ==
      [FinishedExecution(p), PeerShardsActualized(p, ev.peer, programs[p].affected)]
  {
  }

  lemma {:induction false} CompletionIsAnnounced(threshold: nat, events: seq<InEvent>, f: nat, p: ProgramId)
    requires f < |Run(threshold, events).out| && Run(threshold, events).out[f] == FinishedExecution(p)
    ensures p in Run(threshold, events).programs
    ensures Completed(threshold, Run(threshold, events).out, f, p, Run(threshold, events).programs[p].affected)
  {
    var n := |events| - 1;
    var before, after := Run(threshold, events[..n]), Run(threshold, events);
    var now := Step(threshold, before.programs, events[n]);
    if f < |before.out| {
      CompletionIsAnnounced(threshold, events[..n], f, p);
      AffectedIsKept(threshold, before.programs, events[n], p);
      assert after.out[..f + 2] == before.out[..f + 2];
    } else {
      FinishingStep(threshold, before.programs, events[n], f - |before.out|, p);
      AffectedIsKept(threshold, before.programs, events[n], p);
      assert after.out[..f + 2] == after.out;
      ReportersAnnounced(threshold, events, p);
      EnoughAnnounced(threshold, events, p, Announced(after.out, p, after.programs[p].affected));
    }
  }

  lemma EnoughAnnounced(threshold: nat, events: seq<InEvent>, p: ProgramId, announced: set<PeerId>)
    requires events != [] && Reporters(events, p) <= announced
    requires Step(threshold, Run(threshold, events[..|events| - 1]).programs, events[|events| - 1]).out != []
    requires Step(threshold, Run(threshold, events[..|events| - 1]).programs, events[|events| - 1]).out[0] ==
      FinishedExecution(p)
    ensures |announced| >= threshold
  {
    Quorum(threshold, events[..|events| - 1], p);
    Quorum(threshold, events, p);
    ReedSolomon.SubsetSize(Reporters(events, p), announced);
  }

  // ---------- data memory: locations are never forgotten ----------

  predicate LocatedAt(s: D.State, id: Vid, sid: Sid) {
    id in s.locations && sid in s.locations[id]
  }

  lemma {:induction false} LocatedGrows(locations: D.Nested<PeerId>, ids: seq<Vid>, sid: Sid, peer: PeerId)
    ensures forall id :: id in locations ==>
      id in D.Located(locations, ids, sid, peer) && locations[id].Keys <= D.Located(locations, ids, sid, peer)[id].Keys
    ensures forall id :: id in ids ==>
      id in D.Located(locations, ids, sid, peer) && sid in D.Located(locations, ids, sid, peer)[id]
  {
    if ids != [] {
      LocatedGrows(locations, ids[..|ids| - 1], sid, peer);
    }
  }

  lemma LocationsGrow(cfg: D.Config, s: D.State, ev: D.InEvent, id: Vid, sid: Sid)
    requires cfg.Valid() && D.Fits(cfg, ev) && LocatedAt(s, id, sid)
    ensures LocatedAt(D.Step(cfg, s, ev).state, id, sid)
  {
    if ev.StoreConfirmed? {
    } else if ev.PeerShardsActualized? {
      if ev.peer in cfg.distribution {
        LocatedGrows(s.locations, ev.ids, cfg.distribution[ev.peer], ev.peer);
      }
    } else {
      LocationsKept(cfg, s, ev);
    }
  }

  lemma LocationsKept(cfg: D.Config, s: D.State, ev: D.InEvent)
    requires cfg.Wide() && D.Fits(cfg, ev) && !ev.StoreConfirmed? && !ev.PeerShardsActualized?
    ensures D.Step(cfg, s, ev).state.locations == s.locations
  {
    if ev.RecollectRequest? {
      D.RecollectedKeeps(cfg, s, ev.id, ev.order);
    }
  }

  lemma StepStops(cfg: D.Config, s: D.State, ev: D.InEvent)
    requires cfg.Valid() && D.Fits(cfg, ev)
    ensures D.Step(cfg, s, ev).state.stopped <==>
      s.stopped || (ev.PeerShardsActualized? && ev.peer !in cfg.distribution)
  {
    if ev.RecollectRequest? {
      D.RecollectedKeeps(cfg, s, ev.id, ev.order);
    }
  }

  ghost predicate AllAssigned(cfg: D.Config, notices: seq<Notice>) {
    forall n :: n in notices ==> n.0 in cfg.distribution
  }

  /** The module ends exactly when it is handed a notice about a peer that has no shard assigned. */
  lemma {:induction false} StopsOnUnassignedPeer(cfg: D.Config, events: seq<D.InEvent>)
    requires cfg.Valid() && D.AllFit(cfg, events)
    ensures D.Run(cfg, D.INITIAL, events).state.stopped <==> !AllAssigned(cfg, Received(events))
  {
    if events != [] {
      var n := |events| - 1;
      StopsOnUnassignedPeer(cfg, events[..n]);
      StepStops(cfg, D.Run(cfg, D.INITIAL, events[..n]).state, events[n]);
      if events[n].PeerShardsActualized? {
        assert Received(events) == Received(events[..n]) + [(events[n].peer, events[n].ids)];
        assert (events[n].peer, events[n].ids) in Received(events);
      }
    }
  }

  /** Whatever was announced to a running data memory stays located. */
  lemma {:induction false} ReceivedIsLocated(cfg: D.Config, events: seq<D.InEvent>, peer: PeerId, ids: seq<Vid>, id: Vid)
    requires cfg.Valid() && D.AllFit(cfg, events) && AllAssigned(cfg, Received(events))
    requires (peer, ids) in Received(events) && id in ids
    ensures LocatedAt(D.Run(cfg, D.INITIAL, events).state, id, cfg.distribution[peer])
  {
    var n := |events| - 1;
    var before := D.Run(cfg, D.INITIAL, events[..n]).state;
    if (peer, ids) in Received(events[..n]) {
      ReceivedIsLocated(cfg, events[..n], peer, ids, id);
      LocationsGrow(cfg, before, events[n], id, cfg.distribution[peer]);
    } else {
      StopsOnUnassignedPeer(cfg, events[..n]);
      LocatedGrows(before.locations, ids, cfg.distribution[peer], peer);
    }
  }

  // ---------- both together ----------

  ghost predicate Injective(distribution: map<PeerId, Sid>) {
    forall p, q :: p in distribution && q in distribution && distribution[p] == distribution[q] ==> p == q
  }

  lemma {:induction false} InjectiveImage(distribution: map<PeerId, Sid>, peers: set<PeerId>, sids: set<Sid>)
    requires Injective(distribution) && peers <= distribution.Keys
    requires forall p :: p in peers ==> distribution[p] in sids
    ensures |peers| <= |sids|
    decreases |peers|
  {
    if peers != {} {
      var p :| p in peers;
      InjectiveImage(distribution, peers - {p}, sids - {distribution[p]});
    }
  }

  lemma {:induction false} NoticesAppend(a: seq<OutEvent>, b: seq<OutEvent>)
    ensures Notices(a + b) == Notices(a) + Notices(b)
  {
    if b == [] {
      assert a + b == a;
    } else {
      assert (a + b)[..|a + b| - 1] == a + b[..|b| - 1];
      NoticesAppend(a, b[..|b| - 1]);
    }
  }

  lemma NoticeOfStep(threshold: nat, programs: Tracked, ev: InEvent, notice: Notice)
    requires notice in Notices(Step(threshold, programs, ev).out)
    ensures ev.ExecutedProgram? && ev.peer == notice.0
  {
    var out := Step(threshold, programs, ev).out;
    if ev.ExecutedProgram? && |out| == 2 {
      assert Notices(out[..1]) == [];
    }
  }

  /** Only peers that reported are announced. */
  lemma {:induction false} NoticesComeFromReports(threshold: nat, events: seq<InEvent>, notice: Notice)
    requires notice in Notices(Run(threshold, events).out)
    ensures exists i :: 0 <= i < |events| && events[i].ExecutedProgram? && events[i].peer == notice.0
  {
    var n := |events| - 1;
    var before := Run(threshold, events[..n]);
    var now := Step(threshold, before.programs, events[n]);
    NoticesAppend(before.out, now.out);
    if notice in Notices(before.out) {
      NoticesComeFromReports(threshold, events[..n], notice);
      var i :| 0 <= i < n && events[..n][i].ExecutedProgram? && events[..n][i].peer == notice.0;
      assert events[i].ExecutedProgram?;
    } else {
      NoticeOfStep(threshold, before.programs, events[n], notice);
    }
  }

  ghost predicate ReportersAssigned(cfg: D.Config, events: seq<InEvent>) {
    forall i :: 0 <= i < |events| && events[i].ExecutedProgram? ==> events[i].peer in cfg.distribution
  }

  /** The data memory has taken the notices among the first `taken` messages of the instruction memory, in order. */
  ghost predicate Joined(reports: seq<InEvent>, taken: nat, events: seq<D.InEvent>) {
    && taken <= |Run(K, reports).out|
    && Received(events) == Notices(Run(K, reports).out[..taken])
  }

  lemma JoinedAssigned(cfg: D.Config, reports: seq<InEvent>, taken: nat, events: seq<D.InEvent>)
    requires Joined(reports, taken, events) && ReportersAssigned(cfg, reports)
    ensures AllAssigned(cfg, Received(events))
  {
    var out := Run(K, reports).out;
    assert out == out[..taken] + out[taken..];
    NoticesAppend(out[..taken], out[taken..]);
    forall n | n in Received(events)
      ensures n.0 in cfg.distribution
    {
      NoticesComeFromReports(K, reports, n);
    }
  }

  predicate Refuses(actions: D.Log) {
    exists i :: 0 <= i < |actions| && actions[i].Emit? && actions[i].out.RecollectResponse? && actions[i].out.response.Err?
  }

  lemma {:induction false} AskingNeverRefuses(cfg: D.Config, s: D.State, id: Vid, known: map<Sid, PeerId>, order: seq<Sid>)
    requires cfg.Valid()
    ensures !Refuses(D.Asked(cfg, s, id, known, order).actions)
  {
    if order != [] {
      var sid := order[|order| - 1];
      AskingNeverRefuses(cfg, s, id, known, order[..|order| - 1]);
      var before := D.Asked(cfg, s, id, known, order[..|order| - 1]);
      OneNeverRefuses(cfg, before.state, D.Full(id, sid), known);
    }
  }

  lemma OneNeverRefuses(cfg: D.Config, s: D.State, full: D.FullShardId, known: map<Sid, PeerId>)
    requires cfg.Valid()
    ensures !Refuses(D.AskOne(cfg, s, full, known).actions)
  {
  }

  /** A running memory refuses to collect `id` exactly when it knows fewer than `K` of its shards. */
  lemma RefusedIff(cfg: D.Config, s: D.State, id: Vid, order: seq<Sid>)
    requires cfg.Valid() && !s.stopped
    ensures Refuses(D.Step(cfg, s, D.RecollectRequest(id, order)).actions) <==> |D.At(s.locations, id)| < K
    ensures K <= |D.At(s.locations, id)| && id !in s.assembled ==>
      D.Opened(id) in D.Step(cfg, s, D.RecollectRequest(id, order)).actions
  {
    var e := D.Step(cfg, s, D.RecollectRequest(id, order));
    if |D.At(s.locations, id)| < K {
      assert e.actions[0].out.response.Err?;
    } else if id !in s.assembled {
      AskingNeverRefuses(cfg, s.(assembled := s.assembled[id := map[]]), id, s.locations[id], order);
      assert e.actions[0] == D.Opened(id);
    }
  }

  /** The list shown to the user has exactly the ids whose collection would not be refused. */
  lemma ListedIff(cfg: D.Config, s: D.State, id: Vid, order: seq<Sid>)
    requires cfg.Valid() && !s.stopped
    ensures D.Step(cfg, s, D.ListRequested).actions == [D.Emit(D.ListDistributed(D.Distributed(s)))]
    ensures id in D.Distributed(s) <==> !Refuses(D.Step(cfg, s, D.RecollectRequest(id, order)).actions)
    ensures id in D.Distributed(s) ==> D.Distributed(s)[id] == s.locations[id]
  {
    RefusedIff(cfg, s, id, order);
  }

  /**
   Take any history of the instruction memory and any history of the data memory that has taken a
   prefix of its notices.  If that prefix holds the notice paired with `FinishedExecution(p)`,
   then every result of `p` has at least `K` distinct shards located, now and after any further
   events, and a request to collect it is not refused.
   */
  lemma JoinedMeansRetrievable(
      cfg: D.Config, reports: seq<InEvent>, taken: nat, events: seq<D.InEvent>, f: nat, p: ProgramId, id: Vid,
        order: seq<Sid>)
    requires cfg.Valid() && Injective(cfg.distribution) && ReportersAssigned(cfg, reports)
    requires D.AllFit(cfg, events) && Joined(reports, taken, events)
    requires f + 2 <= taken && Run(K, reports).out[f] == FinishedExecution(p)
    ensures p in Run(K, reports).programs
    ensures id in Run(K, reports).programs[p].affected ==>
      var s := D.Run(cfg, D.INITIAL, events).state;
      && !s.stopped
      && |D.At(s.locations, id)| >= K
      && !Refuses(D.Step(cfg, s, D.RecollectRequest(id, order)).actions)
  {
    var out := Run(K, reports).out;
    CompletionIsAnnounced(K, reports, f, p);
    var ids := Run(K, reports).programs[p].affected;
    if id in ids {
      var s := D.Run(cfg, D.INITIAL, events).state;
      JoinedAssigned(cfg, reports, taken, events);
      StopsOnUnassignedPeer(cfg, events);
      AnnouncedLocated(cfg, reports, taken, events, f + 2, p, ids, id);
      RefusedIff(cfg, s, id, order);
    }
  }

  lemma AnnouncedLocated(
      cfg: D.Config, reports: seq<InEvent>, taken: nat, events: seq<D.InEvent>, upTo: nat, p: ProgramId,
        ids: seq<Vid>, id: Vid)
    requires cfg.Valid() && Injective(cfg.distribution) && D.AllFit(cfg, events)
    requires AllAssigned(cfg, Received(events)) && Joined(reports, taken, events) && upTo <= taken && id in ids
    ensures |Announced(Run(K, reports).out[..upTo], p, ids)| <= |D.At(D.Run(cfg, D.INITIAL, events).state.locations, id)|
  {
    var out, s := Run(K, reports).out, D.Run(cfg, D.INITIAL, events).state;
    var peers := Announced(out[..upTo], p, ids);
    forall r | r in peers
      ensures r in cfg.distribution && cfg.distribution[r] in D.At(s.locations, id).Keys
    {
      AnnouncedStaysNoticed(out, upTo, taken, p, ids, r);
      ReceivedIsLocated(cfg, events, r, ids, id);
    }
    InjectiveImage(cfg.distribution, peers, D.At(s.locations, id).Keys);
  }

  lemma AnnouncedStaysNoticed(out: seq<OutEvent>, upTo: nat, taken: nat, p: ProgramId, ids: seq<Vid>, peer: PeerId)
    requires upTo <= taken <= |out| && peer in Announced(out[..upTo], p, ids)
    ensures (peer, ids) in Notices(out[..taken])
  {
    AnnouncedIsNoticed(out[..upTo], p, ids, peer);
    assert out[..taken] == out[..upTo] + out[upTo..taken];
    NoticesAppend(out[..upTo], out[upTo..taken]);
  }

  // ---------- which ids those are ----------

  /** The program under which `p` was first finalised. */
  function Original(events: seq<InEvent>, p: ProgramId): Option<Program> {
    if events == [] then None else
    var last, first := events[|events| - 1], Original(events[..|events| - 1], p);
    if first.None? && last.FinalizedProgram? && last.p == p then Some(last.program) else first
  }

  ghost predicate Listed(events: seq<InEvent>) {
    forall i :: 0 <= i < |events| && events[i].FinalizedProgram? ==>
      forall id :: id in events[i].affected <==> id in ResultIds(events[i].program)
  }

  /** The ids announced for `p` are the results of the program first finalised as `p`. */
  lemma {:induction false} AffectedAreResults(threshold: nat, events: seq<InEvent>, p: ProgramId, id: Vid)
    requires Listed(events)
    ensures var programs := Run(threshold, events).programs;
      && (p in programs <==> Original(events, p).Some?)
      && (p in programs ==> (id in programs[p].affected <==> id in ResultIds(Original(events, p).value)))
  {
    if events != [] {
      AffectedAreResults(threshold, events[..|events| - 1], p, id);
    }
  }
}
