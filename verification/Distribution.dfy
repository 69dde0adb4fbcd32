/** Tracking how far a put has spread, over whole runs of the data memory (src/data_memory/mod.rs). */
module Distribution {
  import opened Types
  import opened ReedSolomon
  import opened DataMemory

  function Count(log: Log, out: OutEvent): nat {
    if log == [] then 0 else Count(log[..|log| - 1], out) + (if log[|log| - 1] == Emit(out) then 1 else 0)
  }

  lemma {:induction false} CountAppend(a: Log, b: Log, out: OutEvent)
    ensures Count(a + b, out) == Count(a, out) + Count(b, out)
  {
    if b == [] {
      assert a + b == a;
    } else {
      assert (a + b)[..|a + b| - 1] == a + b[..|b| - 1];
      CountAppend(a, b[..|b| - 1], out);
    }
  }

  lemma {:induction false} CountNone(log: Log, out: OutEvent)
    requires forall i :: 0 <= i < |log| ==> log[i] != Emit(out)
    ensures Count(log, out) == 0
  {
    if log != [] {
      CountNone(log[..|log| - 1], out);
    }
  }

  lemma {:induction false} CountSome(log: Log, out: OutEvent, i: nat)
    requires i < |log| && log[i] == Emit(out)
    ensures Count(log, out) > 0
  {
    if i < |log| - 1 {
      CountSome(log[..|log| - 1], out, i);
    }
  }

  /** The shard ids of `id` confirmed by a run of events, in order. */
  function Confirmations(events: seq<InEvent>, id: Vid): seq<Sid> {
    if events == [] then
      []
    else
      var last := events[|events| - 1];
      Confirmations(events[..|events| - 1], id) + NewConfirmation(last, id)
  }

  predicate Distinct(ids: seq<Sid>) {
    forall i, j :: 0 <= i < j < |ids| ==> ids[i] != ids[j]
  }

  function SidSet(ids: seq<Sid>): set<Sid> {
    set sid | sid in ids
  }

  lemma {:induction false} DistinctSize(ids: seq<Sid>)
    requires Distinct(ids)
    ensures |SidSet(ids)| == |ids|
  {
    if ids != [] {
      var rest, last := ids[..|ids| - 1], ids[|ids| - 1];
      DistinctSize(rest);
      assert SidSet(ids) == SidSet(rest) + {last};
      assert last !in rest;
    }
  }

  /** An event that neither puts `id` again, nor is a program result for it, nor ends the module. */
  ghost predicate LeavesAlone(cfg: Config, ev: InEvent, id: Vid) {
    && (ev.PrepareService? ==> ev.id != id)
    && (ev.PeerShardsActualized? ==> id !in ev.ids && ev.peer in cfg.distribution)
  }

  ghost predicate AllLeaveAlone(cfg: Config, events: seq<InEvent>, id: Vid) {
    forall i :: 0 <= i < |events| ==> LeavesAlone(cfg, events[i], id)
  }

  predicate AboutSpread(a: Action, id: Vid) {
    a == Emit(DistributionSufficient(id)) || a == Emit(DistributionFull(id))
  }

  /** Nothing that is tracked about the spread of `id` differs. */
  ghost predicate SameSpread(s: State, t: State, id: Vid) {
    && t.stopped == s.stopped
    && At(t.locations, id) == At(s.locations, id)
    && Lookup(t.toDistribute, id) == Lookup(s.toDistribute, id)
  }

  ghost predicate Quiet(log: Log, id: Vid) {
    forall i :: 0 <= i < |log| ==> !AboutSpread(log[i], id)
  }

  ghost predicate Untouched(s: State, e: Effect, id: Vid) {
    SameSpread(s, e.state, id) && Quiet(e.actions, id)
  }

  lemma {:induction false} AskedQuiet(cfg: Config, s: State, of: Vid, known: map<Sid, PeerId>, order: seq<Sid>, id: Vid)
    requires cfg.Valid()
    ensures Quiet(Asked(cfg, s, of, known, order).actions, id)
  {
    if order != [] {
      var rest, sid := order[..|order| - 1], order[|order| - 1];
      AskedQuiet(cfg, s, of, known, rest, id);
      OneQuiet(cfg, Asked(cfg, s, of, known, rest).state, Full(of, sid), known, id);
    }
  }

  lemma OneQuiet(cfg: Config, s: State, full: FullShardId, known: map<Sid, PeerId>, id: Vid)
    requires cfg.Wide()
    ensures Quiet(AskOne(cfg, s, full, known).actions, id)
  {
  }

  lemma {:induction false} LocatedElsewhere(locations: Nested<PeerId>, ids: seq<Vid>, sid: Sid, peer: PeerId, id: Vid)
    requires id !in ids
    ensures At(Located(locations, ids, sid, peer), id) == At(locations, id)
  {
    if ids != [] {
      LocatedElsewhere(locations, ids[..|ids| - 1], sid, peer, id);
    }
  }

  lemma RecollectedUntouched(cfg: Config, s: State, of: Vid, order: seq<Sid>, id: Vid)
    requires cfg.Valid()
    ensures Untouched(s, Recollected(cfg, s, of, order), id)
  {
    RecollectedKeeps(cfg, s, of, order);
    if of in s.locations {
      AskedQuiet(cfg, s.(assembled := s.assembled[of := map[]]), of, s.locations[of], order, id);
    }
  }

  lemma CollectedUntouched(cfg: Config, s: State, full: FullShardId, shard: Option<Bytes>, id: Vid)
    requires cfg.Wide()
    ensures Untouched(s, Collected(cfg, s, full, shard), id)
  {
    CollectedQuiet(cfg, s, full, shard, id);
  }

  lemma CollectedQuiet(cfg: Config, s: State, full: FullShardId, shard: Option<Bytes>, id: Vid)
    requires cfg.Wide()
    ensures Quiet(Collected(cfg, s, full, shard).actions, id)
  {}

  lemma ConfirmedSameSpread(cfg: Config, s: State, full: FullShardId, location: PeerId, id: Vid)
    requires full.id != id
    ensures SameSpread(s, Confirmed(cfg, s, full, location).state, id)
  {
    ObservedElsewhere(s, full, location, id);
  }

  lemma ObservedElsewhere(s: State, full: FullShardId, location: PeerId, id: Vid)
    requires full.id != id
    ensures SameSpread(s, Observed(s, full, location), id)
  {}

  lemma ConfirmedElsewhere(cfg: Config, s: State, full: FullShardId, location: PeerId, id: Vid)
    requires full.id != id
    ensures Untouched(s, Confirmed(cfg, s, full, location), id)
  {
    ConfirmedSameSpread(cfg, s, full, location, id);
  }

  lemma StoredUntouched(s: State, full: FullShardId, shard: Option<Bytes>, id: Vid)
    ensures Untouched(s, Stored(s, full, shard), id)
  {}

  lemma StepUntouched(cfg: Config, s: State, ev: InEvent, id: Vid)
    requires cfg.Valid() && Fits(cfg, ev) && LeavesAlone(cfg, ev, id)
    requires ev.StoreConfirmed? ==> ev.full.id != id
    ensures Untouched(s, Step(cfg, s, ev), id)
  {
    match ev {
      case StoreConfirmed(full, location) => ConfirmedElsewhere(cfg, s, full, location, id);
      case AssignedShard(full, shard) => CollectedUntouched(cfg, s, full, shard, id);
      case RecollectRequest(of, order) => RecollectedUntouched(cfg, s, of, order, id);
      case ServedShard(full, shard) => StoredUntouched(s, full, shard, id);
      case StorageRequestTx(of, author) =>
        if cfg.Assigned().Some? {
          var full := Full(of, cfg.Assigned().value);
          StoredUntouched(s, full, Get(s.toDistribute, full), id);
        }
      case PeerShardsActualized(peer, ids) =>
        LocatedElsewhere(s.locations, ids, cfg.distribution[peer], peer, id);
      case _ =>
    }
  }

  /** How far the put of the code word `word` has come, when the confirmed shards are `c`. */
  ghost predicate TrackedState(cfg: Config, s: State, id: Vid, word: map<Sid, Bytes>, c: seq<Sid>) {
    && !s.stopped
    && At(s.locations, id).Keys == SidSet(c)
    && Lookup(s.toDistribute, id) == (if |c| < cfg.code.Total() then Some(word - SidSet(c)) else None)
  }

  ghost predicate TrackedLog(cfg: Config, log: Log, id: Vid, confirmed: nat) {
    && Count(log, DistributionSufficient(id)) == (if confirmed < K then 0 else 1)
    && Count(log, DistributionFull(id)) == (if confirmed < cfg.code.Total() then 0 else 1)
  }

  ghost predicate Tracked(cfg: Config, e: Effect, id: Vid, word: map<Sid, Bytes>, c: seq<Sid>) {
    TrackedState(cfg, e.state, id, word, c) && TrackedLog(cfg, e.actions, id, |c|)
  }

  lemma ObservedState(s: State, id: Vid, sid: Sid, location: PeerId)
    ensures var t := Observed(s, Full(id, sid), location);
      && id in t.locations && t.locations[id].Keys == At(s.locations, id).Keys + {sid}
      && t.stopped == s.stopped
      && Lookup(t.toDistribute, id) == if id in s.toDistribute then Some(s.toDistribute[id] - {sid}) else None
  {
    var t := Observed(s, Full(id, sid), location);
    assert t.locations[id].Keys == At(s.locations, id).Keys + {sid};
  }

  lemma ConfirmedState(cfg: Config, s: State, id: Vid, sid: Sid, location: PeerId)
    ensures var t := Confirmed(cfg, s, Full(id, sid), location).state;
      var known := At(s.locations, id).Keys + {sid};
      && At(t.locations, id).Keys == known
      && t.stopped == s.stopped
      && Lookup(t.toDistribute, id) ==
           (if |known| == cfg.code.Total() || id !in s.toDistribute then None else Some(s.toDistribute[id] - {sid}))
  {
    ObservedState(s, id, sid, location);
  }

  lemma ConfirmedReports(cfg: Config, s: State, id: Vid, sid: Sid, location: PeerId)
    ensures Confirmed(cfg, s, Full(id, sid), location).actions == Reports(cfg, id, |At(s.locations, id).Keys + {sid}|)
  {
    var s' := Observed(s, Full(id, sid), location);
    assert s'.locations[id].Keys == At(s.locations, id).Keys + {sid};
  }

  lemma ConfirmTracksState(cfg: Config, s: State, id: Vid, word: map<Sid, Bytes>, c: seq<Sid>, sid: Sid, location: PeerId)
    requires TrackedState(cfg, s, id, word, c) && Distinct(c + [sid]) && |c| < cfg.code.Total()
    ensures TrackedState(cfg, Confirmed(cfg, s, Full(id, sid), location).state, id, word, c + [sid])
  {
    ConfirmedState(cfg, s, id, sid, location);
    TrackedNext(cfg, s, Confirmed(cfg, s, Full(id, sid), location).state, id, word, c, sid);
  }

  lemma TrackedNext(cfg: Config, s: State, t: State, id: Vid, word: map<Sid, Bytes>, c: seq<Sid>, sid: Sid)
    requires TrackedState(cfg, s, id, word, c) && Distinct(c + [sid]) && |c| < cfg.code.Total()
    requires At(t.locations, id).Keys == SidSet(c) + {sid} && !t.stopped
    requires Lookup(t.toDistribute, id) ==
      (if |SidSet(c) + {sid}| == cfg.code.Total() then None else Some((word - SidSet(c)) - {sid}))
    ensures TrackedState(cfg, t, id, word, c + [sid])
  {
    DistinctSize(c + [sid]);
    assert SidSet(c + [sid]) == SidSet(c) + {sid};
    MinusTwice(word, SidSet(c), sid);
  }

  lemma ConfirmTracksLog(cfg: Config, log: Log, id: Vid, n: nat)
    requires TrackedLog(cfg, log, id, n) && n < cfg.code.Total() && K <= cfg.code.Total()
    ensures TrackedLog(cfg, log + Reports(cfg, id, n + 1), id, n + 1)
  {
    ReportCounts(cfg, id, n + 1);
    CountAppend(log, Reports(cfg, id, n + 1), DistributionSufficient(id));
    CountAppend(log, Reports(cfg, id, n + 1), DistributionFull(id));
  }

  lemma ConfirmReports(cfg: Config, s: State, id: Vid, word: map<Sid, Bytes>, c: seq<Sid>, sid: Sid, location: PeerId)
    requires TrackedState(cfg, s, id, word, c) && Distinct(c + [sid])
    ensures Confirmed(cfg, s, Full(id, sid), location).actions == Reports(cfg, id, |c| + 1)
  {
    ConfirmedReports(cfg, s, id, sid, location);
    DistinctSize(c + [sid]);
    assert SidSet(c + [sid]) == SidSet(c) + {sid};
  }

  lemma MinusTwice<T>(m: map<Sid, T>, a: set<Sid>, sid: Sid)
    ensures m - a - {sid} == m - (a + {sid})
  {}

  lemma ReportCounts(cfg: Config, id: Vid, known: nat)
    ensures Count(Reports(cfg, id, known), DistributionSufficient(id)) == (if known == K then 1 else 0)
    ensures Count(Reports(cfg, id, known), DistributionFull(id)) == (if known == cfg.code.Total() then 1 else 0)
  {
    var a: Log := if known == K then [Emit(DistributionSufficient(id))] else [];
    var b: Log := if known == cfg.code.Total() then [Emit(DistributionFull(id))] else [];
    CountAppend(a, b, DistributionSufficient(id));
    CountAppend(a, b, DistributionFull(id));
  }

  lemma QuietLog(cfg: Config, log: Log, more: Log, id: Vid, n: nat)
    requires TrackedLog(cfg, log, id, n) && Quiet(more, id)
    ensures TrackedLog(cfg, log + more, id, n)
  {
    CountAppend(log, more, DistributionSufficient(id));
    CountAppend(log, more, DistributionFull(id));
    CountNone(more, DistributionSufficient(id));
    CountNone(more, DistributionFull(id));
  }

  ghost predicate InRange(cfg: Config, ids: seq<Sid>) {
    forall i :: 0 <= i < |ids| ==> ids[i] < cfg.code.Total()
  }

  lemma RangeBound(cfg: Config, ids: seq<Sid>)
    requires Distinct(ids) && InRange(cfg, ids)
    ensures |ids| <= cfg.code.Total()
    ensures |ids| == cfg.code.Total() ==> SidSet(ids) == AllSids(cfg.code.Total())
  {
    DistinctSize(ids);
    var all := AllSids(cfg.code.Total());
    assert SidSet(ids) <= all;
    SubsetSize(SidSet(ids), all);
    if |ids| == cfg.code.Total() {
      SubsetEqual(SidSet(ids), all);
    }
  }

  /** What the tracking theorem asks of a run: distinct confirmations within the code, and nothing else about `id`. */
  ghost predicate Orderly(cfg: Config, events: seq<InEvent>, id: Vid) {
    && AllFit(cfg, events)
    && AllLeaveAlone(cfg, events, id)
    && Distinct(Confirmations(events, id))
    && InRange(cfg, Confirmations(events, id))
  }

  lemma OrderlyPrefix(cfg: Config, events: seq<InEvent>, id: Vid)
    requires events != [] && Orderly(cfg, events, id)
    ensures Orderly(cfg, events[..|events| - 1], id)
  {
    var c, c' := Confirmations(events, id), Confirmations(events[..|events| - 1], id);
    assert forall i :: 0 <= i < |c'| ==> c'[i] == c[i];
  }

  function NewConfirmation(ev: InEvent, id: Vid): seq<Sid> {
    if ev.StoreConfirmed? && ev.full.id == id then [ev.full.sid] else []
  }

  lemma TrackStep(cfg: Config, s: State, log: Log, ev: InEvent, id: Vid, word: map<Sid, Bytes>, c: seq<Sid>)
    requires cfg.Valid() && Fits(cfg, ev) && LeavesAlone(cfg, ev, id)
    requires TrackedState(cfg, s, id, word, c) && TrackedLog(cfg, log, id, |c|)
    requires Distinct(c + NewConfirmation(ev, id)) && |c + NewConfirmation(ev, id)| <= cfg.code.Total()
    ensures TrackedState(cfg, Step(cfg, s, ev).state, id, word, c + NewConfirmation(ev, id))
    ensures TrackedLog(cfg, log + Step(cfg, s, ev).actions, id, |c + NewConfirmation(ev, id)|)
  {
    if ev.StoreConfirmed? && ev.full.id == id {
      assert ev.full == Full(id, ev.full.sid);
      ConfirmTracksState(cfg, s, id, word, c, ev.full.sid, ev.location);
      ConfirmReports(cfg, s, id, word, c, ev.full.sid, ev.location);
      ConfirmTracksLog(cfg, log, id, |c|);
    } else {
      StepUntouched(cfg, s, ev, id);
      assert c + [] == c;
      QuietLog(cfg, log, Step(cfg, s, ev).actions, id, |c|);
    }
  }

  lemma {:induction false} TrackedFrom(cfg: Config, start: State, id: Vid, word: map<Sid, Bytes>, events: seq<InEvent>)
    requires cfg.Valid() && Orderly(cfg, events, id)
    requires !start.stopped && At(start.locations, id) == map[] && Lookup(start.toDistribute, id) == Some(word)
    ensures Tracked(cfg, Run(cfg, start, events), id, word, Confirmations(events, id))
  {
    if events == [] {
      assert word - SidSet([]) == word;
    } else {
      var n := |events| - 1;
      OrderlyPrefix(cfg, events, id);
      TrackedFrom(cfg, start, id, word, events[..n]);
      RangeBound(cfg, Confirmations(events, id));
      var before := Run(cfg, start, events[..n]);
      TrackStep(cfg, before.state, before.actions, events[n], id, word, Confirmations(events[..n], id));
    }
  }

  /**
   After a put of an id without known locations, and in every run that confirms distinct shards of
   the code and otherwise leaves the id alone: the shards still served are exactly the unconfirmed
   ones until all are confirmed, and each report is made once, at its threshold.
   */
  lemma PutIsTracked(cfg: Config, s: State, id: Vid, d: Bytes, events: seq<InEvent>)
    requires cfg.Valid() && cfg.code.IsData(d) && !s.stopped && At(s.locations, id) == map[]
    requires Orderly(cfg, events, id)
    ensures Tracked(cfg, Run(cfg, Prepared(cfg, s, id, d).state, events), id, cfg.code.Encoded(d), Confirmations(events, id))
    ensures Count(Run(cfg, Prepared(cfg, s, id, d).state, events).actions, DistributionFull(id)) > 0 ==>
      SidSet(Confirmations(events, id)) == AllSids(cfg.code.Total())
  {
    TrackedFrom(cfg, Prepared(cfg, s, id, d).state, id, cfg.code.Encoded(d), events);
    RangeBound(cfg, Confirmations(events, id));
  }

  // ---------- putting an id again ----------

  /** A full distribution of the put of `d` is only ever reported once all its shards are confirmed. */
  ghost predicate FullMeansConfirmed(cfg: Config, s: State, id: Vid, d: Bytes)
    requires cfg.Valid() && cfg.code.IsData(d)
  {
    forall events :: Orderly(cfg, events, id) ==>
      Count(Run(cfg, Prepared(cfg, s, id, d).state, events).actions, DistributionFull(id)) > 0 ==>
      SidSet(Confirmations(events, id)) == AllSids(cfg.code.Total())
  }

  function Confirm(id: Vid, ids: seq<Sid>): (events: seq<InEvent>)
    ensures |events| == |ids|
    ensures forall i :: 0 <= i < |ids| ==> events[i] == StoreConfirmed(Full(id, ids[i]), 0)
  {
    if ids == [] then [] else Confirm(id, ids[..|ids| - 1]) + [StoreConfirmed(Full(id, ids[|ids| - 1]), 0)]
  }

  lemma {:induction false} ConfirmationsOf(id: Vid, ids: seq<Sid>)
    ensures Confirmations(Confirm(id, ids), id) == ids
  {
    if ids != [] {
      var n := |ids| - 1;
      ConfirmationsOf(id, ids[..n]);
      assert Confirm(id, ids)[..n] == Confirm(id, ids[..n]);
    }
  }

  lemma SidSetSnoc(ids: seq<Sid>)
    requires ids != []
    ensures SidSet(ids) == SidSet(ids[..|ids| - 1]) + {ids[|ids| - 1]}
  {}

  lemma StepConfirms(cfg: Config, s: State, id: Vid, sid: Sid)
    requires cfg.Valid() && !s.stopped
    ensures var e := Step(cfg, s, StoreConfirmed(Full(id, sid), 0));
      && !e.state.stopped
      && At(e.state.locations, id).Keys == At(s.locations, id).Keys + {sid}
      && e.actions == Reports(cfg, id, |At(s.locations, id).Keys + {sid}|)
  {
    ConfirmedState(cfg, s, id, sid, 0);
    ConfirmedReports(cfg, s, id, sid, 0);
  }

  /** The locations after one more confirmation, and the report it makes. */
  lemma ConfirmOneMore(cfg: Config, start: State, id: Vid, ids: seq<Sid>)
    requires cfg.Valid() && ids != [] && AllFit(cfg, Confirm(id, ids)) && AllFit(cfg, Confirm(id, ids[..|ids| - 1]))
    requires !Run(cfg, start, Confirm(id, ids[..|ids| - 1])).state.stopped
    ensures var before := Run(cfg, start, Confirm(id, ids[..|ids| - 1]));
      var known := At(before.state.locations, id).Keys + {ids[|ids| - 1]};
      var r := Run(cfg, start, Confirm(id, ids));
      && !r.state.stopped
      && At(r.state.locations, id).Keys == known
      && r.actions == before.actions + Reports(cfg, id, |known|)
  {
    var n := |ids| - 1;
    RunSnoc(cfg, start, Confirm(id, ids[..n]), StoreConfirmed(Full(id, ids[n]), 0));
    StepConfirms(cfg, Run(cfg, start, Confirm(id, ids[..n])).state, id, ids[n]);
  }

  lemma {:induction false} ConfirmRun(cfg: Config, start: State, id: Vid, ids: seq<Sid>, known: set<Sid>)
    requires cfg.Valid() && !start.stopped && AllFit(cfg, Confirm(id, ids)) && known == At(start.locations, id).Keys
    ensures !Run(cfg, start, Confirm(id, ids)).state.stopped
    ensures At(Run(cfg, start, Confirm(id, ids)).state.locations, id).Keys == known + SidSet(ids)
  {
    if ids != [] {
      ConfirmRun(cfg, start, id, ids[..|ids| - 1], known);
      ConfirmOneMore(cfg, start, id, ids);
      SidSetSnoc(ids);
      UnionAssoc(known, SidSet(ids[..|ids| - 1]), {ids[|ids| - 1]});
    }
  }

  lemma UnionAssoc(a: set<Sid>, b: set<Sid>, c: set<Sid>)
    ensures a + b + c == a + (b + c)
  {}

  /** The last of some confirmations after which `Total()` locations are known reports a full distribution. */
  lemma LastConfirmReports(cfg: Config, start: State, id: Vid, ids: seq<Sid>, known: set<Sid>)
    requires cfg.Valid() && !start.stopped && AllFit(cfg, Confirm(id, ids)) && known == At(start.locations, id).Keys
    requires ids != [] && |known + SidSet(ids)| == cfg.code.Total()
    ensures Count(Run(cfg, start, Confirm(id, ids)).actions, DistributionFull(id)) > 0
  {
    ConfirmRun(cfg, start, id, ids[..|ids| - 1], known);
    ConfirmRun(cfg, start, id, ids, known);
    ConfirmOneMore(cfg, start, id, ids);
    ReportCounts(cfg, id, cfg.code.Total());
    var before := Run(cfg, start, Confirm(id, ids[..|ids| - 1]));
    CountAppend(before.actions, Reports(cfg, id, cfg.code.Total()), DistributionFull(id));
  }

  /**
   The locations known at the time of a put are such that the report of a full distribution can be
   trusted: there are none, or so many, besides the shards of the code, that it is never made.
   */
  predicate Trusted(cfg: Config, known: set<Sid>) {
    || known == {}
    || |known| > cfg.code.Total()
    || (|known| == cfg.code.Total() && known !! AllSids(cfg.code.Total()))
  }

  /**
   Reusing an id keeps its old locations.  The report of a full distribution can be trusted exactly
   when no location of the id was known at the time of the put, or too many.
   */
  lemma FullAfterPutAgain(cfg: Config, s: State, id: Vid, d: Bytes)
    requires cfg.Valid() && cfg.code.IsData(d) && !s.stopped
    ensures FullMeansConfirmed(cfg, s, id, d) <==> Trusted(cfg, At(s.locations, id).Keys)
  {
    var known := At(s.locations, id).Keys;
    if Trusted(cfg, known) {
      forall events | Orderly(cfg, events, id)
        ensures Count(Run(cfg, Prepared(cfg, s, id, d).state, events).actions, DistributionFull(id)) > 0 ==>
          SidSet(Confirmations(events, id)) == AllSids(cfg.code.Total())
      {
        if known == {} {
          assert At(s.locations, id) == map[];
          PutIsTracked(cfg, s, id, d, events);
        } else {
          NeverFull(cfg, Prepared(cfg, s, id, d).state, id, events, known);
        }
      }
    } else {
      var events := EarlyReport(cfg, s, id, d);
    }
  }

  /** With too many locations known already, a full distribution is never reported. */
  lemma {:induction false} NeverFull(cfg: Config, start: State, id: Vid, events: seq<InEvent>, known: set<Sid>)
    requires cfg.Valid() && Orderly(cfg, events, id) && !start.stopped
    requires known == At(start.locations, id).Keys && known != {} && Trusted(cfg, known)
    ensures Beyond(Run(cfg, start, events), id, known, Confirmations(events, id))
  {
    if events != [] {
      var n := |events| - 1;
      OrderlyPrefix(cfg, events, id);
      NeverFull(cfg, start, id, events[..n], known);
      BeyondStep(cfg, Run(cfg, start, events[..n]), events[n], id, known, Confirmations(events[..n], id));
    } else {
      assert known + SidSet([]) == known;
    }
  }

  /** Confirmations have only added to `known`, and no full distribution was reported. */
  ghost predicate Beyond(e: Effect, id: Vid, known: set<Sid>, c: seq<Sid>) {
    && !e.state.stopped
    && At(e.state.locations, id).Keys == known + SidSet(c)
    && Count(e.actions, DistributionFull(id)) == 0
  }

  lemma BeyondStep(cfg: Config, before: Effect, ev: InEvent, id: Vid, known: set<Sid>, c: seq<Sid>)
    requires cfg.Valid() && Fits(cfg, ev) && LeavesAlone(cfg, ev, id) && known != {} && Trusted(cfg, known)
    requires Beyond(before, id, known, c) && InRange(cfg, c + NewConfirmation(ev, id))
    ensures Beyond(Step(cfg, before.state, ev).After(before.actions), id, known, c + NewConfirmation(ev, id))
  {
    CountAppend(before.actions, Step(cfg, before.state, ev).actions, DistributionFull(id));
    if ev.StoreConfirmed? && ev.full.id == id {
      assert ev.full == Full(id, ev.full.sid) && (c + [ev.full.sid])[..|c|] == c;
      ConfirmsBeyond(cfg, before.state, id, c + [ev.full.sid], ev.location, known);
    } else {
      assert c + [] == c;
      OthersStay(cfg, before.state, ev, id);
    }
  }

  lemma OthersStay(cfg: Config, s: State, ev: InEvent, id: Vid)
    requires cfg.Valid() && Fits(cfg, ev) && LeavesAlone(cfg, ev, id) && (ev.StoreConfirmed? ==> ev.full.id != id)
    ensures var e := Step(cfg, s, ev);
      && e.state.stopped == s.stopped
      && At(e.state.locations, id).Keys == At(s.locations, id).Keys
      && Count(e.actions, DistributionFull(id)) == 0
  {
    StepUntouched(cfg, s, ev, id);
    CountNone(Step(cfg, s, ev).actions, DistributionFull(id));
  }

  /** One more confirmation when there are too many locations already. */
  lemma ConfirmsBeyond(cfg: Config, s: State, id: Vid, c: seq<Sid>, location: PeerId, known: set<Sid>)
    requires known != {} && Trusted(cfg, known) && c != [] && InRange(cfg, c)
    requires At(s.locations, id).Keys == known + SidSet(c[..|c| - 1])
    ensures var e := Confirmed(cfg, s, Full(id, c[|c| - 1]), location);
      && e.state.stopped == s.stopped
      && At(e.state.locations, id).Keys == known + SidSet(c)
      && Count(e.actions, DistributionFull(id)) == 0
  {
    var sid := c[|c| - 1];
    SidSetSnoc(c);
    TooMany(cfg, known, c);
    ConfirmedState(cfg, s, id, sid, location);
    ConfirmedReports(cfg, s, id, sid, location);
    UnionAssoc(known, SidSet(c[..|c| - 1]), {sid});
    ReportCounts(cfg, id, |known + SidSet(c)|);
  }

  lemma TooMany(cfg: Config, known: set<Sid>, ids: seq<Sid>)
    requires known != {} && Trusted(cfg, known) && ids != [] && InRange(cfg, ids)
    ensures |known + SidSet(ids)| > cfg.code.Total()
  {
    assert ids[0] in SidSet(ids) && ids[0] in AllSids(cfg.code.Total());
    if |known| > cfg.code.Total() {
      SubsetSize(known, known + SidSet(ids));
    } else {
      SubsetSize(known + {ids[0]}, known + SidSet(ids));
    }
  }

  /** Some `n` of the given shard ids, each once. */
  lemma {:induction false} SomeOf(from: set<Sid>, n: nat) returns (ids: seq<Sid>)
    requires n <= |from|
    ensures |ids| == n && Distinct(ids) && forall i :: 0 <= i < n ==> ids[i] in from
    decreases n
  {
    if n == 0 {
      ids := [];
    } else {
      var sid :| sid in from;
      var rest := SomeOf(from - {sid}, n - 1);
      ids := rest + [sid];
    }
  }

  lemma OthersOrderly(cfg: Config, id: Vid, ids: seq<Sid>)
    requires Distinct(ids) && InRange(cfg, ids)
    ensures Orderly(cfg, Confirm(id, ids), id) && Confirmations(Confirm(id, ids), id) == ids
  {
    ConfirmationsOf(id, ids);
  }

  /** Confirmations that, with those known before, make up the number without being all of the code. */
  lemma MisleadingIds(cfg: Config, known: set<Sid>) returns (ids: seq<Sid>)
    requires cfg.Wide() && !Trusted(cfg, known)
    ensures ids != [] && Distinct(ids) && InRange(cfg, ids)
    ensures |known + SidSet(ids)| == cfg.code.Total() && |ids| < cfg.code.Total()
  {
    var total, all := cfg.code.Total(), AllSids(cfg.code.Total());
    if |known| < total {
      assert |all - known| >= total - |known| by {
        assert all == (all - known) + (all * known);
        SubsetSize(all * known, known);
      }
      ids := SomeOf(all - known, total - |known|);
      DistinctSize(ids);
      assert known !! SidSet(ids);
      assert |known| > 0;
    } else {
      var a :| a in known && a in all;
      ids := [a];
      assert known + SidSet(ids) == known;
    }
  }

  /** Otherwise some confirmations, not of all shards, bring the report of a full distribution. */
  lemma EarlyReport(cfg: Config, s: State, id: Vid, d: Bytes) returns (events: seq<InEvent>)
    requires cfg.Valid() && cfg.code.IsData(d) && !s.stopped && !Trusted(cfg, At(s.locations, id).Keys)
    ensures Orderly(cfg, events, id)
    ensures Count(Run(cfg, Prepared(cfg, s, id, d).state, events).actions, DistributionFull(id)) > 0
    ensures SidSet(Confirmations(events, id)) < AllSids(cfg.code.Total())
  {
    var known := At(s.locations, id).Keys;
    var ids := MisleadingIds(cfg, known);
    events := Confirm(id, ids);
    OthersOrderly(cfg, id, ids);
    SomeAreLeft(cfg, ids);
    PutKeepsLocations(cfg, s, id, d);
    LastConfirmReports(cfg, Prepared(cfg, s, id, d).state, id, ids, known);
  }

  lemma PutKeepsLocations(cfg: Config, s: State, id: Vid, d: Bytes)
    requires cfg.code.IsData(d)
    ensures var t := Prepared(cfg, s, id, d).state; t.locations == s.locations && t.stopped == s.stopped
  {
  }

  lemma SomeAreLeft(cfg: Config, ids: seq<Sid>)
    requires Distinct(ids) && InRange(cfg, ids) && |ids| < cfg.code.Total()
    ensures SidSet(ids) < AllSids(cfg.code.Total())
  {
    DistinctSize(ids);
    assert SidSet(ids) <= AllSids(cfg.code.Total());
    assert SidSet(ids) != AllSids(cfg.code.Total());
  }

  // ---------- what is served ----------

  /** The data last put under `id`. */
  function LastPut(events: seq<InEvent>, id: Vid): Option<Bytes> {
    if events == [] then None else
    var last := events[|events| - 1];
    if last.PrepareService? && last.id == id then Some(last.data) else LastPut(events[..|events| - 1], id)
  }

  /** Shards still handed out for `id` are those of the encoding of the data last put under it. */
  ghost predicate HandsOut(cfg: Config, s: State, id: Vid, put: Option<Bytes>) {
    forall sid :: sid in At(s.toDistribute, id) ==>
      && put.Some? && cfg.code.IsData(put.value) && sid < cfg.code.Total()
      && At(s.toDistribute, id)[sid] == cfg.code.ShardOf(sid, put.value)
  }

  lemma ToDistributeKept(cfg: Config, s: State, ev: InEvent)
    requires cfg.Valid() && Fits(cfg, ev) && !ev.PrepareService? && !ev.StoreConfirmed?
    ensures Step(cfg, s, ev).state.toDistribute == s.toDistribute
  {
    if ev.RecollectRequest? {
      RecollectedKeeps(cfg, s, ev.id, ev.order);
    }
  }

  /** A confirmation only takes shards away. */
  ghost predicate Within(a: map<Sid, Bytes>, b: map<Sid, Bytes>) {
    forall sid :: sid in a ==> sid in b && a[sid] == b[sid]
  }

  lemma ObservedWithin(s: State, full: FullShardId, location: PeerId, id: Vid)
    ensures Within(At(Observed(s, full, location).toDistribute, id), At(s.toDistribute, id))
  {
  }

  lemma RemovedWithin(m: Nested<Bytes>, gone: Vid, id: Vid)
    ensures Within(At(m - {gone}, id), At(m, id))
  {
  }

  lemma ConfirmedHandsOut(cfg: Config, s: State, full: FullShardId, location: PeerId, id: Vid, put: Option<Bytes>)
    requires HandsOut(cfg, s, id, put)
    ensures HandsOut(cfg, Confirmed(cfg, s, full, location).state, id, put)
  {
    var s' := Observed(s, full, location);
    ObservedWithin(s, full, location, id);
    RemovedWithin(s'.toDistribute, full.id, id);
    assert Within(At(Confirmed(cfg, s, full, location).state.toDistribute, id), At(s.toDistribute, id));
  }

  lemma PreparedHandsOut(cfg: Config, s: State, of: Vid, data: Bytes, id: Vid, put: Option<Bytes>)
    requires cfg.code.IsData(data) && HandsOut(cfg, s, id, put)
    ensures HandsOut(cfg, Prepared(cfg, s, of, data).state, id, if of == id then Some(data) else put)
  {
    var t := Prepared(cfg, s, of, data).state;
    assert At(t.toDistribute, id) == if of == id then cfg.code.Encoded(data) else At(s.toDistribute, id);
  }

  lemma StepHandsOut(cfg: Config, s: State, ev: InEvent, id: Vid, put: Option<Bytes>)
    requires cfg.Valid() && Fits(cfg, ev) && !s.stopped && HandsOut(cfg, s, id, put)
    ensures HandsOut(cfg, Step(cfg, s, ev).state, id, if ev.PrepareService? && ev.id == id then Some(ev.data) else put)
  {
    match ev
    case PrepareService(of, data) => PreparedHandsOut(cfg, s, of, data, id, put);
    case StoreConfirmed(full, location) => ConfirmedHandsOut(cfg, s, full, location, id, put);
    case _ => ToDistributeKept(cfg, s, ev);
  }

  /** In every run, whatever `id` is asked for is served from the encoding of the data last put under it. */
  lemma {:induction false} ServesLastPut(cfg: Config, events: seq<InEvent>, id: Vid)
    requires cfg.Valid() && AllFit(cfg, events) && !Run(cfg, INITIAL, events).state.stopped
    ensures HandsOut(cfg, Run(cfg, INITIAL, events).state, id, LastPut(events, id))
  {
    if events != [] {
      var n := |events| - 1;
      ServesLastPut(cfg, events[..n], id);
      StepHandsOut(cfg, Run(cfg, INITIAL, events[..n]).state, events[n], id, LastPut(events[..n], id));
    }
  }
}
