/** Properties of recollection over whole runs of the data memory (src/data_memory/mod.rs). */
module Recollection {
  import opened Types
  import opened ReedSolomon
  import opened DataMemory

  // ---------- sessions ----------

  /** Where the session of one data id stands, as told by the log alone. */
  datatype Phase = Closed | Open | Done(shards: map<Sid, Bytes>)

  predicate IsAnswer(a: Action, id: Vid) {
    a.Emit? && a.out.RecollectResponse? && a.out.response.Ok? && a.out.response.value.0 == id
  }

  function Next(ph: Phase, a: Action, id: Vid): Phase {
    if a == Opened(id) then Open
    else if a.Decoding? && a.id == id then Done(a.shards)
    else if IsAnswer(a, id) then Closed
    else ph
  }

  /**
   A session is opened only when none is open, shards are decoded only in an open session and
   exactly K of them, and an answer is what the last decoded shards stand for.
   */
  ghost predicate Allowed(code: Code, ph: Phase, a: Action, id: Vid)
    requires code.Valid()
  {
    if a == Opened(id) then ph != Open
    else if a.Decoding? && a.id == id then ph == Open && |a.shards| == K
    else if IsAnswer(a, id) then ph.Done? && code.Decoded(ph.shards) == Ok(a.out.response.value.1)
    else true
  }

  function PhaseAfter(ph: Phase, log: Log, id: Vid): Phase {
    if log == [] then ph else Next(PhaseAfter(ph, log[..|log| - 1], id), log[|log| - 1], id)
  }

  ghost predicate Legal(code: Code, ph: Phase, log: Log, id: Vid)
    requires code.Valid()
  {
    forall i :: 0 <= i < |log| ==> Allowed(code, PhaseAfter(ph, log[..i], id), log[i], id)
  }

  lemma {:induction false} PhaseAppend(ph: Phase, a: Log, b: Log, id: Vid)
    ensures PhaseAfter(ph, a + b, id) == PhaseAfter(PhaseAfter(ph, a, id), b, id)
  {
    if b == [] {
      assert a + b == a;
    } else {
      assert (a + b)[..|a + b| - 1] == a + b[..|b| - 1];
      PhaseAppend(ph, a, b[..|b| - 1], id);
    }
  }

  lemma LegalAppend(code: Code, ph: Phase, a: Log, b: Log, id: Vid)
    requires code.Valid()
    requires Legal(code, ph, a, id) && Legal(code, PhaseAfter(ph, a, id), b, id)
    ensures Legal(code, ph, a + b, id)
  {
    forall i | 0 <= i < |a + b|
      ensures Allowed(code, PhaseAfter(ph, (a + b)[..i], id), (a + b)[i], id)
    {
      if i < |a| {
        assert (a + b)[..i] == a[..i];
      } else {
        assert (a + b)[..i] == a + b[..i - |a|];
        PhaseAppend(ph, a, b[..i - |a|], id);
      }
    }
  }

  /** Every open session still needs shards. */
  ghost predicate Pending(s: State) {
    forall id :: id in s.assembled ==> |s.assembled[id]| < K
  }

  /** One effect: it keeps `Pending`, and it moves the session of `id` legally. */
  ghost predicate Moves(cfg: Config, s: State, e: Effect, id: Vid)
    requires cfg.Valid()
  {
    forall ph :: (ph == Open <==> id in s.assembled) ==>
      && Legal(cfg.code, ph, e.actions, id)
      && (PhaseAfter(ph, e.actions, id) == Open <==> id in e.state.assembled)
  }

  lemma MovesThen(cfg: Config, s: State, e: Effect, f: Effect, id: Vid)
    requires cfg.Valid() && Moves(cfg, s, e, id) && Moves(cfg, e.state, f, id)
    ensures Moves(cfg, s, Effect(f.state, e.actions + f.actions), id)
  {
    forall ph | ph == Open <==> id in s.assembled
      ensures Legal(cfg.code, ph, e.actions + f.actions, id)
      ensures PhaseAfter(ph, e.actions + f.actions, id) == Open <==> id in f.state.assembled
    {
      PhaseAppend(ph, e.actions, f.actions, id);
      LegalAppend(cfg.code, ph, e.actions, f.actions, id);
    }
  }

  /** An effect that touches no session. */
  lemma {:induction false} MovesNothing(cfg: Config, s: State, e: Effect, id: Vid)
    requires cfg.Valid() && (id in e.state.assembled <==> id in s.assembled)
    requires forall i :: 0 <= i < |e.actions| ==> e.actions[i].Emit? && !IsAnswer(e.actions[i], id)
    ensures Moves(cfg, s, e, id)
  {
    forall ph {
      Unmoved(ph, e.actions, id);
    }
  }

  lemma {:induction false} Unmoved(ph: Phase, log: Log, id: Vid)
    requires forall i :: 0 <= i < |log| ==> log[i].Emit? && !IsAnswer(log[i], id)
    ensures PhaseAfter(ph, log, id) == ph
  {
    if log != [] {
      Unmoved(ph, log[..|log| - 1], id);
    }
  }

  lemma InsertedSize(m: map<Sid, Bytes>, sid: Sid, shard: Bytes)
    requires sid !in m
    ensures |m[sid := shard]| == |m| + 1
  {
    assert m[sid := shard].Keys == m.Keys + {sid};
  }

  lemma CollectedPending(cfg: Config, s: State, full: FullShardId, shard: Option<Bytes>)
    requires cfg.Wide() && Pending(s)
    ensures Pending(Collected(cfg, s, full, shard).state)
  {
  }

  /** Decoding starts when the last shard that was needed comes in, and ends the session. */
  lemma CollectedDecodes(cfg: Config, s: State, full: FullShardId, shard: Option<Bytes>)
    requires cfg.Wide() && Pending(s) && Collected(cfg, s, full, shard).actions != []
    ensures shard.Some? && full.id in s.assembled
    ensures |s.assembled[full.id][full.sid := shard.value]| == K
    ensures Collected(cfg, s, full, shard).state.assembled == s.assembled - {full.id}
  {
    InsertedSize(s.assembled[full.id], full.sid, shard.value);
  }

  lemma CollectedMoves(cfg: Config, s: State, full: FullShardId, shard: Option<Bytes>, id: Vid)
    requires cfg.Valid() && Pending(s)
    ensures Pending(Collected(cfg, s, full, shard).state)
    ensures Moves(cfg, s, Collected(cfg, s, full, shard), id)
  {
    var e := Collected(cfg, s, full, shard);
    CollectedPending(cfg, s, full, shard);
    if e.actions == [] {
      MovesNothing(cfg, s, e, id);
    } else {
      CollectedDecodes(cfg, s, full, shard);
      var received: map<Sid, Bytes> := s.assembled[full.id][full.sid := shard.value];
      forall ph | ph == Open <==> id in s.assembled
        ensures Legal(cfg.code, ph, e.actions, id)
        ensures PhaseAfter(ph, e.actions, id) == Open <==> id in e.state.assembled
      {
        DecodingPhases(cfg.code, ph, full.id, received, id);
      }
    }
  }

  lemma DecodingPhases(code: Code, ph: Phase, of: Vid, shards: map<Sid, Bytes>, id: Vid)
    requires code.Valid() && |shards| == K && (of == id ==> ph == Open)
    ensures var log := [Decoding(of, shards)] + Answer(of, code.Decoded(shards));
      Legal(code, ph, log, id) && (PhaseAfter(ph, log, id) == Open <==> ph == Open && of != id)
  {
    var first: Log := [Decoding(of, shards)];
    OnePhase(code, ph, first[0], id);
    var answer := Answer(of, code.Decoded(shards));
    if answer == [] {
      assert first + answer == first;
    } else {
      OnePhase(code, Next(ph, first[0], id), answer[0], id);
      PhaseAppend(ph, first, answer, id);
      LegalAppend(code, ph, first, answer, id);
    }
  }

  lemma OnePhase(code: Code, ph: Phase, a: Action, id: Vid)
    requires code.Valid() && Allowed(code, ph, a, id)
    ensures Legal(code, ph, [a], id) && PhaseAfter(ph, [a], id) == Next(ph, a, id)
  {
    assert [a][..0] == [];
  }

  lemma {:induction false} AskedMoves(cfg: Config, s: State, of: Vid, known: map<Sid, PeerId>, order: seq<Sid>, id: Vid)
    requires cfg.Valid() && Pending(s)
    ensures Pending(Asked(cfg, s, of, known, order).state)
    ensures Moves(cfg, s, Asked(cfg, s, of, known, order), id)
  {
    if order == [] {
      MovesNothing(cfg, s, Effect(s, []), id);
    } else {
      var rest := order[..|order| - 1];
      var full := Full(of, order[|order| - 1]);
      var before := Asked(cfg, s, of, known, rest);
      AskedMoves(cfg, s, of, known, rest, id);
      var now := AskOne(cfg, before.state, full, known);
      if full.sid in known && known[full.sid] == cfg.localId {
        CollectedMoves(cfg, before.state, full, Get(before.state.localStorage, full), id);
      } else {
        MovesNothing(cfg, before.state, now, id);
      }
      MovesThen(cfg, s, before, now, id);
    }
  }

  lemma RecollectedMoves(cfg: Config, s: State, of: Vid, order: seq<Sid>, id: Vid)
    requires cfg.Valid() && Pending(s)
    ensures Pending(Recollected(cfg, s, of, order).state)
    ensures Moves(cfg, s, Recollected(cfg, s, of, order), id)
  {
    var e := Recollected(cfg, s, of, order);
    if of in s.locations && |s.locations[of]| >= K && of !in s.assembled {
      var open := Effect(s.(assembled := s.assembled[of := map[]]), [Opened(of)]);
      assert Moves(cfg, s, open, id) by {
        forall ph | ph == Open <==> id in s.assembled
          ensures Legal(cfg.code, ph, open.actions, id)
          ensures PhaseAfter(ph, open.actions, id) == Open <==> id in open.state.assembled
        {
          assert open.actions[..0] == [];
        }
      }
      AskedMoves(cfg, open.state, of, s.locations[of], order, id);
      MovesThen(cfg, s, open, Asked(cfg, open.state, of, s.locations[of], order), id);
    } else {
      MovesNothing(cfg, s, e, id);
    }
  }

  predicate AboutLocations(ev: InEvent) {
    ev.StorageRequestTx? || ev.StoreConfirmed? || ev.PeerShardsActualized?
  }

  lemma LocationsKeepSessions(cfg: Config, s: State, ev: InEvent)
    requires cfg.Wide() && Fits(cfg, ev) && AboutLocations(ev)
    ensures Step(cfg, s, ev).state.assembled == s.assembled
  {}

  lemma OthersKeepSessions(cfg: Config, s: State, ev: InEvent)
    requires cfg.Wide() && Fits(cfg, ev) && !AboutLocations(ev) && !ev.AssignedShard? && !ev.RecollectRequest?
    ensures Step(cfg, s, ev).state.assembled == s.assembled
  {}

  lemma StepKeepsSessions(cfg: Config, s: State, ev: InEvent)
    requires cfg.Wide() && Fits(cfg, ev) && !ev.AssignedShard? && !ev.RecollectRequest?
    ensures Step(cfg, s, ev).state.assembled == s.assembled
  {
    if AboutLocations(ev) {
      LocationsKeepSessions(cfg, s, ev);
    } else {
      OthersKeepSessions(cfg, s, ev);
    }
  }

  lemma StepAnswersNothing(cfg: Config, s: State, ev: InEvent, id: Vid)
    requires cfg.Valid() && Fits(cfg, ev) && !ev.AssignedShard? && !ev.RecollectRequest?
    ensures var log := Step(cfg, s, ev).actions;
      forall i :: 0 <= i < |log| ==> log[i].Emit? && !IsAnswer(log[i], id)
  {}

  lemma StepMoves(cfg: Config, s: State, ev: InEvent, id: Vid)
    requires cfg.Valid() && Fits(cfg, ev) && Pending(s)
    ensures Pending(Step(cfg, s, ev).state)
    ensures Moves(cfg, s, Step(cfg, s, ev), id)
  {
    if ev.AssignedShard? && !s.stopped {
      CollectedMoves(cfg, s, ev.full, ev.shard, id);
    } else if ev.RecollectRequest? && !s.stopped {
      RecollectedMoves(cfg, s, ev.id, ev.order, id);
    } else if s.stopped {
      MovesNothing(cfg, s, Effect(s, []), id);
    } else {
      StepKeepsSessions(cfg, s, ev);
      StepAnswersNothing(cfg, s, ev, id);
      MovesNothing(cfg, s, Step(cfg, s, ev), id);
    }
  }

  /**
   Sessions, in every run: an open session holds fewer than K shards, the decoder is given exactly
   K, and opening, decoding and answering alternate as `Allowed` says.
   */
  lemma {:induction false} Sessions(cfg: Config, events: seq<InEvent>, id: Vid)
    requires cfg.Valid() && AllFit(cfg, events)
    ensures Pending(Run(cfg, INITIAL, events).state)
    ensures Moves(cfg, INITIAL, Run(cfg, INITIAL, events), id)
    ensures Legal(cfg.code, Closed, Run(cfg, INITIAL, events).actions, id)
  {
    if events == [] {
      MovesNothing(cfg, INITIAL, Effect(INITIAL, []), id);
    } else {
      var rest := events[..|events| - 1];
      Sessions(cfg, rest, id);
      var before := Run(cfg, INITIAL, rest);
      StepMoves(cfg, before.state, events[|events| - 1], id);
      MovesThen(cfg, INITIAL, before, Step(cfg, before.state, events[|events| - 1]), id);
    }
    assert Moves(cfg, INITIAL, Run(cfg, INITIAL, events), id);
  }

  /** Between two successful responses for one id, a session for it was opened. */
  lemma NewSessionPerResponse(cfg: Config, events: seq<InEvent>, id: Vid, i: nat, j: nat) returns (m: nat)
    requires cfg.Valid() && AllFit(cfg, events)
    requires i < j < |Run(cfg, INITIAL, events).actions|
    requires IsAnswer(Run(cfg, INITIAL, events).actions[i], id) && IsAnswer(Run(cfg, INITIAL, events).actions[j], id)
    ensures i < m < j && Run(cfg, INITIAL, events).actions[m] == Opened(id)
  {
    Sessions(cfg, events, id);
    m := OpenedBetween(cfg.code, Run(cfg, INITIAL, events).actions, id, i, j);
  }

  lemma OpenedBetween(code: Code, log: Log, id: Vid, i: nat, j: nat) returns (m: nat)
    requires code.Valid() && Legal(code, Closed, log, id) && i < j < |log| && IsAnswer(log[i], id) && IsAnswer(log[j], id)
    ensures i < m < j && log[m] == Opened(id)
  {
    var phases := seq(|log| + 1, k requires 0 <= k <= |log| => PhaseAfter(Closed, log[..k], id));
    forall k | 0 <= k < |log|
      ensures Allowed(code, phases[k], log[k], id) && phases[k + 1] == Next(phases[k], log[k], id)
    {
      LegalAt(code, Closed, log, id, k);
    }
    m := LastOpened(code, log, phases, id, i, j);
  }

  lemma LegalAt(code: Code, ph: Phase, log: Log, id: Vid, i: nat)
    requires code.Valid() && i < |log| && Legal(code, ph, log, id)
    ensures Allowed(code, PhaseAfter(ph, log[..i], id), log[i], id)
    ensures PhaseAfter(ph, log[..i + 1], id) == Next(PhaseAfter(ph, log[..i], id), log[i], id)
  {
    assert log[..i + 1][..i] == log[..i];
  }

  /** Going back from a point that is not closed, an opening is met before any answer. */
  lemma {:induction false} LastOpened(code: Code, log: Log, phases: seq<Phase>, id: Vid, i: nat, j: nat)
      returns (m: nat)
    requires code.Valid() && i < j <= |log| && |phases| == |log| + 1
    requires forall k :: 0 <= k < |log| ==>
      Allowed(code, phases[k], log[k], id) && phases[k + 1] == Next(phases[k], log[k], id)
    requires IsAnswer(log[i], id) && phases[j] != Closed
    ensures i < m < j && log[m] == Opened(id)
    decreases j
  {
    if log[j - 1] == Opened(id) {
      m := j - 1;
    } else {
      assert Allowed(code, phases[j - 1], log[j - 1], id);
      m := LastOpened(code, log, phases, id, i, j - 1);
    }
  }

  // ---------- correctness ----------

  /** Shards that belong to the encoding of `d`; an id outside the code is left open. */
  ghost predicate Agrees(code: Code, shards: map<Sid, Bytes>, d: Bytes)
    requires code.IsData(d)
  {
    forall sid :: sid in shards && sid < code.Total() ==> shards[sid] == code.ShardOf(sid, d)
  }

  ghost predicate AnswersAre(log: Log, id: Vid, d: Bytes) {
    forall i :: 0 <= i < |log| && IsAnswer(log[i], id) ==> log[i].out.response.value.1 == d
  }

  /** What decoding K agreeing shards can give: the data, or a failure. */
  lemma DecodeAgreeing(code: Code, shards: map<Sid, Bytes>, d: Bytes)
    requires code.Valid() && code.IsData(d) && Agrees(code, shards, d)
    ensures code.Decoded(shards).Ok? ==> code.Decoded(shards) == Ok(d)
  {
    code.DecodeFails(shards);
    if code.Decoded(shards).Ok? {
      code.DecodeConsistent(shards, d);
    }
  }

  lemma CollectedAgrees(cfg: Config, s: State, full: FullShardId, shard: Option<Bytes>, id: Vid, d: Bytes)
    requires cfg.Valid() && cfg.code.IsData(d) && Agrees(cfg.code, At(s.assembled, id), d)
    requires full.id == id && shard.Some? && full.sid < cfg.code.Total() ==>
      shard.value == cfg.code.ShardOf(full.sid, d)
    ensures Agrees(cfg.code, At(Collected(cfg, s, full, shard).state.assembled, id), d)
    ensures AnswersAre(Collected(cfg, s, full, shard).actions, id, d)
  {
    if full.id == id && id in s.assembled && shard.Some? {
      DecodeAgreeing(cfg.code, s.assembled[id][full.sid := shard.value], d);
    }
  }

  /** The stored shards that this peer is known to have, and so takes itself. */
  function Local(cfg: Config, stored: map<Sid, Bytes>, known: map<Sid, PeerId>): map<Sid, Bytes> {
    map sid | sid in stored && sid in known && known[sid] == cfg.localId :: stored[sid]
  }

  lemma {:induction false} AskedAgrees(cfg: Config, s: State, of: Vid, known: map<Sid, PeerId>,
        order: seq<Sid>, id: Vid, d: Bytes)
    requires cfg.Valid() && cfg.code.IsData(d) && Agrees(cfg.code, At(s.assembled, id), d)
    requires of == id ==> Agrees(cfg.code, Local(cfg, At(s.localStorage, id), known), d)
    ensures Asked(cfg, s, of, known, order).state.localStorage == s.localStorage
    ensures Agrees(cfg.code, At(Asked(cfg, s, of, known, order).state.assembled, id), d)
    ensures AnswersAre(Asked(cfg, s, of, known, order).actions, id, d)
  {
    if order != [] {
      var rest := order[..|order| - 1];
      var full := Full(of, order[|order| - 1]);
      AskedAgrees(cfg, s, of, known, rest, id, d);
      var before := Asked(cfg, s, of, known, rest);
      if full.sid in known && known[full.sid] == cfg.localId {
        CollectedAgrees(cfg, before.state, full, Get(before.state.localStorage, full), id, d);
      }
    }
  }

  /** The shards of `id` that one event brings into the session agree with `d`. */
  ghost predicate Delivers(cfg: Config, s: State, ev: InEvent, id: Vid, d: Bytes)
    requires cfg.code.IsData(d)
  {
    && (ev.AssignedShard? && ev.full.id == id && ev.shard.Some? && ev.full.sid < cfg.code.Total() ==>
          ev.shard.value == cfg.code.ShardOf(ev.full.sid, d))
    && (ev.RecollectRequest? && ev.id == id ==>
          Agrees(cfg.code, Local(cfg, At(s.localStorage, id), At(s.locations, id)), d))
  }

  ghost predicate AllDeliver(cfg: Config, s: State, events: seq<InEvent>, id: Vid, d: Bytes)
    requires cfg.Valid() && cfg.code.IsData(d) && AllFit(cfg, events)
  {
    forall i :: 0 <= i < |events| ==> Delivers(cfg, Run(cfg, s, events[..i]).state, events[i], id, d)
  }

  lemma StepAgrees(cfg: Config, s: State, ev: InEvent, id: Vid, d: Bytes)
    requires cfg.Valid() && Fits(cfg, ev) && cfg.code.IsData(d)
    requires Agrees(cfg.code, At(s.assembled, id), d) && Delivers(cfg, s, ev, id, d)
    ensures Agrees(cfg.code, At(Step(cfg, s, ev).state.assembled, id), d)
    ensures AnswersAre(Step(cfg, s, ev).actions, id, d)
  {
    if s.stopped {
    } else if ev.AssignedShard? {
      CollectedAgrees(cfg, s, ev.full, ev.shard, id, d);
    } else if ev.RecollectRequest? {
      RecollectedAgrees(cfg, s, ev.id, ev.order, id, d);
    } else {
      StepKeepsSessions(cfg, s, ev);
      StepAnswersNothing(cfg, s, ev, id);
    }
  }

  lemma RecollectedAgrees(cfg: Config, s: State, of: Vid, order: seq<Sid>, id: Vid, d: Bytes)
    requires cfg.Valid() && cfg.code.IsData(d) && Agrees(cfg.code, At(s.assembled, id), d)
    requires of == id ==> Agrees(cfg.code, Local(cfg, At(s.localStorage, id), At(s.locations, id)), d)
    ensures Agrees(cfg.code, At(Recollected(cfg, s, of, order).state.assembled, id), d)
    ensures AnswersAre(Recollected(cfg, s, of, order).actions, id, d)
  {
    if of in s.locations && |s.locations[of]| >= K && of !in s.assembled {
      AskedAgrees(cfg, s.(assembled := s.assembled[of := map[]]), of, s.locations[of], order, id, d);
    }
  }

  /**
   If every shard delivered for `id` belongs to the encoding of `d`, then in every run, whatever
   the order of arrivals, duplicates, missing replies and mix of local and remote shards, a
   successful response for `id` is `d`.
   */
  lemma {:induction false} RecollectionCorrect(cfg: Config, s: State, events: seq<InEvent>, id: Vid, d: Bytes)
    requires cfg.Valid() && AllFit(cfg, events) && cfg.code.IsData(d)
    requires Agrees(cfg.code, At(s.assembled, id), d) && AllDeliver(cfg, s, events, id, d)
    ensures Agrees(cfg.code, At(Run(cfg, s, events).state.assembled, id), d)
    ensures AnswersAre(Run(cfg, s, events).actions, id, d)
  {
    if events != [] {
      var n := |events| - 1;
      forall i | 0 <= i < n
        ensures Delivers(cfg, Run(cfg, s, events[..n][..i]).state, events[..n][i], id, d)
      {
        assert events[..n][..i] == events[..i];
      }
      RecollectionCorrect(cfg, s, events[..n], id, d);
      StepAgrees(cfg, Run(cfg, s, events[..n]).state, events[n], id, d);
    }
  }

  /** A shard that makes up the number, from one encoding with the others, brings the answer and ends the session. */
  lemma LastShardAnswers(cfg: Config, s: State, full: FullShardId, d: Bytes)
    requires cfg.Valid() && cfg.code.IsData(d) && full.sid < cfg.code.Total()
    requires full.id in s.assembled && full.sid !in s.assembled[full.id] && |s.assembled[full.id]| == K - 1
    requires cfg.code.ValidIds(s.assembled[full.id]) && Agrees(cfg.code, s.assembled[full.id], d)
    ensures var e := Collected(cfg, s, full, Some(cfg.code.ShardOf(full.sid, d)));
      && full.id !in e.state.assembled
      && |e.actions| == 2 && e.actions[1] == Emit(RecollectResponse(Ok((full.id, d))))
  {
    var received: map<Sid, Bytes> := s.assembled[full.id][full.sid := cfg.code.ShardOf(full.sid, d)];
    assert received.Keys == s.assembled[full.id].Keys + {full.sid};
    assert |received| == K;
    cfg.code.DecodeConsistent(received, d);
  }

  // ---------- where the shards of a session come from ----------

  /** Shard `sid` of `id` was in the session before, or has just been delivered, or was stored here. */
  predicate TakenFrom(s: State, ev: InEvent, id: Vid, sid: Sid, shard: Bytes) {
    || Get(s.assembled, Full(id, sid)) == Some(shard)
    || ev == AssignedShard(Full(id, sid), Some(shard))
    || (ev.RecollectRequest? && ev.id == id && Get(s.localStorage, Full(id, sid)) == Some(shard))
  }

  ghost predicate AllFrom(s: State, ev: InEvent, id: Vid, shards: map<Sid, Bytes>) {
    forall sid :: sid in shards ==> TakenFrom(s, ev, id, sid, shards[sid])
  }

  ghost predicate SessionFrom(s: State, ev: InEvent, assembled: Nested<Bytes>) {
    forall id :: id in assembled ==> AllFrom(s, ev, id, assembled[id])
  }

  ghost predicate DecodingsFrom(s: State, ev: InEvent, log: Log) {
    forall i :: 0 <= i < |log| && log[i].Decoding? ==> AllFrom(s, ev, log[i].id, log[i].shards)
  }

  lemma InsertedFrom(s: State, ev: InEvent, full: FullShardId, shards: map<Sid, Bytes>, shard: Bytes)
    requires AllFrom(s, ev, full.id, shards) && TakenFrom(s, ev, full.id, full.sid, shard)
    ensures AllFrom(s, ev, full.id, shards[full.sid := shard])
  {
  }

  lemma CollectedFrom(cfg: Config, s: State, ev: InEvent, now: State, full: FullShardId, shard: Option<Bytes>)
    requires cfg.Wide() && SessionFrom(s, ev, now.assembled)
    requires shard.Some? ==> TakenFrom(s, ev, full.id, full.sid, shard.value)
    ensures SessionFrom(s, ev, Collected(cfg, now, full, shard).state.assembled)
    ensures DecodingsFrom(s, ev, Collected(cfg, now, full, shard).actions)
  {
    if shard.Some? && full.id in now.assembled && full.sid !in now.assembled[full.id] {
      InsertedFrom(s, ev, full, now.assembled[full.id], shard.value);
      NewShardFrom(cfg, s, ev, now, full, shard.value);
    }
  }

  lemma NewShardFrom(cfg: Config, s: State, ev: InEvent, now: State, full: FullShardId, shard: Bytes)
    requires cfg.Wide() && SessionFrom(s, ev, now.assembled) && full.id in now.assembled && full.sid !in now.assembled[full.id]
    requires AllFrom(s, ev, full.id, now.assembled[full.id][full.sid := shard])
    ensures SessionFrom(s, ev, Collected(cfg, now, full, Some(shard)).state.assembled)
    ensures DecodingsFrom(s, ev, Collected(cfg, now, full, Some(shard)).actions)
  {
    var received: map<Sid, Bytes> := now.assembled[full.id][full.sid := shard];
    if |received| >= K {
      AnswerDecodesNothing(full.id, cfg.code.Decoded(received));
    }
  }

  lemma AnswerDecodesNothing(id: Vid, decoded: Result<Bytes, Error>)
    ensures forall i :: 0 <= i < |Answer(id, decoded)| ==> Answer(id, decoded)[i].Emit?
  {
  }

  lemma {:induction false} AskedFrom(cfg: Config, s: State, ev: InEvent, now: State, known: map<Sid, PeerId>, order: seq<Sid>)
    requires cfg.Wide() && ev.RecollectRequest?
    requires SessionFrom(s, ev, now.assembled) && now.localStorage == s.localStorage
    ensures SessionFrom(s, ev, Asked(cfg, now, ev.id, known, order).state.assembled)
    ensures DecodingsFrom(s, ev, Asked(cfg, now, ev.id, known, order).actions)
  {
    if order != [] {
      var rest := order[..|order| - 1];
      var full := Full(ev.id, order[|order| - 1]);
      AskedFrom(cfg, s, ev, now, known, rest);
      AskedKeeps(cfg, now, ev.id, known, rest);
      var before := Asked(cfg, now, ev.id, known, rest);
      if full.sid in known && known[full.sid] == cfg.localId {
        CollectedFrom(cfg, s, ev, before.state, full, Get(before.state.localStorage, full));
      }
    }
  }

  /** Nothing gets into a session, or to the decoder, that was not delivered for it or stored here. */
  lemma ShardsComeFrom(cfg: Config, s: State, ev: InEvent)
    requires cfg.Valid() && Fits(cfg, ev)
    ensures SessionFrom(s, ev, Step(cfg, s, ev).state.assembled)
    ensures DecodingsFrom(s, ev, Step(cfg, s, ev).actions)
  {
    if s.stopped {
    } else if ev.AssignedShard? {
      CollectedFrom(cfg, s, ev, s, ev.full, ev.shard);
    } else if ev.RecollectRequest? {
      if Starts(s, ev.id) {
        var open := s.(assembled := s.assembled[ev.id := map[]]);
        AskedFrom(cfg, s, ev, open, s.locations[ev.id], ev.order);
      }
    } else {
      StepKeepsSessions(cfg, s, ev);
      StepAnswersNothing(cfg, s, ev, 0);
    }
  }

  /** The shards that the phase names were given to the decoder, `K` of them. */
  lemma {:induction false} DecodedBefore(code: Code, log: Log, id: Vid) returns (j: nat)
    requires code.Valid() && Legal(code, Closed, log, id) && PhaseAfter(Closed, log, id).Done?
    ensures j < |log| && log[j] == Decoding(id, PhaseAfter(Closed, log, id).shards)
    ensures |PhaseAfter(Closed, log, id).shards| == K
  {
    var n := |log| - 1;
    LegalPrefix(code, log, id, n);
    if log[n].Decoding? && log[n].id == id {
      j := n;
      LegalAt(code, Closed, log, id, n);
    } else {
      j := DecodedBefore(code, log[..n], id);
    }
  }

  lemma LegalPrefix(code: Code, log: Log, id: Vid, n: nat)
    requires code.Valid() && n <= |log| && Legal(code, Closed, log, id)
    ensures Legal(code, Closed, log[..n], id)
  {
    forall i | 0 <= i < n
      ensures Allowed(code, PhaseAfter(Closed, log[..n][..i], id), log[..n][i], id)
    {
      assert log[..n][..i] == log[..i];
    }
  }
}
