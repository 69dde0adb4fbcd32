/**
 The whole computer.  Every peer stores its shard of each data value and runs programs on it; the
 machine below steps any number of peers independently.  Each peer has its own history: nothing
 here makes the peers see puts and programs in one order, and a put may be stored long after
 programs that were agreed on later.  Fresh data is handed out by the peer that put it.
 */
module EndToEnd {
  import opened Types
  import opened ReedSolomon
  import opened Instructions
  import opened Processor
  import opened CodedComputation
  import opened Histories
  import opened Recollection
  import Distribution
  import MemoryBus
  import D = DataMemory

  datatype Setup = Setup(code: Code, distribution: map<PeerId, Sid>) {
    ghost predicate Valid() {
      code.Valid() && D.VerifyDistribution(code, distribution)
    }

    function Of(peer: PeerId): D.Config {
      D.Config(code, peer, distribution)
    }

    lemma ShardInRange(peer: PeerId)
      requires Valid() && peer in distribution
      ensures distribution[peer] < code.Total()
    {
      assert distribution[peer] in distribution.Values;
    }
  }

  /**
   `history` is what the peer has carried out, the last program having left `writes` to apply;
   `putting` is the data it last put itself under each id.
   */
  datatype Node = Node(memory: D.State, writes: Writes, history: History, putting: map<Vid, Bytes>, log: D.Log)

  /** A shard of fresh data handed out by the peer that put it, and that data. */
  datatype Served = Served(full: D.FullShardId, shard: Bytes, data: Bytes)

  /** A stored shard sent in answer to a request, and the history it reflects. */
  datatype Reply = Reply(full: D.FullShardId, shard: Bytes, after: History)

  /** The peers, and all that was ever sent: messages may be late, repeated or lost. */
  datatype Cluster = Cluster(nodes: map<PeerId, Node>, served: set<Served>, replies: set<Reply>)

  datatype Step =
    /** the user of `peer` puts data, which is encoded and handed out from now on */
    | PutData(peer: PeerId, id: Vid, data: Bytes)
    /** `peer` is asked for a shard of fresh data */
    | Serve(peer: PeerId, full: D.FullShardId)
    /** `peer` finds its own storage request and takes its shard from what it hands out */
    | StoreOwn(peer: PeerId, id: Vid)
    /** a shard of fresh data arrives */
    | Store(peer: PeerId, served: Served)
    /** a program runs, and its context is queued in some order */
    | RunProgram(peer: PeerId, program: Program, writes: Writes)
    /** the data memory takes a write from the bus */
    | Drain(peer: PeerId)
    /** a shard asked for by another peer is looked up and sent */
    | Answer(peer: PeerId, full: D.FullShardId)
    /** a shard sent at any time before arrives */
    | Deliver(peer: PeerId, reply: Reply)
    /** any event that stores no shard and brings none */
    | Other(peer: PeerId, event: D.InEvent)

  predicate Harmless(peer: PeerId, ev: D.InEvent) {
    && !ev.ServedShard? && !ev.BusWrite? && !ev.PrepareService?
    && !(ev.StorageRequestTx? && ev.author == peer) && !(ev.AssignedShard? && ev.shard.Some?)
  }

  /** The data memory runs and the bus is drained. */
  predicate Idle(node: Node) {
    !node.memory.stopped && node.writes == []
  }

  /** What a step asks of the peer that takes it. */
  ghost predicate Able(setup: Setup, node: Node, step: Step) {
    match step
    case PutData(_, _, data) => !node.memory.stopped && setup.code.IsData(data)
    case StoreOwn(_, _) => Idle(node)
    case Store(peer, served) =>
      Idle(node) && peer in setup.distribution && served.full.sid == setup.distribution[peer]
    case RunProgram(peer, program, writes) =>
      && Idle(node)
      && Enumerates(writes, WriteBack(program, D.OwnShards(setup.Of(peer), node.memory)).context)
    case Drain(_) => !node.memory.stopped && node.writes != []
    case Other(peer, ev) => Harmless(peer, ev)
    case _ => true
  }

  ghost predicate Enabled(setup: Setup, c: Cluster, step: Step) {
    && step.peer in c.nodes
    && Able(setup, c.nodes[step.peer], step)
    && (step.Store? ==> step.served in c.served)
    && (step.Deliver? ==> step.reply in c.replies)
  }

  /** The event by which a step reaches the data memory. */
  function EventOf(node: Node, step: Step): D.InEvent
    requires !step.RunProgram? && (step.Drain? ==> node.writes != [])
  {
    match step
    case PutData(_, id, data) => D.PrepareService(id, data)
    case Serve(_, full) => D.ServeRequested(full)
    case StoreOwn(peer, id) => D.StorageRequestTx(id, peer)
    case Store(_, served) => D.ServedShard(served.full, Some(served.shard))
    case Drain(_) => D.BusWrite(node.writes[0].0, node.writes[0].1)
    case Answer(_, full) => D.AssignedRequested(full)
    case Deliver(_, reply) => D.AssignedShard(reply.full, Some(reply.shard))
    case Other(_, ev) => ev
  }

  /** The command a step completes. */
  function Completes(setup: Setup, node: Node, step: Step): History {
    match step
    case RunProgram(_, program, _) => [Execute(program)]
    case Store(_, served) => [Put(served.full.id, served.data)]
    case StoreOwn(peer, id) =>
      if peer in setup.distribution && id in node.putting
        && D.Get(node.memory.toDistribute, D.Full(id, setup.distribution[peer])).Some?
      then [Put(id, node.putting[id])] else []
    case _ => []
  }

  function WritesAfter(node: Node, step: Step): Writes
    requires step.Drain? ==> node.writes != []
  {
    if step.RunProgram? then step.writes else if step.Drain? then node.writes[1..] else node.writes
  }

  function Handled(setup: Setup, node: Node, step: Step): D.Effect
    requires setup.code.Valid() && !step.RunProgram? && (step.Drain? ==> node.writes != [])
    requires step.PutData? ==> setup.code.IsData(step.data)
    requires step.Other? ==> !step.event.PrepareService?
  {
    D.Step(setup.Of(step.peer), node.memory, EventOf(node, step))
  }

  ghost function NextNode(setup: Setup, node: Node, step: Step): Node
    requires setup.code.Valid() && Able(setup, node, step)
  {
    var e := if step.RunProgram? then D.Effect(node.memory, []) else Handled(setup, node, step);
    Node(e.state, WritesAfter(node, step), node.history + Completes(setup, node, step),
         if step.PutData? then node.putting[step.id := step.data] else node.putting, node.log + e.actions)
  }

  /** The history that the stored shard of `id` reflects: the last program's write of it may be queued. */
  function Reflected(node: Node, id: Vid): History {
    if id in WrittenIds(node.writes) && node.history != [] then node.history[..|node.history| - 1] else node.history
  }

  /** What is sent when the data memory answers. */
  function Sent(node: Node, actions: D.Log): set<Reply> {
    if |actions| == 1 && actions[0].Emit? && actions[0].out.AssignedResponse? && actions[0].out.shard.Some? then
      {Reply(actions[0].out.full, actions[0].out.shard.value, Reflected(node, actions[0].out.full.id))}
    else
      {}
  }

  function HandedOut(node: Node, actions: D.Log): set<Served> {
    if |actions| == 1 && actions[0].Emit? && actions[0].out.ServeShardResponse? && actions[0].out.shard.Some?
      && actions[0].out.full.id in node.putting
    then
      {Served(actions[0].out.full, actions[0].out.shard.value, node.putting[actions[0].out.full.id])}
    else
      {}
  }

  ghost function Next(setup: Setup, c: Cluster, step: Step): Cluster
    requires setup.code.Valid() && Enabled(setup, c, step)
  {
    var node := c.nodes[step.peer];
    Cluster(
      c.nodes[step.peer := NextNode(setup, node, step)],
      c.served + (if step.Serve? then HandedOut(node, Handled(setup, node, step).actions) else {}),
      c.replies + (if step.Answer? then Sent(node, Handled(setup, node, step).actions) else {}))
  }

  // ---------- what every peer keeps ----------

  /** `shard` is shard `sid` of `id` after the history. */
  ghost predicate ShardIs(code: Code, h: History, sid: Sid, id: Vid, shard: Bytes) {
    sid < code.Total() && AllFitting(code, h) && Lookup(Held(code, h, sid), id) == Some(shard)
  }

  /** What is still queued has not been stored yet, each id once. */
  ghost predicate Behind(setup: Setup, peer: PeerId, node: Node)
    requires setup.Valid() && peer in setup.distribution
  {
    setup.ShardInRange(peer);
    && node.history != [] && |WrittenIds(node.writes)| == |node.writes|
    && AllFitting(setup.code, node.history[..|node.history| - 1])
    && AgreeOn(D.OwnShards(setup.Of(peer), node.memory),
               Held(setup.code, node.history[..|node.history| - 1], setup.distribution[peer]), WrittenIds(node.writes))
  }

  /** Once the queue is applied, the peer's shards are its row of the encoded outcome of its history. */
  ghost predicate HoldsRow(setup: Setup, peer: PeerId, node: Node)
    requires setup.Valid() && peer in setup.distribution
  {
    setup.ShardInRange(peer);
    && AllFitting(setup.code, node.history)
    && D.OwnOnly(setup.Of(peer), node.memory)
    && ApplyWrites(D.OwnShards(setup.Of(peer), node.memory), node.writes) ==
      Held(setup.code, node.history, setup.distribution[peer])
    && (node.writes != [] ==> Behind(setup, peer, node))
  }

  /** Whatever the peer hands out belongs to the data it last put. */
  ghost predicate HandsOutOwn(setup: Setup, peer: PeerId, node: Node) {
    forall id :: Distribution.HandsOut(setup.Of(peer), node.memory, id, Lookup(node.putting, id))
  }

  /** Sessions are as `Recollection.Sessions` says. */
  ghost predicate InSession(setup: Setup, node: Node)
    requires setup.code.Valid()
  {
    && Pending(node.memory)
    && (forall id :: Legal(setup.code, Closed, node.log, id))
    && (forall id :: PhaseAfter(Closed, node.log, id) == Open <==> id in node.memory.assembled)
  }

  ghost predicate NodeKeeps(setup: Setup, peer: PeerId, node: Node)
    requires setup.Valid() && peer in setup.distribution
  {
    HoldsRow(setup, peer, node) && HandsOutOwn(setup, peer, node) && InSession(setup, node)
  }

  /** `h` is how far the peer with shard `sid` had come at some time. */
  predicate PastOf(setup: Setup, c: Cluster, peer: PeerId, sid: Sid, h: History) {
    peer in c.nodes && peer in setup.distribution && setup.distribution[peer] == sid && h <= c.nodes[peer].history
  }

  /** At some time some peer had this shard. */
  ghost predicate Backed(setup: Setup, c: Cluster, id: Vid, sid: Sid, shard: Bytes) {
    exists peer, h :: PastOf(setup, c, peer, sid, h) && ShardIs(setup.code, h, sid, id, shard)
  }

  ghost predicate AllBacked(setup: Setup, c: Cluster, id: Vid, shards: map<Sid, Bytes>) {
    forall sid :: sid in shards ==> Backed(setup, c, id, sid, shards[sid])
  }

  /** Shards being collected, and shards given to the decoder, were all held by their peers. */
  ghost predicate Sourced(setup: Setup, c: Cluster, node: Node) {
    && (forall id :: id in node.memory.assembled ==> AllBacked(setup, c, id, node.memory.assembled[id]))
    && (forall i :: 0 <= i < |node.log| && node.log[i].Decoding? ==> AllBacked(setup, c, node.log[i].id, node.log[i].shards))
  }

  ghost predicate Truthful(setup: Setup, c: Cluster, reply: Reply) {
    && ShardIs(setup.code, reply.after, reply.full.sid, reply.full.id, reply.shard)
    && exists peer :: PastOf(setup, c, peer, reply.full.sid, reply.after)
  }

  ghost predicate Genuine(setup: Setup, served: Served) {
    && setup.code.IsData(served.data) && served.full.sid < setup.code.Total()
    && served.shard == setup.code.ShardOf(served.full.sid, served.data)
  }

  ghost predicate Kept(setup: Setup, c: Cluster, peer: PeerId)
    requires setup.Valid()
  {
    peer in c.nodes && peer in setup.distribution && NodeKeeps(setup, peer, c.nodes[peer]) && Sourced(setup, c, c.nodes[peer])
  }

  ghost predicate MessagesTrue(setup: Setup, c: Cluster) {
    && (forall reply :: reply in c.replies ==> Truthful(setup, c, reply))
    && (forall served :: served in c.served ==> Genuine(setup, served))
  }

  ghost predicate Invariant(setup: Setup, c: Cluster) {
    && setup.Valid()
    && c.nodes.Keys == setup.distribution.Keys
    && (forall peer :: peer in c.nodes ==> Kept(setup, c, peer))
    && MessagesTrue(setup, c)
  }

  // ---------- one peer ----------

  /** Steps that change neither the stored shards nor the history. */
  predicate StoresNothing(step: Step) {
    step.PutData? || step.Serve? || step.Answer? || step.Deliver? || step.Other?
  }

  lemma StorageKept(cfg: D.Config, s: D.State, ev: D.InEvent)
    requires cfg.Wide() && D.Fits(cfg, ev)
    requires !ev.ServedShard? && !ev.BusWrite? && !(ev.StorageRequestTx? && ev.author == cfg.localId)
    ensures D.Step(cfg, s, ev).state.localStorage == s.localStorage
  {
    if ev.RecollectRequest? {
      D.RecollectedKeeps(cfg, s, ev.id, ev.order);
    } else if ev.StorageRequestTx? || ev.StoreConfirmed? || ev.PeerShardsActualized? {
      SpreadKeepsStorage(cfg, s, ev);
    }
  }

  lemma SpreadKeepsStorage(cfg: D.Config, s: D.State, ev: D.InEvent)
    requires cfg.Wide() && !(ev.StorageRequestTx? && ev.author == cfg.localId)
    requires ev.StorageRequestTx? || ev.StoreConfirmed? || ev.PeerShardsActualized?
    ensures D.Step(cfg, s, ev).state.localStorage == s.localStorage
  {
    if ev.StoreConfirmed? {
      ConfirmingKeepsStorage(cfg, s, ev.full, ev.location);
    }
  }

  lemma ConfirmingKeepsStorage(cfg: D.Config, s: D.State, full: D.FullShardId, location: PeerId)
    ensures D.Confirmed(cfg, s, full, location).state.localStorage == s.localStorage
  {
  }

  lemma QuietHolds(setup: Setup, node: Node, step: Step)
    requires setup.Valid() && step.peer in setup.distribution && Able(setup, node, step) && StoresNothing(step)
    requires HoldsRow(setup, step.peer, node)
    ensures HoldsRow(setup, step.peer, NextNode(setup, node, step))
  {
    QuietIs(setup, node, step);
    SameRow(setup, step.peer, node, NextNode(setup, node, step));
  }

  lemma QuietIs(setup: Setup, node: Node, step: Step)
    requires setup.Valid() && Able(setup, node, step) && StoresNothing(step)
    ensures var after := NextNode(setup, node, step);
      after.memory.localStorage == node.memory.localStorage && after.writes == node.writes && after.history == node.history
  {
    StorageKept(setup.Of(step.peer), node.memory, EventOf(node, step));
    assert node.history + [] == node.history;
  }

  lemma SameRow(setup: Setup, peer: PeerId, node: Node, after: Node)
    requires setup.Valid() && peer in setup.distribution && HoldsRow(setup, peer, node)
    requires after.memory.localStorage == node.memory.localStorage && after.writes == node.writes
    requires after.history == node.history
    ensures HoldsRow(setup, peer, after)
  {
    assert D.OwnShards(setup.Of(peer), after.memory) == D.OwnShards(setup.Of(peer), node.memory);
  }

  lemma ApplyFirst(mem: Memory, writes: Writes)
    requires writes != []
    ensures ApplyWrites(mem, writes) == ApplyWrites(mem[writes[0].0 := writes[0].1], writes[1..])
    ensures WrittenIds(writes) == {writes[0].0} + WrittenIds(writes[1..])
  {
    var first: Writes := [writes[0]];
    assert writes == first + writes[1..];
    assert first[..0] == [];
    ApplyAppend(mem, first, writes[1..]);
    WrittenAppend(first, writes[1..]);
  }

  lemma {:induction false} WrittenAppend(a: Writes, b: Writes)
    ensures WrittenIds(a + b) == WrittenIds(a) + WrittenIds(b)
    ensures |WrittenIds(b)| <= |b|
  {
    if b == [] {
      assert a + b == a;
    } else {
      assert (a + b)[..|a + b| - 1] == a + b[..|b| - 1];
      WrittenAppend(a, b[..|b| - 1]);
    }
  }

  lemma QueueShrinks(writes: Writes)
    requires writes != [] && |WrittenIds(writes)| == |writes|
    ensures writes[0].0 !in WrittenIds(writes[1..]) && |WrittenIds(writes[1..])| == |writes[1..]|
  {
    ApplyFirst(map[], writes);
    WrittenAppend([], writes[1..]);
    UnionSize(WrittenIds(writes[1..]), writes[0].0);
  }

  lemma UnionSize(ids: set<Vid>, id: Vid)
    ensures |{id} + ids| == if id in ids then |ids| else |ids| + 1
  {
    if id in ids {
      assert {id} + ids == ids;
    }
  }

  lemma DrainedRow(setup: Setup, peer: PeerId, node: Node, after: Node)
    requires setup.Valid() && peer in setup.distribution && HoldsRow(setup, peer, node) && node.writes != []
    requires after.writes == node.writes[1..] && after.history == node.history
    requires D.OwnOnly(setup.Of(peer), after.memory)
    requires D.OwnShards(setup.Of(peer), after.memory) ==
      D.OwnShards(setup.Of(peer), node.memory)[node.writes[0].0 := node.writes[0].1]
    ensures HoldsRow(setup, peer, after)
  {
    ApplyFirst(D.OwnShards(setup.Of(peer), node.memory), node.writes);
    QueueShrinks(node.writes);
  }

  lemma DrainHolds(setup: Setup, node: Node, step: Step)
    requires setup.Valid() && step.peer in setup.distribution && Able(setup, node, step) && step.Drain?
    requires HoldsRow(setup, step.peer, node)
    ensures HoldsRow(setup, step.peer, NextNode(setup, node, step))
  {
    MemoryBus.WrittenOwn(setup.Of(step.peer), node.memory, node.writes[0].0, node.writes[0].1);
    DrainIs(setup, node, step.peer);
    DrainedRow(setup, step.peer, node, NextNode(setup, node, step));
  }

  lemma DrainIs(setup: Setup, node: Node, peer: PeerId)
    requires setup.code.Valid() && Able(setup, node, Drain(peer))
    ensures NextNode(setup, node, Drain(peer)) ==
      node.(memory := D.Written(setup.Of(peer), node.memory, node.writes[0].0, node.writes[0].1).state,
        writes := node.writes[1..])
  {
    assert node.history + [] == node.history && node.log + [] == node.log;
  }

  lemma RunHolds(setup: Setup, node: Node, step: Step)
    requires setup.Valid() && step.peer in setup.distribution && Able(setup, node, step) && step.RunProgram?
    requires HoldsRow(setup, step.peer, node)
    ensures HoldsRow(setup, step.peer, NextNode(setup, node, step))
  {
    setup.ShardInRange(step.peer);
    var sid, after := setup.distribution[step.peer], NextNode(setup, node, step);
    HeldOneMore(setup.code, node.history, sid, Execute(step.program));
    CacheRefinement(step.program, Held(setup.code, node.history, sid), step.writes);
    assert after.history[..|after.history| - 1] == node.history;
    assert D.OwnShards(setup.Of(step.peer), node.memory) == Held(setup.code, node.history, sid);
  }

  lemma StoredOwn(cfg: D.Config, s: D.State, id: Vid, shard: Bytes)
    requires cfg.Valid() && cfg.Assigned().Some? && D.OwnOnly(cfg, s)
    ensures var s' := D.Stored(s, D.Full(id, cfg.Assigned().value), Some(shard)).state;
      D.OwnOnly(cfg, s') && D.OwnShards(cfg, s') == D.OwnShards(cfg, s)[id := shard]
  {
    MemoryBus.WrittenOwn(cfg, s, id, shard);
  }

  lemma StoreHolds(setup: Setup, node: Node, step: Step)
    requires setup.Valid() && step.peer in setup.distribution && Able(setup, node, step) && step.Store?
    requires HoldsRow(setup, step.peer, node) && Genuine(setup, step.served)
    ensures HoldsRow(setup, step.peer, NextNode(setup, node, step))
  {
    var served := step.served;
    HeldOneMore(setup.code, node.history, served.full.sid, Put(served.full.id, served.data));
    StoredOwn(setup.Of(step.peer), node.memory, served.full.id, served.shard);
  }

  lemma StoreOwnHolds(setup: Setup, node: Node, step: Step)
    requires setup.Valid() && step.peer in setup.distribution && Able(setup, node, step) && step.StoreOwn?
    requires HoldsRow(setup, step.peer, node) && HandsOutOwn(setup, step.peer, node)
    ensures HoldsRow(setup, step.peer, NextNode(setup, node, step))
  {
    var cfg, sid := setup.Of(step.peer), setup.distribution[step.peer];
    setup.ShardInRange(step.peer);
    var found := D.Get(node.memory.toDistribute, D.Full(step.id, sid));
    assert Distribution.HandsOut(cfg, node.memory, step.id, Lookup(node.putting, step.id));
    if found.Some? {
      assert sid in D.At(node.memory.toDistribute, step.id);
      HeldOneMore(setup.code, node.history, sid, Put(step.id, node.putting[step.id]));
      StoredOwn(cfg, node.memory, step.id, found.value);
    } else {
      assert node.history + [] == node.history;
    }
  }

  lemma StepHolds(setup: Setup, node: Node, step: Step)
    requires setup.Valid() && step.peer in setup.distribution && Able(setup, node, step)
    requires HoldsRow(setup, step.peer, node) && HandsOutOwn(setup, step.peer, node)
    requires step.Store? ==> Genuine(setup, step.served)
    ensures HoldsRow(setup, step.peer, NextNode(setup, node, step))
  {
    match step
    case Store(_, _) => StoreHolds(setup, node, step);
    case StoreOwn(_, _) => StoreOwnHolds(setup, node, step);
    case RunProgram(_, _, _) => RunHolds(setup, node, step);
    case Drain(_) => DrainHolds(setup, node, step);
    case _ => QuietHolds(setup, node, step);
  }

  lemma StepHandsOut(setup: Setup, node: Node, step: Step)
    requires setup.Valid() && Able(setup, node, step) && HandsOutOwn(setup, step.peer, node)
    ensures HandsOutOwn(setup, step.peer, NextNode(setup, node, step))
  {
    var cfg, after := setup.Of(step.peer), NextNode(setup, node, step);
    forall id
      ensures Distribution.HandsOut(cfg, after.memory, id, Lookup(after.putting, id))
    {
      assert Distribution.HandsOut(cfg, node.memory, id, Lookup(node.putting, id));
      if !step.RunProgram? && !node.memory.stopped {
        Distribution.StepHandsOut(cfg, node.memory, EventOf(node, step), id, Lookup(node.putting, id));
      }
    }
  }

  lemma StepInSession(setup: Setup, node: Node, step: Step)
    requires setup.Valid() && Able(setup, node, step) && InSession(setup, node)
    ensures InSession(setup, NextNode(setup, node, step))
  {
    if step.RunProgram? {
      assert node.log + [] == node.log;
    } else {
      var cfg, ev := setup.Of(step.peer), EventOf(node, step);
      var e := D.Step(cfg, node.memory, ev);
      StepMoves(cfg, node.memory, ev, 0);
      forall id
        ensures Legal(setup.code, Closed, node.log + e.actions, id)
        ensures PhaseAfter(Closed, node.log + e.actions, id) == Open <==> id in e.state.assembled
      {
        StepMoves(cfg, node.memory, ev, id);
        assert Legal(setup.code, Closed, node.log, id);
        LegalAppend(setup.code, Closed, node.log, e.actions, id);
        PhaseAppend(Closed, node.log, e.actions, id);
      }
    }
  }

  // ---------- all peers together ----------

  lemma HistoryGrows(setup: Setup, c: Cluster, step: Step, peer: PeerId, sid: Sid, h: History)
    requires setup.Valid() && Enabled(setup, c, step) && PastOf(setup, c, peer, sid, h)
    ensures PastOf(setup, Next(setup, c, step), peer, sid, h)
  {
  }

  lemma BackedStays(setup: Setup, c: Cluster, step: Step, id: Vid, sid: Sid, shard: Bytes)
    requires setup.Valid() && Enabled(setup, c, step) && Backed(setup, c, id, sid, shard)
    ensures Backed(setup, Next(setup, c, step), id, sid, shard)
  {
    var peer, h :| PastOf(setup, c, peer, sid, h) && ShardIs(setup.code, h, sid, id, shard);
    HistoryGrows(setup, c, step, peer, sid, h);
  }

  lemma TruthfulStays(setup: Setup, c: Cluster, step: Step, reply: Reply)
    requires setup.Valid() && Enabled(setup, c, step) && Truthful(setup, c, reply)
    ensures Truthful(setup, Next(setup, c, step), reply)
  {
    var peer :| PastOf(setup, c, peer, reply.full.sid, reply.after);
    HistoryGrows(setup, c, step, peer, reply.full.sid, reply.after);
  }

  /** A stored shard reflects the history that `Reflected` says. */
  lemma StoredReflects(setup: Setup, peer: PeerId, node: Node, full: D.FullShardId)
    requires setup.Valid() && peer in setup.distribution && HoldsRow(setup, peer, node)
    requires D.Get(node.memory.localStorage, full).Some?
    ensures setup.distribution[peer] == full.sid && Reflected(node, full.id) <= node.history
    ensures ShardIs(setup.code, Reflected(node, full.id), full.sid, full.id, D.Get(node.memory.localStorage, full).value)
  {
    var cfg, own := setup.Of(peer), D.OwnShards(setup.Of(peer), node.memory);
    setup.ShardInRange(peer);
    assert cfg.Assigned() == Some(full.sid);
    assert own[full.id] == D.Get(node.memory.localStorage, full).value;
    if full.id !in WrittenIds(node.writes) {
      ApplyElsewhere(own, node.writes, full.id);
    }
  }

  lemma {:induction false} ApplyElsewhere(mem: Memory, writes: Writes, id: Vid)
    requires id !in WrittenIds(writes)
    ensures Lookup(ApplyWrites(mem, writes), id) == Lookup(mem, id)
  {
    if writes != [] {
      ApplyElsewhere(mem, writes[..|writes| - 1], id);
    }
  }

  lemma OwnBacked(setup: Setup, c: Cluster, peer: PeerId, full: D.FullShardId)
    requires setup.Valid() && Kept(setup, c, peer)
    requires D.Get(c.nodes[peer].memory.localStorage, full).Some?
    ensures Backed(setup, c, full.id, full.sid, D.Get(c.nodes[peer].memory.localStorage, full).value)
  {
    StoredReflects(setup, peer, c.nodes[peer], full);
    assert PastOf(setup, c, peer, full.sid, Reflected(c.nodes[peer], full.id));
  }

  lemma TruthfulIsBacked(setup: Setup, c: Cluster, reply: Reply)
    requires Truthful(setup, c, reply)
    ensures Backed(setup, c, reply.full.id, reply.full.sid, reply.shard)
  {
    var peer :| PastOf(setup, c, peer, reply.full.sid, reply.after);
  }

  lemma CollectedIsBacked(setup: Setup, c: Cluster, node: Node, id: Vid, sid: Sid, shard: Bytes)
    requires Sourced(setup, c, node) && D.Get(node.memory.assembled, D.Full(id, sid)) == Some(shard)
    ensures Backed(setup, c, id, sid, shard)
  {
    assert AllBacked(setup, c, id, node.memory.assembled[id]);
  }

  lemma TakenBacked(setup: Setup, c: Cluster, step: Step, id: Vid, sid: Sid, shard: Bytes)
    requires setup.Valid() && Kept(setup, c, step.peer) && MessagesTrue(setup, c)
    requires Enabled(setup, c, step) && !step.RunProgram?
    requires TakenFrom(c.nodes[step.peer].memory, EventOf(c.nodes[step.peer], step), id, sid, shard)
    ensures Backed(setup, c, id, sid, shard)
  {
    var node := c.nodes[step.peer];
    if D.Get(node.memory.assembled, D.Full(id, sid)) == Some(shard) {
      CollectedIsBacked(setup, c, node, id, sid, shard);
    } else if step.Deliver? {
      assert Truthful(setup, c, step.reply);
      TruthfulIsBacked(setup, c, step.reply);
    } else {
      OwnBacked(setup, c, step.peer, D.Full(id, sid));
    }
  }

  lemma AllTakenBacked(setup: Setup, c: Cluster, step: Step, id: Vid, shards: map<Sid, Bytes>)
    requires Invariant(setup, c) && Enabled(setup, c, step) && !step.RunProgram?
    requires AllFrom(c.nodes[step.peer].memory, EventOf(c.nodes[step.peer], step), id, shards)
    ensures AllBacked(setup, Next(setup, c, step), id, shards)
  {
    assert Kept(setup, c, step.peer);
    forall sid | sid in shards
      ensures Backed(setup, Next(setup, c, step), id, sid, shards[sid])
    {
      TakenBacked(setup, c, step, id, sid, shards[sid]);
      BackedStays(setup, c, step, id, sid, shards[sid]);
    }
  }

  lemma SourcedStays(setup: Setup, c: Cluster, step: Step, node: Node)
    requires Invariant(setup, c) && Enabled(setup, c, step) && Sourced(setup, c, node)
    ensures Sourced(setup, Next(setup, c, step), node)
  {
    var c' := Next(setup, c, step);
    forall id | id in node.memory.assembled
      ensures AllBacked(setup, c', id, node.memory.assembled[id])
    {
      AllBackedStays(setup, c, step, id, node.memory.assembled[id]);
    }
    forall i | 0 <= i < |node.log| && node.log[i].Decoding?
      ensures AllBacked(setup, c', node.log[i].id, node.log[i].shards)
    {
      AllBackedStays(setup, c, step, node.log[i].id, node.log[i].shards);
    }
  }

  lemma AllBackedStays(setup: Setup, c: Cluster, step: Step, id: Vid, shards: map<Sid, Bytes>)
    requires setup.Valid() && Enabled(setup, c, step) && AllBacked(setup, c, id, shards)
    ensures AllBacked(setup, Next(setup, c, step), id, shards)
  {
    forall sid | sid in shards
      ensures Backed(setup, Next(setup, c, step), id, sid, shards[sid])
    {
      BackedStays(setup, c, step, id, sid, shards[sid]);
    }
  }

  lemma SessionSourced(setup: Setup, c: Cluster, step: Step, assembled: D.Nested<Bytes>)
    requires Invariant(setup, c) && Enabled(setup, c, step) && !step.RunProgram?
    requires SessionFrom(c.nodes[step.peer].memory, EventOf(c.nodes[step.peer], step), assembled)
    ensures forall id :: id in assembled ==> AllBacked(setup, Next(setup, c, step), id, assembled[id])
  {
    forall id | id in assembled
      ensures AllBacked(setup, Next(setup, c, step), id, assembled[id])
    {
      AllTakenBacked(setup, c, step, id, assembled[id]);
    }
  }

  lemma LogSourced(setup: Setup, c: Cluster, step: Step, log: D.Log)
    requires Invariant(setup, c) && Enabled(setup, c, step) && !step.RunProgram?
    requires DecodingsFrom(c.nodes[step.peer].memory, EventOf(c.nodes[step.peer], step), log)
    ensures forall i :: 0 <= i < |log| && log[i].Decoding? ==>
      AllBacked(setup, Next(setup, c, step), log[i].id, log[i].shards)
  {
    forall i | 0 <= i < |log| && log[i].Decoding?
      ensures AllBacked(setup, Next(setup, c, step), log[i].id, log[i].shards)
    {
      AllTakenBacked(setup, c, step, log[i].id, log[i].shards);
    }
  }

  /** The peer that takes the step. */
  lemma MoverSourced(setup: Setup, c: Cluster, step: Step)
    requires Invariant(setup, c) && Enabled(setup, c, step)
    ensures Sourced(setup, Next(setup, c, step), NextNode(setup, c.nodes[step.peer], step))
  {
    var node := c.nodes[step.peer];
    assert Kept(setup, c, step.peer);
    SourcedStays(setup, c, step, node);
    if step.RunProgram? {
      assert node.log + [] == node.log;
    } else {
      var e := D.Step(setup.Of(step.peer), node.memory, EventOf(node, step));
      ShardsComeFrom(setup.Of(step.peer), node.memory, EventOf(node, step));
      SessionSourced(setup, c, step, e.state.assembled);
      LogSourced(setup, c, step, e.actions);
      SourcedAppend(setup, Next(setup, c, step), node, e, NextNode(setup, node, step));
    }
  }

  lemma SourcedAppend(setup: Setup, c: Cluster, node: Node, e: D.Effect, after: Node)
    requires Sourced(setup, c, node) && after.memory == e.state && after.log == node.log + e.actions
    requires forall id :: id in e.state.assembled ==> AllBacked(setup, c, id, e.state.assembled[id])
    requires forall i :: 0 <= i < |e.actions| && e.actions[i].Decoding? ==>
      AllBacked(setup, c, e.actions[i].id, e.actions[i].shards)
    ensures Sourced(setup, c, after)
  {
    forall i | 0 <= i < |after.log| && after.log[i].Decoding?
      ensures AllBacked(setup, c, after.log[i].id, after.log[i].shards)
    {
      assert after.log[i] == if i < |node.log| then node.log[i] else e.actions[i - |node.log|];
    }
  }

  lemma SentIs(setup: Setup, node: Node, peer: PeerId, full: D.FullShardId, reply: Reply)
    requires setup.code.Valid() && reply in Sent(node, Handled(setup, node, Answer(peer, full)).actions)
    ensures D.Get(node.memory.localStorage, full).Some?
    ensures reply == Reply(full, D.Get(node.memory.localStorage, full).value, Reflected(node, full.id))
  {
  }

  lemma SentTruthful(setup: Setup, c: Cluster, step: Step, reply: Reply)
    requires Invariant(setup, c) && Enabled(setup, c, step) && step.Answer?
    requires reply in Sent(c.nodes[step.peer], Handled(setup, c.nodes[step.peer], step).actions)
    ensures Truthful(setup, c, reply)
  {
    var node := c.nodes[step.peer];
    SentIs(setup, node, step.peer, step.full, reply);
    assert Kept(setup, c, step.peer);
    StoredReflects(setup, step.peer, node, step.full);
    assert PastOf(setup, c, step.peer, step.full.sid, Reflected(node, step.full.id));
  }

  lemma HandedOutIs(setup: Setup, node: Node, peer: PeerId, full: D.FullShardId, served: Served)
    requires setup.code.Valid() && served in HandedOut(node, Handled(setup, node, Serve(peer, full)).actions)
    ensures full.id in node.putting && full.id in node.memory.toDistribute && full.sid in node.memory.toDistribute[full.id]
    ensures served == Served(full, node.memory.toDistribute[full.id][full.sid], node.putting[full.id])
  {
  }

  lemma HandedOutGenuine(setup: Setup, node: Node, peer: PeerId, full: D.FullShardId, served: Served)
    requires setup.Valid() && HandsOutOwn(setup, peer, node)
    requires served in HandedOut(node, Handled(setup, node, Serve(peer, full)).actions)
    ensures Genuine(setup, served)
  {
    HandedOutIs(setup, node, peer, full, served);
    assert Distribution.HandsOut(setup.Of(peer), node.memory, full.id, Lookup(node.putting, full.id));
    assert full.sid in D.At(node.memory.toDistribute, full.id);
  }

  lemma RepliesKeep(setup: Setup, c: Cluster, step: Step, reply: Reply)
    requires Invariant(setup, c) && Enabled(setup, c, step) && reply in Next(setup, c, step).replies
    ensures Truthful(setup, Next(setup, c, step), reply)
  {
    if reply !in c.replies {
      SentTruthful(setup, c, step, reply);
    }
    TruthfulStays(setup, c, step, reply);
  }

  lemma ServedKeep(setup: Setup, c: Cluster, step: Step, served: Served)
    requires Invariant(setup, c) && Enabled(setup, c, step) && served in Next(setup, c, step).served
    ensures Genuine(setup, served)
  {
    if served !in c.served {
      assert Kept(setup, c, step.peer) && step == Serve(step.peer, step.full);
      HandedOutGenuine(setup, c.nodes[step.peer], step.peer, step.full, served);
    }
  }

  lemma MessagesKeep(setup: Setup, c: Cluster, step: Step)
    requires Invariant(setup, c) && Enabled(setup, c, step)
    ensures MessagesTrue(setup, Next(setup, c, step))
  {
    var c' := Next(setup, c, step);
    forall reply | reply in c'.replies
      ensures Truthful(setup, c', reply)
    {
      RepliesKeep(setup, c, step, reply);
    }
    forall served | served in c'.served
      ensures Genuine(setup, served)
    {
      ServedKeep(setup, c, step, served);
    }
  }

  lemma MoverKeeps(setup: Setup, c: Cluster, step: Step)
    requires Invariant(setup, c) && Enabled(setup, c, step)
    ensures NodeKeeps(setup, step.peer, NextNode(setup, c.nodes[step.peer], step))
  {
    var node := c.nodes[step.peer];
    assert Kept(setup, c, step.peer);
    StepHolds(setup, node, step);
    StepHandsOut(setup, node, step);
    StepInSession(setup, node, step);
  }

  /** Only the peer that takes the step changes. */
  lemma NextAt(setup: Setup, c: Cluster, step: Step, peer: PeerId)
    requires setup.code.Valid() && Enabled(setup, c, step) && peer in c.nodes
    ensures peer in Next(setup, c, step).nodes
    ensures Next(setup, c, step).nodes[peer] ==
      if step.peer == peer then NextNode(setup, c.nodes[peer], step) else c.nodes[peer]
  {
  }

  lemma PeerKeeps(setup: Setup, c: Cluster, step: Step, peer: PeerId)
    requires Invariant(setup, c) && Enabled(setup, c, step) && peer in c.nodes
    ensures Kept(setup, Next(setup, c, step), peer)
  {
    NextAt(setup, c, step, peer);
    if peer == step.peer {
      MoverKeeps(setup, c, step);
      MoverSourced(setup, c, step);
    } else {
      assert Kept(setup, c, peer);
      SourcedStays(setup, c, step, c.nodes[peer]);
    }
  }

  lemma NextKeys(setup: Setup, c: Cluster, step: Step)
    requires setup.code.Valid() && Enabled(setup, c, step)
    ensures Next(setup, c, step).nodes.Keys == c.nodes.Keys
  {
  }

  /** Every step of every peer keeps the invariant. */
  lemma StepKeeps(setup: Setup, c: Cluster, step: Step)
    requires Invariant(setup, c) && Enabled(setup, c, step)
    ensures Invariant(setup, Next(setup, c, step))
  {
    MessagesKeep(setup, c, step);
    NextKeys(setup, c, step);
    forall peer | peer in c.nodes
      ensures Kept(setup, Next(setup, c, step), peer)
    {
      PeerKeeps(setup, c, step, peer);
    }
  }

  // ---------- runs ----------

  /** All steps in turn, if each is possible where it is taken. */
  ghost function RunFrom(setup: Setup, c: Cluster, steps: seq<Step>): Option<Cluster>
    requires setup.code.Valid()
  {
    if steps == [] then
      Some(c)
    else
      match RunFrom(setup, c, steps[..|steps| - 1])
      case None => None
      case Some(before) =>
        var last := steps[|steps| - 1];
        if Enabled(setup, before, last) then Some(Next(setup, before, last)) else None
  }

  lemma {:induction false} RunKeeps(setup: Setup, c: Cluster, steps: seq<Step>)
    requires Invariant(setup, c) && RunFrom(setup, c, steps).Some?
    ensures Invariant(setup, RunFrom(setup, c, steps).value)
  {
    if steps != [] {
      RunKeeps(setup, c, steps[..|steps| - 1]);
      StepKeeps(setup, RunFrom(setup, c, steps[..|steps| - 1]).value, steps[|steps| - 1]);
    }
  }

  function Start(setup: Setup): Cluster {
    var node := Node(D.INITIAL, [], [], map[], []);
    Cluster(map peer | peer in setup.distribution :: node, {}, {})
  }

  lemma StartKeeps(setup: Setup)
    requires setup.Valid()
    ensures Invariant(setup, Start(setup))
  {
  }

  /** Some run leads here. */
  ghost predicate Reached(setup: Setup, c: Cluster) {
    setup.Valid() && exists steps :: RunFrom(setup, Start(setup), steps) == Some(c)
  }

  lemma ReachedKeeps(setup: Setup, c: Cluster)
    requires Reached(setup, c)
    ensures Invariant(setup, c)
  {
    var steps :| RunFrom(setup, Start(setup), steps) == Some(c);
    StartKeeps(setup);
    RunKeeps(setup, Start(setup), steps);
  }

  /**
   In every run, a peer whose bus is drained stores exactly what its history makes it hold, and the
   bus reads that; if its shard supports all programs it has run, this is its row of the encoding
   of what the history amounts to.
   */
  lemma ShardsMatchHistory(setup: Setup, c: Cluster, peer: PeerId, id: Vid, r: Option<Bytes>)
    requires Reached(setup, c) && peer in setup.distribution
    ensures peer in c.nodes && setup.distribution[peer] < setup.code.Total() && AllFitting(setup.code, c.nodes[peer].history)
    ensures var node, sid := c.nodes[peer], setup.distribution[peer];
      node.writes == [] ==>
        && D.OwnShards(setup.Of(peer), node.memory) == Held(setup.code, node.history, sid)
        && (D.ReadAnswer(node.memory, id, r) <==> r == Lookup(Held(setup.code, node.history, sid), id))
    ensures var node, sid := c.nodes[peer], setup.distribution[peer];
      node.writes == [] && Supported(sid, node.history) ==>
        && IsDataMemory(setup.code, Outcome(node.history))
        && D.OwnShards(setup.Of(peer), node.memory) == EncodedMemory(setup.code, sid, Outcome(node.history))
  {
    ReachedKeeps(setup, c);
    assert Kept(setup, c, peer);
    setup.ShardInRange(peer);
    var node, sid := c.nodes[peer], setup.distribution[peer];
    OutcomeIsData(setup.code, node.history);
    D.ReadsOwnShard(setup.Of(peer), node.memory, id, r);
    if Supported(sid, node.history) {
      HeldIsRow(setup.code, node.history, sid);
    }
  }

  /**
   The same against the mock processor: a drained peer that has carried out `agreed`, in which no
   program meets a missing operand, stores its row of the encoding of the mock's memory, if its
   shard supports the programs: any if it is a data shard, and linear ones in any case.
   */
  lemma ShardsMatchMock(setup: Setup, c: Cluster, peer: PeerId, agreed: History)
    requires Reached(setup, c) && peer in setup.distribution && OperandsExist(agreed)
    requires Supported(setup.distribution[peer], agreed)
    ensures peer in c.nodes && setup.distribution[peer] < setup.code.Total()
    ensures c.nodes[peer].history == agreed && c.nodes[peer].writes == [] ==>
      && IsDataMemory(setup.code, MockState(agreed))
      && D.OwnShards(setup.Of(peer), c.nodes[peer].memory) ==
         EncodedMemory(setup.code, setup.distribution[peer], MockState(agreed))
  {
    ShardsMatchHistory(setup, c, peer, 0, None);
    MockIsOutcome(agreed);
  }

  /** With all five operations, the two peers that store the data shards keep their rows of the mock's memory. */
  lemma DataPeersMatchMock(setup: Setup, c: Cluster, peer: PeerId, agreed: History)
    requires Reached(setup, c) && peer in setup.distribution && setup.distribution[peer] < K && OperandsExist(agreed)
    ensures peer in c.nodes && setup.distribution[peer] < setup.code.Total()
    ensures c.nodes[peer].history == agreed && c.nodes[peer].writes == [] ==>
      && IsDataMemory(setup.code, MockState(agreed))
      && D.OwnShards(setup.Of(peer), c.nodes[peer].memory) ==
         EncodedMemory(setup.code, setup.distribution[peer], MockState(agreed))
  {
    SupportedIf(setup.distribution[peer], agreed);
    ShardsMatchMock(setup, c, peer, agreed);
  }
}
