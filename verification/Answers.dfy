/**
 What a collection of data returns, over whole runs of the machine of peers.  A response is decoded
 from `K` shards, each of which reflects the history its peer had when it sent it.
 */
module Answers {
  import opened Types
  import opened ReedSolomon
  import opened Processor
  import opened Histories
  import opened Recollection
  import opened EndToEnd
  import D = DataMemory
  import Distribution

  // ---------- shards held at the same point ----------

  /** Shard `sid` of `id` is held by a drained peer with history `h`. */
  ghost predicate HeldAt(setup: Setup, c: Cluster, h: History, id: Vid, sid: Sid, shard: Bytes) {
    exists peer :: PastOf(setup, c, peer, sid, h) && Holds(setup, c, peer, h, id, shard)
  }

  ghost predicate AllHeldAt(setup: Setup, c: Cluster, h: History, id: Vid, shards: map<Sid, Bytes>) {
    forall sid :: sid in shards ==> HeldAt(setup, c, h, id, sid, shards[sid])
  }

  ghost predicate Holds(setup: Setup, c: Cluster, peer: PeerId, h: History, id: Vid, shard: Bytes)
    requires peer in c.nodes
  {
    && c.nodes[peer].writes == [] && c.nodes[peer].history == h
    && Lookup(D.OwnShards(setup.Of(peer), c.nodes[peer].memory), id) == Some(shard)
  }

  lemma HeldIsShard(setup: Setup, c: Cluster, h: History, id: Vid, sid: Sid, shard: Bytes)
    requires Invariant(setup, c) && HeldAt(setup, c, h, id, sid, shard)
    ensures ShardIs(setup.code, h, sid, id, shard)
  {
    var peer :| PastOf(setup, c, peer, sid, h) && Holds(setup, c, peer, h, id, shard);
    assert EndToEnd.Kept(setup, c, peer);
    setup.ShardInRange(peer);
  }

  /**
   In every run, shards of an id from any `K` or more drained peers that have carried out the same
   commands, in which no operand was missing, decode to what the mock computed, if each shard
   supports the programs.  Data shards do, for all five operations.
   */
  lemma AnyPeersDecodeToMock(setup: Setup, c: Cluster, agreed: History, id: Vid, shards: map<Sid, Bytes>)
    requires Reached(setup, c) && OperandsExist(agreed) && K <= |shards|
    requires AllHeldAt(setup, c, agreed, id, shards) && forall sid :: sid in shards ==> Supported(sid, agreed)
    ensures id in MockState(agreed) && setup.code.Decoded(shards) == Ok(MockState(agreed)[id])
  {
    ReachedKeeps(setup, c);
    MockIsOutcome(agreed);
    assert shards.Keys != {};
    var some :| some in shards;
    HeldIsMock(setup, c, agreed, id, some, shards[some]);
    var d := Outcome(agreed)[id];
    forall sid | sid in shards
      ensures sid < setup.code.Total() && shards[sid] == setup.code.ShardOf(sid, d)
    {
      HeldIsMock(setup, c, agreed, id, sid, shards[sid]);
    }
    setup.code.DecodeConsistent(shards, d);
  }

  lemma HeldIsMock(setup: Setup, c: Cluster, h: History, id: Vid, sid: Sid, shard: Bytes)
    requires Invariant(setup, c) && HeldAt(setup, c, h, id, sid, shard) && Supported(sid, h)
    ensures sid < setup.code.Total() && id in Outcome(h) && setup.code.IsData(Outcome(h)[id])
    ensures shard == setup.code.ShardOf(sid, Outcome(h)[id])
  {
    HeldIsShard(setup, c, h, id, sid, shard);
    HeldIsRow(setup.code, h, sid);
    RowValue(setup.code, h, sid, id);
  }

  /** With all five operations, the two data shards decode to what the mock computed. */
  lemma DataPeersDecodeToMock(setup: Setup, c: Cluster, agreed: History, id: Vid, shards: map<Sid, Bytes>)
    requires Reached(setup, c) && OperandsExist(agreed) && shards.Keys == {0, 1}
    requires AllHeldAt(setup, c, agreed, id, shards)
    ensures id in MockState(agreed) && setup.code.Decoded(shards) == Ok(MockState(agreed)[id])
  {
    BothSupported(agreed, shards);
    AnyPeersDecodeToMock(setup, c, agreed, id, shards);
  }

  lemma BothSupported(h: History, shards: map<Sid, Bytes>)
    requires shards.Keys == {0, 1}
    ensures |shards| == K && forall sid :: sid in shards ==> Supported(sid, h)
  {
    SupportedIf(0, h);
    SupportedIf(1, h);
    assert |shards| == |shards.Keys|;
  }

  // ---------- every response, exactly ----------

  /** Each shard is that shard of `d`. */
  ghost predicate AreShardsOf(code: Code, shards: map<Sid, Bytes>, d: Bytes)
    requires code.IsData(d)
  {
    forall sid :: sid in shards ==> sid < code.Total() && shards[sid] == code.ShardOf(sid, d)
  }

  lemma DecodesExactly(code: Code, shards: map<Sid, Bytes>)
    requires code.Valid() && |shards| == K
    ensures forall d :: code.IsData(d) ==> (code.Decoded(shards) == Ok(d) <==> AreShardsOf(code, shards, d))
  {
    forall d | code.IsData(d)
      ensures code.Decoded(shards) == Ok(d) <==> AreShardsOf(code, shards, d)
    {
      code.DecodesToIff(shards, d);
    }
  }

  /**
   In every run, every response for `id` was decoded from `K` shards, each of which its peer had at
   some point of its history; and the response is `d`, for instance the mock's value at some point,
   if and only if each of these shards is that shard of `d`.
   */
  lemma ResponseIff(setup: Setup, c: Cluster, asker: PeerId, i: nat, id: Vid) returns (shards: map<Sid, Bytes>)
    requires Reached(setup, c) && asker in c.nodes
    requires i < |c.nodes[asker].log| && IsAnswer(c.nodes[asker].log[i], id)
    ensures |shards| == K && D.Decoding(id, shards) in c.nodes[asker].log[..i] && AllBacked(setup, c, id, shards)
    ensures forall d :: setup.code.IsData(d) ==>
      (c.nodes[asker].log[i].out.response.value.1 == d <==> AreShardsOf(setup.code, shards, d))
  {
    ReachedKeeps(setup, c);
    shards := ResponseFrom(setup, c, asker, i, id);
    DecodesExactly(setup.code, shards);
  }

  /** The shards behind a response. */
  lemma ResponseFrom(setup: Setup, c: Cluster, asker: PeerId, i: nat, id: Vid) returns (shards: map<Sid, Bytes>)
    requires Invariant(setup, c) && asker in c.nodes && i < |c.nodes[asker].log| && IsAnswer(c.nodes[asker].log[i], id)
    ensures |shards| == K && D.Decoding(id, shards) in c.nodes[asker].log[..i]
    ensures AllBacked(setup, c, id, shards)
    ensures setup.code.Decoded(shards) == Ok(c.nodes[asker].log[i].out.response.value.1)
  {
    var log := c.nodes[asker].log;
    assert EndToEnd.Kept(setup, c, asker);
    assert Legal(setup.code, Closed, log, id);
    LegalAt(setup.code, Closed, log, id, i);
    shards := PhaseAfter(Closed, log[..i], id).shards;
    LegalPrefix(setup.code, log, id, i);
    var j := DecodedBefore(setup.code, log[..i], id);
    assert log[..i][j] == D.Decoding(id, shards);
    assert log[j].Decoding?;
  }

  // ---------- collections that take only shards of one value ----------

  /** The asking peer believes to have a shard of `id` itself. */
  predicate KnowsOwn(node: Node, asker: PeerId, id: Vid) {
    asker in D.At(node.memory.locations, id).Values
  }

  /** What reaches the collection of `id` at `asker` comes from histories that make a peer hold its shard of `d`. */
  ghost predicate ReflectsOnly(setup: Setup, c: Cluster, step: Step, asker: PeerId, id: Vid, d: Bytes)
    requires setup.code.IsData(d)
  {
    && (step.Deliver? && step.peer == asker && step.reply.full.id == id ==>
          HeldAgrees(setup.code, step.reply.after, step.reply.full.sid, id, d))
    && (step.Other? && step.peer == asker && step.event.RecollectRequest? && step.event.id == id ==>
          asker in c.nodes && asker in setup.distribution &&
          (KnowsOwn(c.nodes[asker], asker, id) ==>
             HeldAgrees(setup.code, Reflected(c.nodes[asker], id), setup.distribution[asker], id, d)))
  }

  ghost predicate AllReflectOnly(setup: Setup, c: Cluster, steps: seq<Step>, asker: PeerId, id: Vid, d: Bytes)
    requires setup.code.Valid() && setup.code.IsData(d)
  {
    steps == [] ||
    var k := |steps| - 1;
    && AllReflectOnly(setup, c, steps[..k], asker, id, d)
    && (RunFrom(setup, c, steps[..k]).Some? ==>
        ReflectsOnly(setup, RunFrom(setup, c, steps[..k]).value, steps[k], asker, id, d))
  }

  /** The open collection, if any, agrees with `d`, and every response after the first `from` log entries is `d`. */
  ghost predicate Collecting(setup: Setup, node: Node, from: nat, id: Vid, d: Bytes)
    requires setup.code.IsData(d)
  {
    && from <= |node.log|
    && Agrees(setup.code, D.At(node.memory.assembled, id), d)
    && AnswersAre(node.log[from..], id, d)
  }

  lemma EventDelivers(setup: Setup, c: Cluster, step: Step, id: Vid, d: Bytes)
    requires Invariant(setup, c) && Enabled(setup, c, step) && !step.RunProgram? && setup.code.IsData(d)
    requires ReflectsOnly(setup, c, step, step.peer, id, d)
    ensures Delivers(setup.Of(step.peer), c.nodes[step.peer].memory, EventOf(c.nodes[step.peer], step), id, d)
  {
    var node := c.nodes[step.peer];
    if step.Deliver? && step.reply.full.id == id {
      assert Truthful(setup, c, step.reply);
      ReplyAgrees(setup, c, step.reply, id, d);
    } else if step.Other? && step.event.RecollectRequest? && step.event.id == id {
      assert EndToEnd.Kept(setup, c, step.peer);
      LocalAgrees(setup, step.peer, node, id, d);
    }
  }

  lemma ReplyAgrees(setup: Setup, c: Cluster, reply: Reply, id: Vid, d: Bytes)
    requires setup.code.IsData(d) && reply.full.id == id && Truthful(setup, c, reply)
    requires HeldAgrees(setup.code, reply.after, reply.full.sid, id, d)
    ensures reply.full.sid < setup.code.Total() && reply.shard == setup.code.ShardOf(reply.full.sid, d)
  {
  }

  lemma LocalAgrees(setup: Setup, peer: PeerId, node: Node, id: Vid, d: Bytes)
    requires setup.Valid() && peer in setup.distribution && HoldsRow(setup, peer, node) && setup.code.IsData(d)
    requires KnowsOwn(node, peer, id) ==> HeldAgrees(setup.code, Reflected(node, id), setup.distribution[peer], id, d)
    ensures Agrees(setup.code, Local(setup.Of(peer), D.At(node.memory.localStorage, id), D.At(node.memory.locations, id)), d)
  {
    var known := D.At(node.memory.locations, id);
    var local := Local(setup.Of(peer), D.At(node.memory.localStorage, id), known);
    forall sid | sid in local && sid < setup.code.Total()
      ensures local[sid] == setup.code.ShardOf(sid, d)
    {
      assert known[sid] == peer;
      StoredReflects(setup, peer, node, D.Full(id, sid));
    }
  }

  lemma EffectCollecting(setup: Setup, node: Node, e: D.Effect, after: Node, from: nat, id: Vid, d: Bytes)
    requires setup.code.IsData(d) && Collecting(setup, node, from, id, d)
    requires Agrees(setup.code, D.At(e.state.assembled, id), d) && AnswersAre(e.actions, id, d)
    requires after.memory == e.state && after.log == node.log + e.actions
    ensures Collecting(setup, after, from, id, d)
  {
    assert (node.log + e.actions)[from..] == node.log[from..] + e.actions;
  }

  lemma StepCollecting(setup: Setup, c: Cluster, step: Step, asker: PeerId, from: nat, id: Vid, d: Bytes)
    requires Invariant(setup, c) && Enabled(setup, c, step) && asker in c.nodes && setup.code.IsData(d)
    requires ReflectsOnly(setup, c, step, asker, id, d)
    requires Collecting(setup, c.nodes[asker], from, id, d)
    ensures asker in EndToEnd.Next(setup, c, step).nodes &&
      Collecting(setup, EndToEnd.Next(setup, c, step).nodes[asker], from, id, d)
  {
    NextAt(setup, c, step, asker);
    if step.peer == asker {
      var node := c.nodes[asker];
      if step.RunProgram? {
        assert node.log + [] == node.log;
      } else {
        EventDelivers(setup, c, step, id, d);
        var cfg, ev := setup.Of(asker), EventOf(node, step);
        StepAgrees(cfg, node.memory, ev, id, d);
        EffectCollecting(setup, node, D.Step(cfg, node.memory, ev), NextNode(setup, node, step), from, id, d);
      }
    }
  }

  /**
   Starting anywhere in any run, with no collection of `id` open at `asker`: whatever the peers do
   next, as long as the shards taken into the collection come from histories that make their peers
   hold shards of `d`, which may be the mock's value after some commands, every successful response
   for `id` is `d`.
   */
  lemma {:induction false} CollectionOf(setup: Setup, c: Cluster, steps: seq<Step>, asker: PeerId, id: Vid, d: Bytes)
    requires Invariant(setup, c) && asker in c.nodes && id !in c.nodes[asker].memory.assembled
    requires setup.code.IsData(d) && RunFrom(setup, c, steps).Some? && AllReflectOnly(setup, c, steps, asker, id, d)
    ensures asker in RunFrom(setup, c, steps).value.nodes
    ensures Collecting(setup, RunFrom(setup, c, steps).value.nodes[asker], |c.nodes[asker].log|, id, d)
  {
    if steps != [] {
      var k := |steps| - 1;
      CollectionOf(setup, c, steps[..k], asker, id, d);
      RunKeeps(setup, c, steps[..k]);
      StepCollecting(setup, RunFrom(setup, c, steps[..k]).value, steps[k], asker, |c.nodes[asker].log|, id, d);
    }
  }

  // ---------- in terms of what the histories amount to ----------

  /** The history gives `id` the value it has after `agreed`, and the shard supports all its programs. */
  ghost predicate SameValue(a: History, sid: Sid, agreed: History, id: Vid) {
    Lookup(Outcome(a), id) == Lookup(Outcome(agreed), id) && Supported(sid, a)
  }

  /** What reaches the collection of `id` at `asker` reflects histories that give it the value `agreed` gives it. */
  ghost predicate ReflectsValue(setup: Setup, c: Cluster, step: Step, asker: PeerId, id: Vid, agreed: History) {
    && (step.Deliver? && step.peer == asker && step.reply.full.id == id ==>
          SameValue(step.reply.after, step.reply.full.sid, agreed, id))
    && (step.Other? && step.peer == asker && step.event.RecollectRequest? && step.event.id == id ==>
          asker in c.nodes && asker in setup.distribution &&
          (KnowsOwn(c.nodes[asker], asker, id) ==>
             SameValue(Reflected(c.nodes[asker], id), setup.distribution[asker], agreed, id)))
  }

  ghost predicate AllReflectValue(setup: Setup, c: Cluster, steps: seq<Step>, asker: PeerId, id: Vid, agreed: History)
    requires setup.code.Valid()
  {
    steps == [] ||
    var k := |steps| - 1;
    && AllReflectValue(setup, c, steps[..k], asker, id, agreed)
    && (RunFrom(setup, c, steps[..k]).Some? ==>
        ReflectsValue(setup, RunFrom(setup, c, steps[..k]).value, steps[k], asker, id, agreed))
  }

  lemma SameValueAgrees(setup: Setup, h: History, sid: Sid, agreed: History, id: Vid, d: Bytes)
    requires setup.code.Valid() && AllFitting(setup.code, h) && sid < setup.code.Total() && setup.code.IsData(d)
    requires SameValue(h, sid, agreed, id) && Lookup(Outcome(agreed), id) == Some(d)
    ensures HeldAgrees(setup.code, h, sid, id, d)
  {
    SupportedAgrees(setup.code, h, sid, id);
  }

  lemma ValueIsReflected(setup: Setup, c: Cluster, step: Step, asker: PeerId, id: Vid, agreed: History, d: Bytes)
    requires Invariant(setup, c) && Enabled(setup, c, step) && setup.code.IsData(d)
    requires ReflectsValue(setup, c, step, asker, id, agreed) && Lookup(Outcome(agreed), id) == Some(d)
    ensures ReflectsOnly(setup, c, step, asker, id, d)
  {
    if step.Deliver? && step.peer == asker && step.reply.full.id == id {
      assert Truthful(setup, c, step.reply);
      SameValueAgrees(setup, step.reply.after, step.reply.full.sid, agreed, id, d);
    } else if step.Other? && step.peer == asker && step.event.RecollectRequest? && step.event.id == id {
      assert EndToEnd.Kept(setup, c, asker);
      if KnowsOwn(c.nodes[asker], asker, id) {
        ReflectedFits(setup, asker, c.nodes[asker], id);
        SameValueAgrees(setup, Reflected(c.nodes[asker], id), setup.distribution[asker], agreed, id, d);
      }
    }
  }

  lemma ReflectedFits(setup: Setup, peer: PeerId, node: Node, id: Vid)
    requires setup.Valid() && peer in setup.distribution && HoldsRow(setup, peer, node)
    ensures setup.distribution[peer] < setup.code.Total() && AllFitting(setup.code, Reflected(node, id))
  {
    setup.ShardInRange(peer);
  }

  lemma {:induction false} ValuesAreReflected(
      setup: Setup, c: Cluster, steps: seq<Step>, asker: PeerId, id: Vid, agreed: History, d: Bytes)
    requires Invariant(setup, c) && RunFrom(setup, c, steps).Some? && setup.code.IsData(d)
    requires AllReflectValue(setup, c, steps, asker, id, agreed) && Lookup(Outcome(agreed), id) == Some(d)
    ensures AllReflectOnly(setup, c, steps, asker, id, d)
  {
    if steps != [] {
      var k := |steps| - 1;
      ValuesAreReflected(setup, c, steps[..k], asker, id, agreed, d);
      RunKeeps(setup, c, steps[..k]);
      ValueIsReflected(setup, RunFrom(setup, c, steps[..k]).value, steps[k], asker, id, agreed, d);
    }
  }

  /**
   In particular, if all shards taken reflect histories that give `id` the value it has after
   `agreed`, and were computed by operations that they support: any if they are data shards.
   Then every successful response is the value the mock has after `agreed`.
   */
  lemma RecollectionMatchesMock(
      setup: Setup, c: Cluster, steps: seq<Step>, asker: PeerId, id: Vid, agreed: History, d: Bytes)
    requires Invariant(setup, c) && asker in c.nodes && id !in c.nodes[asker].memory.assembled
    requires OperandsExist(agreed) && Lookup(MockState(agreed), id) == Some(d) && setup.code.IsData(d)
    requires RunFrom(setup, c, steps).Some? && AllReflectValue(setup, c, steps, asker, id, agreed)
    ensures asker in RunFrom(setup, c, steps).value.nodes
    ensures Collecting(setup, RunFrom(setup, c, steps).value.nodes[asker], |c.nodes[asker].log|, id, d)
  {
    MockIsOutcome(agreed);
    ValuesAreReflected(setup, c, steps, asker, id, agreed, d);
    CollectionOf(setup, c, steps, asker, id, d);
  }

  // ---------- all five operations ----------

  /** What reaches the collection comes from the two peers with data shards, after they had the agreed value. */
  ghost predicate FromDataPeers(setup: Setup, c: Cluster, step: Step, asker: PeerId, id: Vid, agreed: History) {
    && (step.Deliver? && step.peer == asker && step.reply.full.id == id ==>
          step.reply.full.sid < K && Lookup(Outcome(step.reply.after), id) == Lookup(Outcome(agreed), id))
    && (step.Other? && step.peer == asker && step.event.RecollectRequest? && step.event.id == id ==>
          asker in c.nodes && asker in setup.distribution &&
          (KnowsOwn(c.nodes[asker], asker, id) ==>
             && setup.distribution[asker] < K
             && Lookup(Outcome(Reflected(c.nodes[asker], id)), id) == Lookup(Outcome(agreed), id)))
  }

  ghost predicate AllFromDataPeers(setup: Setup, c: Cluster, steps: seq<Step>, asker: PeerId, id: Vid, agreed: History)
    requires setup.code.Valid()
  {
    steps == [] ||
    var k := |steps| - 1;
    && AllFromDataPeers(setup, c, steps[..k], asker, id, agreed)
    && (RunFrom(setup, c, steps[..k]).Some? ==>
        FromDataPeers(setup, RunFrom(setup, c, steps[..k]).value, steps[k], asker, id, agreed))
  }

  lemma DataPeersReflect(setup: Setup, c: Cluster, step: Step, asker: PeerId, id: Vid, agreed: History)
    requires FromDataPeers(setup, c, step, asker, id, agreed)
    ensures ReflectsValue(setup, c, step, asker, id, agreed)
  {
    if step.Deliver? && step.reply.full.sid < K {
      SupportedIf(step.reply.full.sid, step.reply.after);
    } else if step.Other? && asker in c.nodes && asker in setup.distribution && setup.distribution[asker] < K {
      if step.event.RecollectRequest? {
        SupportedIf(setup.distribution[asker], Reflected(c.nodes[asker], id));
      }
    }
  }

  lemma {:induction false} AllDataPeersReflect(
      setup: Setup, c: Cluster, steps: seq<Step>, asker: PeerId, id: Vid, agreed: History)
    requires setup.code.Valid() && RunFrom(setup, c, steps).Some? && AllFromDataPeers(setup, c, steps, asker, id, agreed)
    ensures AllReflectValue(setup, c, steps, asker, id, agreed)
  {
    if steps != [] {
      var k := |steps| - 1;
      AllDataPeersReflect(setup, c, steps[..k], asker, id, agreed);
      DataPeersReflect(setup, RunFrom(setup, c, steps[..k]).value, steps[k], asker, id, agreed);
    }
  }

  /**
   With programs of all five operations at all peers, a collection that is answered by the two peers
   with data shards returns the mock's value, whatever the parity shards have become meanwhile.
   */
  lemma DataPeersRecollection(
      setup: Setup, c: Cluster, steps: seq<Step>, asker: PeerId, id: Vid, agreed: History, d: Bytes)
    requires Invariant(setup, c) && asker in c.nodes && id !in c.nodes[asker].memory.assembled
    requires OperandsExist(agreed) && Lookup(MockState(agreed), id) == Some(d) && setup.code.IsData(d)
    requires RunFrom(setup, c, steps).Some? && AllFromDataPeers(setup, c, steps, asker, id, agreed)
    ensures asker in RunFrom(setup, c, steps).value.nodes
    ensures Collecting(setup, RunFrom(setup, c, steps).value.nodes[asker], |c.nodes[asker].log|, id, d)
  {
    AllDataPeersReflect(setup, c, steps, asker, id, agreed);
    RecollectionMatchesMock(setup, c, steps, asker, id, agreed, d);
  }

  // ---------- a condition on what the peers do ----------

  /** No step assigns to `id`, and no shard of it that was sent before is delivered any more. */
  predicate Leaves(setup: Setup, step: Step, sent: set<Reply>, node: Node, id: Vid) {
    && (forall i :: 0 <= i < |Completes(setup, node, step)| ==> id !in Assigns(Completes(setup, node, step)[i]))
    && (step.Deliver? && step.reply.full.id == id ==> step.reply !in sent)
  }

  ghost predicate AllLeave(setup: Setup, c: Cluster, steps: seq<Step>, id: Vid)
    requires setup.code.Valid()
  {
    steps == [] ||
    var k := |steps| - 1;
    && AllLeave(setup, c, steps[..k], id)
    && (RunFrom(setup, c, steps[..k]).Some? ==>
        var now := RunFrom(setup, c, steps[..k]).value;
        steps[k].peer in now.nodes ==> Leaves(setup, steps[k], c.replies, now.nodes[steps[k].peer], id))
  }

  /** What a peer holds of `id`, stored or about to be, is its shard of `d`. */
  ghost predicate PeerSettled(setup: Setup, peer: PeerId, node: Node, id: Vid, d: Bytes)
    requires setup.code.IsData(d)
  {
    && peer in setup.distribution
    && HeldAgrees(setup.code, node.history, setup.distribution[peer], id, d)
    && HeldAgrees(setup.code, Reflected(node, id), setup.distribution[peer], id, d)
  }

  /** All peers hold shards of `d`, and so do shards sent since. */
  ghost predicate Settled(setup: Setup, c: Cluster, sent: set<Reply>, id: Vid, d: Bytes)
    requires setup.code.IsData(d)
  {
    && (forall peer :: peer in c.nodes ==> PeerSettled(setup, peer, c.nodes[peer], id, d))
    && (forall reply :: reply in c.replies && reply !in sent && reply.full.id == id ==>
          HeldAgrees(setup.code, reply.after, reply.full.sid, id, d))
  }

  lemma CompletesOne(setup: Setup, node: Node, step: Step)
    ensures |Completes(setup, node, step)| <= 1
  {
  }

  lemma CompletesFits(setup: Setup, c: Cluster, step: Step)
    requires Invariant(setup, c) && Enabled(setup, c, step)
    ensures |Completes(setup, c.nodes[step.peer], step)| <= 1
    ensures forall i :: 0 <= i < |Completes(setup, c.nodes[step.peer], step)| ==>
      Fitting(setup.code, Completes(setup, c.nodes[step.peer], step)[i])
  {
    CompletesOne(setup, c.nodes[step.peer], step);
    if step.Store? {
      assert MessagesTrue(setup, c);
      assert Genuine(setup, step.served);
    } else if step.StoreOwn? && Completes(setup, c.nodes[step.peer], step) != [] {
      assert EndToEnd.Kept(setup, c, step.peer);
      OwnPutFits(setup, c.nodes[step.peer], step);
    }
  }

  lemma OwnPutFits(setup: Setup, node: Node, step: Step)
    requires setup.Valid() && step.StoreOwn? && HandsOutOwn(setup, step.peer, node) && Completes(setup, node, step) != []
    ensures setup.code.IsData(node.putting[step.id])
  {
    assert Distribution.HandsOut(setup.Of(step.peer), node.memory, step.id, Lookup(node.putting, step.id));
    assert setup.distribution[step.peer] in D.At(node.memory.toDistribute, step.id);
  }

  lemma PeerStaysSettled(setup: Setup, node: Node, step: Step, id: Vid, d: Bytes)
    requires setup.code.Valid() && Able(setup, node, step) && setup.code.IsData(d)
    requires PeerSettled(setup, step.peer, node, id, d)
    requires |Completes(setup, node, step)| <= 1
    requires forall i :: 0 <= i < |Completes(setup, node, step)| ==>
      id !in Assigns(Completes(setup, node, step)[i]) && Fitting(setup.code, Completes(setup, node, step)[i])
    ensures PeerSettled(setup, step.peer, NextNode(setup, node, step), id, d)
  {
    var after, more := NextNode(setup, node, step), Completes(setup, node, step);
    if more == [] {
      assert after.history == node.history;
      if step.Drain? {
        ApplyFirst(map[], node.writes);
      }
    } else {
      assert more == [more[0]];
      HeldStays(setup.code, node.history, setup.distribution[step.peer], more[0], id, d);
      assert after.history[..|after.history| - 1] == node.history;
    }
  }

  lemma StepSettled(setup: Setup, c: Cluster, step: Step, sent: set<Reply>, id: Vid, d: Bytes)
    requires Invariant(setup, c) && Enabled(setup, c, step) && setup.code.IsData(d) && Settled(setup, c, sent, id, d)
    requires Leaves(setup, step, sent, c.nodes[step.peer], id)
    ensures Settled(setup, EndToEnd.Next(setup, c, step), sent, id, d)
  {
    CompletesFits(setup, c, step);
    NewReplies(setup, c, step);
    SettledNext(setup, c, step, sent, id, d);
  }

  /** What is sent by a step comes from the peer that takes it, and reflects its history. */
  ghost predicate SentNow(setup: Setup, c: Cluster, step: Step)
    requires setup.code.Valid() && Enabled(setup, c, step)
  {
    forall reply :: reply in EndToEnd.Next(setup, c, step).replies && reply !in c.replies ==>
      && step.peer in setup.distribution && reply.full.sid == setup.distribution[step.peer]
      && reply.after == Reflected(c.nodes[step.peer], reply.full.id)
  }

  lemma NewReplies(setup: Setup, c: Cluster, step: Step)
    requires Invariant(setup, c) && Enabled(setup, c, step)
    ensures SentNow(setup, c, step)
  {
    assert EndToEnd.Kept(setup, c, step.peer);
    forall reply | reply in EndToEnd.Next(setup, c, step).replies && reply !in c.replies
      ensures reply.full.sid == setup.distribution[step.peer] && reply.after == Reflected(c.nodes[step.peer], reply.full.id)
    {
      SentIs(setup, c.nodes[step.peer], step.peer, step.full, reply);
      StoredReflects(setup, step.peer, c.nodes[step.peer], step.full);
    }
  }

  lemma SettledNext(setup: Setup, c: Cluster, step: Step, sent: set<Reply>, id: Vid, d: Bytes)
    requires setup.code.Valid() && Enabled(setup, c, step) && setup.code.IsData(d) && Settled(setup, c, sent, id, d)
    requires Leaves(setup, step, sent, c.nodes[step.peer], id) && |Completes(setup, c.nodes[step.peer], step)| <= 1
    requires forall i :: 0 <= i < |Completes(setup, c.nodes[step.peer], step)| ==>
      Fitting(setup.code, Completes(setup, c.nodes[step.peer], step)[i])
    requires SentNow(setup, c, step)
    ensures Settled(setup, EndToEnd.Next(setup, c, step), sent, id, d)
  {
    var c', node := EndToEnd.Next(setup, c, step), c.nodes[step.peer];
    PeerStaysSettled(setup, node, step, id, d);
    NextKeys(setup, c, step);
    forall peer | peer in c'.nodes
      ensures PeerSettled(setup, peer, c'.nodes[peer], id, d)
    {
      NextAt(setup, c, step, peer);
    }
    forall reply | reply in c'.replies && reply !in sent && reply.full.id == id
      ensures HeldAgrees(setup.code, reply.after, reply.full.sid, id, d)
    {
    }
  }

  lemma SettledReflectsOnly(setup: Setup, c: Cluster, step: Step, sent: set<Reply>, asker: PeerId, id: Vid, d: Bytes)
    requires Enabled(setup, c, step) && setup.code.IsData(d) && Settled(setup, c, sent, id, d)
    requires Leaves(setup, step, sent, c.nodes[step.peer], id)
    ensures ReflectsOnly(setup, c, step, asker, id, d)
  {
  }

  /** From a settled point on, steps that leave `id` alone bring only shards of the agreed value. */
  lemma {:induction false} SettledReflects(setup: Setup, c: Cluster, steps: seq<Step>, asker: PeerId, id: Vid, d: Bytes)
    requires Invariant(setup, c) && setup.code.IsData(d) && Settled(setup, c, c.replies, id, d)
    requires RunFrom(setup, c, steps).Some? && AllLeave(setup, c, steps, id)
    ensures Settled(setup, RunFrom(setup, c, steps).value, c.replies, id, d)
    ensures AllReflectOnly(setup, c, steps, asker, id, d)
  {
    if steps != [] {
      var k := |steps| - 1;
      SettledReflects(setup, c, steps[..k], asker, id, d);
      RunKeeps(setup, c, steps[..k]);
      var now := RunFrom(setup, c, steps[..k]).value;
      StepSettled(setup, now, steps[k], c.replies, id, d);
      SettledReflectsOnly(setup, now, steps[k], c.replies, asker, id, d);
    }
  }

  /** Peers whose histories give `id` the value of `agreed`, by operations that their shards support, are settled. */
  lemma SameValueSettles(setup: Setup, c: Cluster, peer: PeerId, agreed: History, id: Vid, d: Bytes)
    requires Invariant(setup, c) && peer in c.nodes && setup.code.IsData(d) && Lookup(Outcome(agreed), id) == Some(d)
    requires peer in setup.distribution && SameValue(c.nodes[peer].history, setup.distribution[peer], agreed, id)
    requires SameValue(Reflected(c.nodes[peer], id), setup.distribution[peer], agreed, id)
    ensures PeerSettled(setup, peer, c.nodes[peer], id, d)
  {
    assert EndToEnd.Kept(setup, c, peer);
    ReflectedFits(setup, peer, c.nodes[peer], id);
    SameValueAgrees(setup, c.nodes[peer].history, setup.distribution[peer], agreed, id, d);
    SameValueAgrees(setup, Reflected(c.nodes[peer], id), setup.distribution[peer], agreed, id, d);
  }

  /**
   Once what every peer holds of `id` is its shard of the mock's value, and as long as nobody assigns
   to it, a collection started then returns the mock's value, whatever commands about other ids,
   with all five operations, the peers carry out in between, each at its own pace and in its own order.
   */
  lemma SettledRecollection(setup: Setup, c: Cluster, steps: seq<Step>, asker: PeerId, id: Vid, agreed: History, d: Bytes)
    requires Invariant(setup, c) && asker in c.nodes && id !in c.nodes[asker].memory.assembled
    requires Lookup(MockState(agreed), id) == Some(d) && setup.code.IsData(d) && Settled(setup, c, c.replies, id, d)
    requires RunFrom(setup, c, steps).Some? && AllLeave(setup, c, steps, id)
    ensures asker in RunFrom(setup, c, steps).value.nodes
    ensures Collecting(setup, RunFrom(setup, c, steps).value.nodes[asker], |c.nodes[asker].log|, id, d)
  {
    SettledReflects(setup, c, steps, asker, id, d);
    CollectionOf(setup, c, steps, asker, id, d);
  }
}
