/**
 Runs in which data is collected: when enough peers can serve a collection it does come to an
 answer, and when they serve it shards of different values the answer can be none of the values.
 */
module CollectionRuns {
  import opened Types
  import opened ReedSolomon
  import opened Processor
  import opened Histories
  import opened EndToEnd
  import opened Reachability
  import Answers
  import D = DataMemory

  // ---------- asking ----------

  /** What the asking peer takes from its own storage. */
  function Own(cfg: D.Config, s: D.State, id: Vid, order: seq<Sid>): map<Sid, Bytes> {
    map sid | sid in order && sid in D.At(s.locations, id) && s.locations[id][sid] == cfg.localId
      && D.Get(s.localStorage, D.Full(id, sid)).Some? :: D.Get(s.localStorage, D.Full(id, sid)).value
  }

  lemma OwnIsOne(cfg: D.Config, s: D.State, id: Vid, order: seq<Sid>)
    requires D.OwnOnly(cfg, s)
    ensures |Own(cfg, s, id, order)| <= 1
    ensures forall a, b :: a in Own(cfg, s, id, order) && b in Own(cfg, s, id, order) ==> a == b
  {
    var own := Own(cfg, s, id, order);
    forall a, b | a in own && b in own
      ensures a == b
    {
      assert cfg.Assigned() == Some(a) && cfg.Assigned() == Some(b);
    }
    if own.Keys != {} {
      var sid :| sid in own;
      assert own.Keys == {sid};
    }
  }

  /** The session as it is when `taken` is in it. */
  function With(s: D.State, id: Vid, taken: map<Sid, Bytes>): D.State {
    s.(assembled := s.assembled[id := taken])
  }

  lemma {:induction false} AskedTakes(cfg: D.Config, s: D.State, id: Vid, order: seq<Sid>)
    requires cfg.Wide() && D.OwnOnly(cfg, s) && forall i, j :: 0 <= i < j < |order| ==> order[i] != order[j]
    ensures D.Asked(cfg, With(s, id, map[]), id, D.At(s.locations, id), order).state == With(s, id, Own(cfg, s, id, order))
  {
    if order == [] {
      assert Own(cfg, s, id, order) == map[];
    } else {
      AskedTakes(cfg, s, id, order[..|order| - 1]);
      OneMoreAsked(cfg, s, id, order);
    }
  }

  lemma WithAgain(s: D.State, id: Vid, a: map<Sid, Bytes>, b: map<Sid, Bytes>)
    ensures With(With(s, id, a), id, b) == With(s, id, b)
  {
    assert s.assembled[id := a][id := b] == s.assembled[id := b];
  }

  lemma OneMoreAsked(cfg: D.Config, s: D.State, id: Vid, order: seq<Sid>)
    requires cfg.Wide() && D.OwnOnly(cfg, s) && order != [] && order[|order| - 1] !in order[..|order| - 1]
    ensures D.AskOne(cfg, With(s, id, Own(cfg, s, id, order[..|order| - 1])), D.Full(id, order[|order| - 1]),
      D.At(s.locations, id)).state ==
      With(s, id, Own(cfg, s, id, order))
  {
    var rest, sid, known := order[..|order| - 1], order[|order| - 1], D.At(s.locations, id);
    var before := With(s, id, Own(cfg, s, id, rest));
    if sid in known && known[sid] == cfg.localId && D.Get(s.localStorage, D.Full(id, sid)).Some? {
      assert sid in Own(cfg, s, id, order);
      OwnGrows(cfg, s, id, order, sid);
      TakesFirst(cfg, before, D.Full(id, sid), known);
      WithAgain(s, id, Own(cfg, s, id, rest), Own(cfg, s, id, order));
    } else {
      assert Own(cfg, s, id, order) == Own(cfg, s, id, rest);
      TakesNone(cfg, before, D.Full(id, sid), known);
    }
  }

  lemma TakesFirst(cfg: D.Config, s: D.State, full: D.FullShardId, known: map<Sid, PeerId>)
    requires cfg.Wide() && full.sid in known && known[full.sid] == cfg.localId && D.Get(s.localStorage, full).Some?
    requires Lookup(s.assembled, full.id) == Some(map[])
    ensures D.AskOne(cfg, s, full, known).state == With(s, full.id, map[full.sid := D.Get(s.localStorage, full).value])
  {
    var one: map<Sid, Bytes> := map[full.sid := D.Get(s.localStorage, full).value];
    assert s.assembled[full.id][full.sid := one[full.sid]] == one;
    assert one.Keys == {full.sid} && |one| == 1;
  }

  lemma TakesNone(cfg: D.Config, s: D.State, full: D.FullShardId, known: map<Sid, PeerId>)
    requires cfg.Wide() && !(full.sid in known && known[full.sid] == cfg.localId && D.Get(s.localStorage, full).Some?)
    ensures D.AskOne(cfg, s, full, known).state == s
  {
  }

  lemma OwnGrows(cfg: D.Config, s: D.State, id: Vid, order: seq<Sid>, sid: Sid)
    requires D.OwnOnly(cfg, s) && order != [] && order[|order| - 1] == sid && sid !in order[..|order| - 1]
    requires sid in Own(cfg, s, id, order)
    ensures Own(cfg, s, id, order[..|order| - 1]) == map[]
    ensures Own(cfg, s, id, order) == map[sid := D.Get(s.localStorage, D.Full(id, sid)).value]
  {
    OwnIsOne(cfg, s, id, order);
    assert Own(cfg, s, id, order).Keys == {sid};
    assert Own(cfg, s, id, order[..|order| - 1]).Keys <= Own(cfg, s, id, order).Keys;
    assert sid !in Own(cfg, s, id, order[..|order| - 1]);
  }

  /** Some order in which the known locations may be visited. */
  lemma {:induction false} SomeOrder(sids: set<Sid>) returns (order: seq<Sid>)
    ensures forall sid :: sid in order <==> sid in sids
    ensures forall i, j :: 0 <= i < j < |order| ==> order[i] != order[j]
    decreases |sids|
  {
    if sids == {} {
      order := [];
    } else {
      var sid :| sid in sids;
      var rest := SomeOrder(sids - {sid});
      order := rest + [sid];
    }
  }

  /** The peer runs and stores this shard. */
  predicate Keeps(c: Cluster, peer: PeerId, full: D.FullShardId, shard: Bytes) {
    peer in c.nodes && !c.nodes[peer].memory.stopped && D.Get(c.nodes[peer].memory.localStorage, full) == Some(shard)
  }

  predicate Stores(c: Cluster, peer: PeerId, full: D.FullShardId) {
    peer in c.nodes && D.Get(c.nodes[peer].memory.localStorage, full).Some?
  }

  /** As far as `asker` knows, shard `sid` of `id` is at `peer`. */
  predicate Located(c: Cluster, asker: PeerId, id: Vid, sid: Sid, peer: PeerId) {
    asker in c.nodes && D.Get(c.nodes[asker].memory.locations, D.Full(id, sid)) == Some(peer)
  }

  /** Nothing that is stored has changed, and who runs still runs. */
  ghost predicate StorageKept(c: Cluster, c': Cluster) {
    && c'.nodes.Keys == c.nodes.Keys
    && forall p :: p in c.nodes ==>
        && c'.nodes[p].memory.localStorage == c.nodes[p].memory.localStorage
        && c'.nodes[p].memory.stopped == c.nodes[p].memory.stopped
  }

  /** The collection of `id` is open at `asker` with these shards. */
  predicate Holding(c: Cluster, asker: PeerId, id: Vid, shards: map<Sid, Bytes>) {
    asker in c.nodes && !c.nodes[asker].memory.stopped && Lookup(c.nodes[asker].memory.assembled, id) == Some(shards)
  }

  lemma AskAll(setup: Setup, c: Cluster, asker: PeerId, id: Vid) returns (c': Cluster, own: map<Sid, Bytes>)
    requires setup.code.Valid() && asker in c.nodes && D.Starts(c.nodes[asker].memory, id)
    requires D.OwnOnly(setup.Of(asker), c.nodes[asker].memory)
    ensures Leads(setup, c, c') && StorageKept(c, c') && Holding(c', asker, id, own) && |own| <= 1
    ensures forall sid :: sid in own <==> Located(c, asker, id, sid, asker) && Stores(c, asker, D.Full(id, sid))
    ensures forall sid :: sid in own ==> Keeps(c, asker, D.Full(id, sid), own[sid])
  {
    var s, cfg := c.nodes[asker].memory, setup.Of(asker);
    var order := SomeOrder(s.locations[id].Keys);
    own := Own(cfg, s, id, order);
    OwnIsOne(cfg, s, id, order);
    AskedTakes(cfg, s, id, order);
    RequestIs(setup, c.nodes[asker], asker, id, order);
    c' := Take(setup, c, Other(asker, D.RecollectRequest(id, order)));
  }

  lemma RequestIs(setup: Setup, node: Node, asker: PeerId, id: Vid, order: seq<Sid>)
    requires setup.code.Valid() && D.Starts(node.memory, id)
    ensures NextNode(setup, node, Other(asker, D.RecollectRequest(id, order))).memory ==
      D.Asked(setup.Of(asker), With(node.memory, id, map[]), id, D.At(node.memory.locations, id), order).state
  {
    var step := Other(asker, D.RecollectRequest(id, order));
    assert Handled(setup, node, step) == D.Recollected(setup.Of(asker), node.memory, id, order);
  }

  // ---------- one shard from another peer ----------

  /** What the arrival of one more shard does to the collecting peer. */
  ghost predicate Gained(code: Code, c: Cluster, asker: PeerId, id: Vid, shards: map<Sid, Bytes>, log: D.Log)
    requires code.Valid()
  {
    if |shards| < K then
      Holding(c, asker, id, shards)
    else
      asker in c.nodes && c.nodes[asker].log == log + [D.Decoding(id, shards)] + D.Answer(id, code.Decoded(shards))
  }

  lemma AnswerOne(setup: Setup, c: Cluster, peer: PeerId, full: D.FullShardId, shard: Bytes)
      returns (c': Cluster, reply: Reply)
    requires setup.code.Valid() && Keeps(c, peer, full, shard)
    ensures Leads(setup, c, c') && OnlyAt(c, c', peer) && StorageKept(c, c')
    ensures c'.nodes[peer].memory == c.nodes[peer].memory
    ensures reply in c'.replies && reply.full == full && reply.shard == shard
  {
    var node := c.nodes[peer];
    reply := Reply(full, shard, Reflected(node, full.id));
    var e := Handled(setup, node, EndToEnd.Answer(peer, full));
    assert e == D.Effect(node.memory, [D.Emit(D.AssignedResponse(full, Some(shard)))]);
    assert Sent(node, e.actions) == {reply};
    c' := Take(setup, c, EndToEnd.Answer(peer, full));
  }

  lemma DeliverOne(setup: Setup, c: Cluster, asker: PeerId, reply: Reply, shards: map<Sid, Bytes>) returns (c': Cluster)
    requires setup.code.Valid() && reply in c.replies
    requires Holding(c, asker, reply.full.id, shards) && reply.full.sid !in shards
    ensures Leads(setup, c, c') && StorageKept(c, c')
    ensures Gained(setup.code, c', asker, reply.full.id, shards[reply.full.sid := reply.shard], c.nodes[asker].log)
  {
    GainsOne(setup, c.nodes[asker], asker, reply, shards);
    c' := Take(setup, c, Deliver(asker, reply));
  }

  lemma GainsOne(setup: Setup, node: Node, asker: PeerId, reply: Reply, shards: map<Sid, Bytes>)
    requires setup.code.Valid() && !node.memory.stopped
    requires Lookup(node.memory.assembled, reply.full.id) == Some(shards) && reply.full.sid !in shards
    ensures var node', id := NextNode(setup, node, Deliver(asker, reply)), reply.full.id;
      var received: map<Sid, Bytes> := shards[reply.full.sid := reply.shard];
      && node'.memory == node.memory.(assembled := node'.memory.assembled)
      && if |received| < K then Lookup(node'.memory.assembled, id) == Some(received)
         else node'.log == node.log + [D.Decoding(id, received)] + D.Answer(id, setup.code.Decoded(received))
  {
    var step, id := Deliver(asker, reply), reply.full.id;
    assert Handled(setup, node, step) == D.Collected(setup.Of(asker), node.memory, reply.full, Some(reply.shard));
    var received: map<Sid, Bytes> := shards[reply.full.sid := reply.shard];
    var answer := D.Answer(id, setup.code.Decoded(received));
    assert node.log + ([D.Decoding(id, received)] + answer) == node.log + [D.Decoding(id, received)] + answer;
  }

  /** `peer` is asked for its shard and the reply arrives. */
  lemma FetchOne(setup: Setup, c: Cluster, asker: PeerId, peer: PeerId, full: D.FullShardId, shard: Bytes,
        shards: map<Sid, Bytes>)
      returns (c': Cluster, log: D.Log)
    requires setup.code.Valid() && Keeps(c, peer, full, shard)
    requires Holding(c, asker, full.id, shards) && full.sid !in shards
    ensures Leads(setup, c, c') && StorageKept(c, c')
    ensures Gained(setup.code, c', asker, full.id, shards[full.sid := shard], log)
  {
    var mid, reply := AnswerOne(setup, c, peer, full, shard);
    c' := DeliverOne(setup, mid, asker, reply, shards);
    Then(setup, c, mid, c');
    log := mid.nodes[asker].log;
  }

  // ---------- a whole collection ----------

  /** `peer` can serve shard `sid` of `id` to `asker`, who knows it. */
  predicate Helps(c: Cluster, asker: PeerId, id: Vid, sid: Sid, peer: PeerId, shard: Bytes) {
    Located(c, asker, id, sid, peer) && Keeps(c, peer, D.Full(id, sid), shard)
  }

  /** The last thing `asker` did was to decode these shards. */
  ghost predicate HasDecoded(setup: Setup, c: Cluster, asker: PeerId, id: Vid, shards: map<Sid, Bytes>)
    requires setup.code.Valid()
  {
    && asker in c.nodes && |shards| == K
    && exists log: D.Log ::
         c.nodes[asker].log == log + [D.Decoding(id, shards)] + D.Answer(id, setup.code.Decoded(shards))
  }

  /** What is decoded in the end, when `own` was taken from the asking peer's own storage. */
  function Decided(own: map<Sid, Bytes>, a: Sid, sa: Bytes, b: Sid, sb: Bytes): (m: map<Sid, Bytes>)
    requires |own| <= 1 && a != b
    ensures |m| == K
  {
    if a in own then
      assert own[b := sb].Keys == own.Keys + {b} && own.Keys == {a} by { OnlyKey(own, a); }
      own[b := sb]
    else if own == map[] then
      assert map[a := sa][b := sb].Keys == {a, b};
      map[a := sa][b := sb]
    else
      assert own[a := sa].Keys == own.Keys + {a} && |own.Keys| == 1;
      own[a := sa]
  }

  lemma OnlyKey(m: map<Sid, Bytes>, sid: Sid)
    requires |m| <= 1 && sid in m
    ensures m.Keys == {sid}
  {
    assert |m.Keys - {sid}| == |m| - 1;
    assert m.Keys == m.Keys - {sid} + {sid};
  }

  lemma FetchLast(setup: Setup, c: Cluster, asker: PeerId, peer: PeerId, full: D.FullShardId, shard: Bytes,
        shards: map<Sid, Bytes>)
      returns (c': Cluster)
    requires setup.code.Valid() && Keeps(c, peer, full, shard)
    requires Holding(c, asker, full.id, shards) && full.sid !in shards && |shards[full.sid := shard]| == K
    ensures Leads(setup, c, c') && HasDecoded(setup, c', asker, full.id, shards[full.sid := shard])
  {
    var log;
    c', log := FetchOne(setup, c, asker, peer, full, shard, shards);
  }

  lemma FetchRest(setup: Setup, c: Cluster, asker: PeerId, id: Vid, own: map<Sid, Bytes>,
                  a: Sid, pa: PeerId, sa: Bytes, b: Sid, pb: PeerId, sb: Bytes) returns (c': Cluster)
    requires setup.code.Valid() && Holding(c, asker, id, own) && |own| <= 1 && a != b
    requires Keeps(c, pa, D.Full(id, a), sa) && Keeps(c, pb, D.Full(id, b), sb)
    ensures Leads(setup, c, c') && HasDecoded(setup, c', asker, id, Decided(own, a, sa, b, sb))
  {
    if a in own {
      OnlyKey(own, a);
      c' := FetchLast(setup, c, asker, pb, D.Full(id, b), sb, own);
    } else if own != map[] {
      c' := FetchLast(setup, c, asker, pa, D.Full(id, a), sa, own);
    } else {
      var mid, log := FetchOne(setup, c, asker, pa, D.Full(id, a), sa, own);
      c' := FetchLast(setup, mid, asker, pb, D.Full(id, b), sb, map[a := sa]);
      Then(setup, c, mid, c');
    }
  }

  /** With `K` helpers known, the collection that `asker` starts decodes shards of helpers. */
  lemma Collects(setup: Setup, c: Cluster, asker: PeerId, id: Vid,
                 a: Sid, pa: PeerId, sa: Bytes, b: Sid, pb: PeerId, sb: Bytes) returns (c': Cluster, m: map<Sid, Bytes>)
    requires setup.code.Valid() && asker in c.nodes && D.Starts(c.nodes[asker].memory, id)
    requires D.OwnOnly(setup.Of(asker), c.nodes[asker].memory)
    requires a != b && Helps(c, asker, id, a, pa, sa) && Helps(c, asker, id, b, pb, sb)
    ensures Leads(setup, c, c') && HasDecoded(setup, c', asker, id, m)
    ensures forall sid :: sid in m ==>
      || (sid == a && m[sid] == sa)
      || (sid == b && m[sid] == sb)
      || Helps(c, asker, id, sid, asker, m[sid])
  {
    var mid, own := AskAll(setup, c, asker, id);
    c' := FetchRest(setup, mid, asker, id, own, a, pa, sa, b, pb, sb);
    m := Decided(own, a, sa, b, sb);
    Then(setup, c, mid, c');
  }

  // ---------- answers that do come ----------

  lemma RowIsKept(setup: Setup, peer: PeerId, node: Node, id: Vid)
    requires setup.Valid() && peer in setup.distribution && HoldsRow(setup, peer, node) && node.writes == []
    requires id in Outcome(node.history) && Supported(setup.distribution[peer], node.history)
    ensures setup.distribution[peer] < setup.code.Total() && setup.code.IsData(Outcome(node.history)[id])
    ensures var sid := setup.distribution[peer];
      D.Get(node.memory.localStorage, D.Full(id, sid)) == Some(setup.code.ShardOf(sid, Outcome(node.history)[id]))
    ensures forall sid :: D.Get(node.memory.localStorage, D.Full(id, sid)).Some? ==> sid == setup.distribution[peer]
  {
    setup.ShardInRange(peer);
    SupportedAgrees(setup.code, node.history, setup.distribution[peer], id);
    assert id in D.OwnShards(setup.Of(peer), node.memory);
    forall sid: Sid | D.Get(node.memory.localStorage, D.Full(id, sid)).Some?
      ensures sid == setup.distribution[peer]
    {
      assert setup.Of(peer).Assigned() == Some(sid);
    }
  }

  /** A peer at a point keeps its shard of every value it has there. */
  lemma KeepsValue(setup: Setup, c: Cluster, peer: PeerId, h: History, id: Vid)
    requires Invariant(setup, c) && peer in c.nodes && AtPoint(c.nodes[peer], h) && id in Outcome(h)
    requires peer in setup.distribution && Supported(setup.distribution[peer], h)
    ensures peer in setup.distribution && setup.distribution[peer] < setup.code.Total() && setup.code.IsData(Outcome(h)[id])
    ensures var sid := setup.distribution[peer]; Keeps(c, peer, D.Full(id, sid), setup.code.ShardOf(sid, Outcome(h)[id]))
    ensures forall sid :: Stores(c, peer, D.Full(id, sid)) ==> sid == setup.distribution[peer]
  {
    assert EndToEnd.Kept(setup, c, peer);
    RowIsKept(setup, peer, c.nodes[peer], id);
  }

  /** `peer` has carried out `h`, all programs of which its shard supports, and `asker` knows that it has a shard of `id`. */
  predicate ServesAt(setup: Setup, c: Cluster, asker: PeerId, id: Vid, peer: PeerId, h: History) {
    && peer in c.nodes && AtPoint(c.nodes[peer], h)
    && peer in setup.distribution && Located(c, asker, id, setup.distribution[peer], peer)
    && Supported(setup.distribution[peer], h)
  }

  /** If `asker` believes to have a shard of `id` itself, the same holds of it. */
  ghost predicate OwnAt(setup: Setup, c: Cluster, asker: PeerId, id: Vid, h: History) {
    forall sid :: Located(c, asker, id, sid, asker) ==>
      AtPoint(c.nodes[asker], h) && asker in setup.distribution && Supported(setup.distribution[asker], h)
  }

  predicate LastIs(c: Cluster, asker: PeerId, out: D.OutEvent) {
    asker in c.nodes && c.nodes[asker].log != [] && c.nodes[asker].log[|c.nodes[asker].log| - 1] == D.Emit(out)
  }

  lemma DecodedIsLast(setup: Setup, c: Cluster, asker: PeerId, id: Vid, m: map<Sid, Bytes>, data: Bytes)
    requires setup.code.Valid() && HasDecoded(setup, c, asker, id, m) && setup.code.Decoded(m) == Ok(data)
    ensures LastIs(c, asker, D.RecollectResponse(Ok((id, data))))
  {
  }

  lemma HelperShards(setup: Setup, c: Cluster, asker: PeerId, id: Vid, h: History, pa: PeerId, pb: PeerId, m: map<Sid, Bytes>)
    requires Invariant(setup, c) && id in Outcome(h) && OwnAt(setup, c, asker, id, h)
    requires ServesAt(setup, c, asker, id, pa, h) && ServesAt(setup, c, asker, id, pb, h)
    requires forall sid :: sid in m ==>
      || (sid == setup.distribution[pa] && Keeps(c, pa, D.Full(id, sid), m[sid]))
      || (sid == setup.distribution[pb] && Keeps(c, pb, D.Full(id, sid), m[sid]))
      || Helps(c, asker, id, sid, asker, m[sid])
    ensures setup.code.IsData(Outcome(h)[id]) && Answers.AreShardsOf(setup.code, m, Outcome(h)[id])
  {
    KeepsValue(setup, c, pa, h, id);
    forall sid | sid in m
      ensures sid < setup.code.Total() && m[sid] == setup.code.ShardOf(sid, Outcome(h)[id])
    {
      var peer := if Helps(c, asker, id, sid, asker, m[sid]) then asker else if sid == setup.distribution[pa] then pa else pb;
      KeptIsShard(setup, c, peer, h, id, sid, m[sid]);
    }
  }

  lemma KeptIsShard(setup: Setup, c: Cluster, peer: PeerId, h: History, id: Vid, sid: Sid, shard: Bytes)
    requires Invariant(setup, c) && id in Outcome(h) && Keeps(c, peer, D.Full(id, sid), shard)
    requires AtPoint(c.nodes[peer], h) && peer in setup.distribution && Supported(setup.distribution[peer], h)
    ensures sid < setup.code.Total() && setup.code.IsData(Outcome(h)[id]) && shard == setup.code.ShardOf(sid, Outcome(h)[id])
  {
    KeepsValue(setup, c, peer, h, id);
    assert Stores(c, peer, D.Full(id, sid));
  }

  /** `K` located peers at one point: there is a continuation in which `asker` gets the mock's value. */
  lemma AnswerComes(setup: Setup, c: Cluster, asker: PeerId, id: Vid, agreed: History, pa: PeerId, pb: PeerId)
      returns (c': Cluster)
    requires Invariant(setup, c) && asker in c.nodes && D.Starts(c.nodes[asker].memory, id)
    requires OperandsExist(agreed) && id in MockState(agreed) && OwnAt(setup, c, asker, id, agreed)
    requires ServesAt(setup, c, asker, id, pa, agreed) && ServesAt(setup, c, asker, id, pb, agreed)
    requires setup.distribution[pa] != setup.distribution[pb]
    ensures Leads(setup, c, c') && LastIs(c', asker, D.RecollectResponse(Ok((id, MockState(agreed)[id]))))
  {
    MockIsOutcome(agreed);
    var d, a, b := Outcome(agreed)[id], setup.distribution[pa], setup.distribution[pb];
    KeepsValue(setup, c, pa, agreed, id);
    KeepsValue(setup, c, pb, agreed, id);
    var m;
    StoresOwnOnly(setup, c, asker);
    c', m := Collects(setup, c, asker, id, a, pa, setup.code.ShardOf(a, d), b, pb, setup.code.ShardOf(b, d));
    HelperShards(setup, c, asker, id, agreed, pa, pb, m);
    Answers.DecodesExactly(setup.code, m);
    DecodedIsLast(setup, c', asker, id, m, d);
  }

  lemma StoresOwnOnly(setup: Setup, c: Cluster, peer: PeerId)
    requires Invariant(setup, c) && peer in c.nodes
    ensures D.OwnOnly(setup.Of(peer), c.nodes[peer].memory)
  {
    assert EndToEnd.Kept(setup, c, peer);
  }

  /** Everybody knows, runs and collects what they did before. */
  ghost predicate KnowledgeKept(c: Cluster, c': Cluster) {
    && c'.nodes.Keys == c.nodes.Keys
    && forall p :: p in c.nodes ==>
        && c'.nodes[p].memory.locations == c.nodes[p].memory.locations
        && c'.nodes[p].memory.assembled == c.nodes[p].memory.assembled
        && c'.nodes[p].memory.stopped == c.nodes[p].memory.stopped
  }

  lemma FollowsStays(setup: Setup, c: Cluster, c': Cluster, peer: PeerId, p: PeerId, agreed: History)
    requires OnlyAt(c, c', peer) && peer in c.nodes && AtPoint(c'.nodes[peer], agreed) && Follows(setup, c, p, agreed)
    ensures Follows(setup, c', p, agreed)
  {
    forall i | |c'.nodes[p].history| <= i < |agreed|
      ensures Available(setup, c', p, agreed[i])
    {
      assert Available(setup, c, p, agreed[i]);
    }
  }

  /** One follower comes to the end; the others stay where they are, or follow on. */
  lemma BringUp(setup: Setup, c: Cluster, peer: PeerId, agreed: History) returns (c': Cluster)
    requires setup.code.Valid() && Follows(setup, c, peer, agreed)
    ensures Leads(setup, c, c') && KnowledgeKept(c, c') && AtPoint(c'.nodes[peer], agreed)
    ensures forall p :: Follows(setup, c, p, agreed) ==> Follows(setup, c', p, agreed)
    ensures forall p :: p in c.nodes && AtPoint(c.nodes[p], agreed) ==> AtPoint(c'.nodes[p], agreed)
  {
    c' := CatchUp(setup, c, peer, agreed);
    forall p | Follows(setup, c, p, agreed)
      ensures Follows(setup, c', p, agreed)
    {
      FollowsStays(setup, c, c', peer, p, agreed);
    }
  }

  lemma BringUpThree(setup: Setup, c: Cluster, asker: PeerId, pa: PeerId, pb: PeerId, agreed: History, own: bool)
      returns (c': Cluster)
    requires setup.code.Valid() && Follows(setup, c, pa, agreed) && Follows(setup, c, pb, agreed)
    requires own ==> Follows(setup, c, asker, agreed)
    ensures Leads(setup, c, c') && KnowledgeKept(c, c')
    ensures AtPoint(c'.nodes[pa], agreed) && AtPoint(c'.nodes[pb], agreed) && (own ==> AtPoint(c'.nodes[asker], agreed))
  {
    var mid := BringUp(setup, c, pa, agreed);
    c' := BringUp(setup, mid, pb, agreed);
    Then(setup, c, mid, c');
    if own {
      mid := c';
      c' := BringUp(setup, mid, asker, agreed);
      Then(setup, c, mid, c');
    }
  }

  /** A peer that follows, and that `asker` knows to have a shard of `id`. */
  ghost predicate CanServe(setup: Setup, c: Cluster, asker: PeerId, id: Vid, peer: PeerId, agreed: History) {
    && Follows(setup, c, peer, agreed) && peer in setup.distribution
    && Located(c, asker, id, setup.distribution[peer], peer) && Supported(setup.distribution[peer], agreed)
  }

  /**
   From any point of any run: if `asker` knows locations of `id` and `K` of the peers there run and
   can carry out what they still lack of `agreed`, some continuation ends with the response that
   carries the mock's value.
   */
  lemma AnswerIsReachable(setup: Setup, c: Cluster, asker: PeerId, id: Vid, agreed: History, pa: PeerId, pb: PeerId)
      returns (c': Cluster)
    requires Invariant(setup, c) && asker in c.nodes && D.Starts(c.nodes[asker].memory, id)
    requires OperandsExist(agreed) && id in MockState(agreed)
    requires CanServe(setup, c, asker, id, pa, agreed) && CanServe(setup, c, asker, id, pb, agreed)
    requires setup.distribution[pa] != setup.distribution[pb]
    requires asker in D.At(c.nodes[asker].memory.locations, id).Values ==>
      Follows(setup, c, asker, agreed) && asker in setup.distribution && Supported(setup.distribution[asker], agreed)
    ensures Leads(setup, c, c') && LastIs(c', asker, D.RecollectResponse(Ok((id, MockState(agreed)[id]))))
  {
    var own := asker in D.At(c.nodes[asker].memory.locations, id).Values;
    var mid := BringUpThree(setup, c, asker, pa, pb, agreed, own);
    LeadsKeeps(setup, c, mid);
    OwnAtKnown(setup, c, mid, asker, id, agreed);
    c' := AnswerComes(setup, mid, asker, id, agreed, pa, pb);
    Then(setup, c, mid, c');
  }

  lemma OwnAtKnown(setup: Setup, c: Cluster, c': Cluster, asker: PeerId, id: Vid, agreed: History)
    requires asker in c.nodes && KnowledgeKept(c, c')
    requires asker in D.At(c.nodes[asker].memory.locations, id).Values ==>
      AtPoint(c'.nodes[asker], agreed) && asker in setup.distribution && Supported(setup.distribution[asker], agreed)
    ensures OwnAt(setup, c', asker, id, agreed)
  {
    forall sid | Located(c', asker, id, sid, asker)
      ensures AtPoint(c'.nodes[asker], agreed) && asker in setup.distribution
      ensures Supported(setup.distribution[asker], agreed)
    {
      assert D.At(c.nodes[asker].memory.locations, id)[sid] == asker;
    }
  }

  // ---------- from the start ----------

  /** How `asker` learns of a shard: the peer reports a stored put, or the result of a program. */
  function Notice(h: History, id: Vid, sid: Sid, peer: PeerId): D.InEvent {
    if exists i :: 0 <= i < |h| && h[i].Put? && h[i].id == id then D.StoreConfirmed(D.Full(id, sid), peer)
    else D.PeerShardsActualized(peer, [id])
  }

  lemma NoticeLocates(cfg: D.Config, s: D.State, h: History, id: Vid, peer: PeerId)
    requires cfg.Wide() && !s.stopped && peer in cfg.distribution
    ensures var s', sid := D.Step(cfg, s, Notice(h, id, cfg.distribution[peer], peer)).state, cfg.distribution[peer];
      !s'.stopped && s'.assembled == s.assembled && s'.locations == D.Insert(s.locations, id, sid, peer)
  {
    var sid := cfg.distribution[peer];
    var ev := Notice(h, id, sid, peer);
    if ev.StoreConfirmed? {
      ConfirmationLocates(cfg, s, D.Full(id, sid), peer);
    } else {
      LocatesOne(s.locations, id, sid, peer);
    }
  }

  lemma ConfirmationLocates(cfg: D.Config, s: D.State, full: D.FullShardId, peer: PeerId)
    ensures var s' := D.Confirmed(cfg, s, full, peer).state;
      s'.stopped == s.stopped && s'.assembled == s.assembled && s'.locations == D.Insert(s.locations, full.id, full.sid, peer)
  {
  }

  lemma LocatesOne(locations: D.Nested<PeerId>, id: Vid, sid: Sid, peer: PeerId)
    ensures D.Located(locations, [id], sid, peer) == D.Insert(locations, id, sid, peer)
  {
    var one: seq<Vid> := [id];
    assert one[..0] == [];
  }

  lemma LearnOne(setup: Setup, c: Cluster, asker: PeerId, id: Vid, peer: PeerId, h: History) returns (c': Cluster)
    requires setup.code.Valid() && asker in c.nodes && Idle(c.nodes[asker]) && peer in setup.distribution
    ensures Leads(setup, c, c') && OnlyAt(c, c', asker)
    ensures AtPoint(c'.nodes[asker], c.nodes[asker].history)
    ensures c'.nodes[asker].memory.assembled == c.nodes[asker].memory.assembled
    ensures c'.nodes[asker].memory.locations == D.Insert(c.nodes[asker].memory.locations, id, setup.distribution[peer], peer)
  {
    NoticeLocates(setup.Of(asker), c.nodes[asker].memory, h, id, peer);
    c' := Take(setup, c, Other(asker, Notice(h, id, setup.distribution[peer], peer)));
    assert c.nodes[asker].history + [] == c.nodes[asker].history;
  }

  /** All peers are at `h`, and `asker` knows the locations of exactly two shards of `id`. */
  lemma LearnTwo(setup: Setup, c: Cluster, asker: PeerId, id: Vid, pa: PeerId, pb: PeerId, h: History)
      returns (c': Cluster)
    requires setup.code.Valid() && asker in c.nodes && pa in setup.distribution && pb in setup.distribution
    requires setup.distribution[pa] != setup.distribution[pb]
    requires AtPoint(c.nodes[asker], h) && Blank(c.nodes[asker])
    ensures Leads(setup, c, c') && OnlyAt(c, c', asker) && AtPoint(c'.nodes[asker], h)
    ensures D.Starts(c'.nodes[asker].memory, id)
    ensures D.At(c'.nodes[asker].memory.locations, id) == map[setup.distribution[pa] := pa, setup.distribution[pb] := pb]
  {
    var mid := LearnOne(setup, c, asker, id, pa, h);
    c' := LearnOne(setup, mid, asker, id, pb, h);
    Then(setup, c, mid, c');
    var known := D.At(c'.nodes[asker].memory.locations, id);
    assert known == map[setup.distribution[pa] := pa, setup.distribution[pb] := pb];
    assert known.Keys == {setup.distribution[pa], setup.distribution[pb]};
  }

  /**
   For all commands whose operands exist, whoever puts the data and whoever asks for whichever value
   of two peers whose shards support the programs: a run from the start ends with the response that
   carries the mock's value.  Data shards support all five operations, other shards linear ones.
   */
  lemma EveryValueIsCollected(setup: Setup, author: PeerId, asker: PeerId, agreed: History, id: Vid, pa: PeerId, pb: PeerId)
      returns (c: Cluster)
    requires setup.Valid() && AllFitting(setup.code, agreed) && OperandsExist(agreed) && id in MockState(agreed)
    requires author in setup.distribution && asker in setup.distribution && pa in setup.distribution
    requires pb in setup.distribution
    requires setup.distribution[pa] != setup.distribution[pb]
    requires Supported(setup.distribution[pa], agreed) && Supported(setup.distribution[pb], agreed)
    ensures Reached(setup, c) && LastIs(c, asker, D.RecollectResponse(Ok((id, MockState(agreed)[id]))))
  {
    var before := AllReach(setup, author, agreed);
    var mid := ReadyToAsk(setup, before, asker, agreed, id, pa, pb);
    ReachedThen(setup, before, mid);
    c := ReachedAnswer(setup, mid, asker, agreed, id, pa, pb);
  }

  lemma ReadyToAsk(setup: Setup, c: Cluster, asker: PeerId, agreed: History, id: Vid, pa: PeerId, pb: PeerId)
      returns (c': Cluster)
    requires setup.code.Valid() && c.nodes.Keys == setup.distribution.Keys && AllAt(c, c.nodes.Keys, agreed)
    requires asker in setup.distribution && pa in setup.distribution && pb in setup.distribution
    requires setup.distribution[pa] != setup.distribution[pb]
    requires Supported(setup.distribution[pa], agreed) && Supported(setup.distribution[pb], agreed)
    ensures Leads(setup, c, c') && asker in c'.nodes && D.Starts(c'.nodes[asker].memory, id)
    ensures OwnAt(setup, c', asker, id, agreed)
    ensures ServesAt(setup, c', asker, id, pa, agreed) && ServesAt(setup, c', asker, id, pb, agreed)
  {
    c' := LearnTwo(setup, c, asker, id, pa, pb, agreed);
    var known := D.At(c'.nodes[asker].memory.locations, id);
    assert known[setup.distribution[pa]] == pa && known[setup.distribution[pb]] == pb;
    forall sid | Located(c', asker, id, sid, asker)
      ensures AtPoint(c'.nodes[asker], agreed) && Supported(setup.distribution[asker], agreed)
    {
      assert known[sid] == asker;
    }
  }

  lemma ReachedAnswer(setup: Setup, c: Cluster, asker: PeerId, agreed: History, id: Vid, pa: PeerId, pb: PeerId)
      returns (c': Cluster)
    requires Reached(setup, c) && asker in c.nodes && D.Starts(c.nodes[asker].memory, id)
    requires OperandsExist(agreed) && id in MockState(agreed) && OwnAt(setup, c, asker, id, agreed)
    requires ServesAt(setup, c, asker, id, pa, agreed) && ServesAt(setup, c, asker, id, pb, agreed)
    requires setup.distribution[pa] != setup.distribution[pb]
    ensures Reached(setup, c') && LastIs(c', asker, D.RecollectResponse(Ok((id, MockState(agreed)[id]))))
  {
    ReachedKeeps(setup, c);
    c' := AnswerComes(setup, c, asker, id, agreed, pa, pb);
    ReachedThen(setup, c, c');
  }
}
