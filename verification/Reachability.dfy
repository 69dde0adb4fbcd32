/**
 Runs that exist: from any point a peer can catch up with what was handed out to it, and from the
 start all peers can carry out any commands together.
 */
module Reachability {
  import opened Types
  import opened ReedSolomon
  import opened Instructions
  import opened Processor
  import opened Histories
  import opened EndToEnd
  import D = DataMemory

  // ---------- runs put together ----------

  ghost predicate Leads(setup: Setup, c: Cluster, c': Cluster)
    requires setup.code.Valid()
  {
    exists steps :: RunFrom(setup, c, steps) == Some(c')
  }

  lemma {:induction false} RunAppend(setup: Setup, c: Cluster, a: seq<Step>, mid: Cluster, b: seq<Step>)
    requires setup.code.Valid() && RunFrom(setup, c, a) == Some(mid)
    ensures RunFrom(setup, c, a + b) == RunFrom(setup, mid, b)
  {
    if b == [] {
      assert a + b == a;
    } else {
      var rest, last := b[..|b| - 1], b[|b| - 1];
      RunAppend(setup, c, a, mid, rest);
      SameLastStep(setup, c, a + rest, mid, rest, last);
      LastApart(a, b);
    }
  }

  lemma LastApart<A>(a: seq<A>, b: seq<A>)
    requires b != []
    ensures a + b[..|b| - 1] + [b[|b| - 1]] == a + b && b[..|b| - 1] + [b[|b| - 1]] == b
  {
  }

  lemma SameLastStep(setup: Setup, c: Cluster, a: seq<Step>, c': Cluster, b: seq<Step>, step: Step)
    requires setup.code.Valid() && RunFrom(setup, c, a) == RunFrom(setup, c', b)
    ensures RunFrom(setup, c, a + [step]) == RunFrom(setup, c', b + [step])
  {
    assert (a + [step])[..|a|] == a && (b + [step])[..|b|] == b;
  }

  lemma Stays(setup: Setup, c: Cluster)
    requires setup.code.Valid()
    ensures Leads(setup, c, c)
  {
    assert RunFrom(setup, c, []) == Some(c);
  }

  lemma LeadsKeeps(setup: Setup, c: Cluster, c': Cluster)
    requires Invariant(setup, c) && Leads(setup, c, c')
    ensures Invariant(setup, c')
  {
    var steps :| RunFrom(setup, c, steps) == Some(c');
    RunKeeps(setup, c, steps);
  }

  lemma Then(setup: Setup, c: Cluster, mid: Cluster, c': Cluster)
    requires setup.code.Valid() && Leads(setup, c, mid) && Leads(setup, mid, c')
    ensures Leads(setup, c, c')
  {
    var a :| RunFrom(setup, c, a) == Some(mid);
    var b :| RunFrom(setup, mid, b) == Some(c');
    RunAppend(setup, c, a, mid, b);
    assert RunFrom(setup, c, a + b) == Some(c');
  }

  /** Only `peer` has changed, and no message is lost. */
  ghost predicate OnlyAt(c: Cluster, c': Cluster, peer: PeerId) {
    && c'.nodes.Keys == c.nodes.Keys && c.served <= c'.served && c.replies <= c'.replies
    && forall p :: p in c.nodes && p != peer ==> c'.nodes[p] == c.nodes[p]
  }

  lemma Take(setup: Setup, c: Cluster, step: Step) returns (c': Cluster)
    requires setup.code.Valid() && Enabled(setup, c, step)
    ensures Leads(setup, c, c') && OnlyAt(c, c', step.peer)
    ensures c'.nodes[step.peer] == NextNode(setup, c.nodes[step.peer], step)
    ensures step.Serve? ==> HandedOut(c.nodes[step.peer], Handled(setup, c.nodes[step.peer], step).actions) <= c'.served
    ensures step.Answer? ==> Sent(c.nodes[step.peer], Handled(setup, c.nodes[step.peer], step).actions) <= c'.replies
  {
    c' := Next(setup, c, step);
    var one: seq<Step> := [step];
    assert one[..0] == [];
    assert RunFrom(setup, c, one[..0]) == Some(c);
    assert RunFrom(setup, c, one) == Some(c');
  }

  // ---------- one peer catches up ----------

  /** The peer runs, its bus is drained, and it has carried out exactly `h`. */
  predicate AtPoint(node: Node, h: History) {
    Idle(node) && node.history == h
  }

  /** Nothing but the stored shards, the history and the log has changed. */
  predicate StorageOnly(node: Node, node': Node) {
    node'.memory == node.memory.(localStorage := node'.memory.localStorage) && node'.putting == node.putting
  }

  lemma DrainedOne(setup: Setup, node: Node, peer: PeerId)
    requires setup.code.Valid() && Able(setup, node, Drain(peer))
    ensures var node' := NextNode(setup, node, Drain(peer));
      && node'.writes == node.writes[1..] && node'.history == node.history
      && StorageOnly(node, node')
  {
    DrainIs(setup, node, peer);
  }

  lemma {:induction false} DrainAll(setup: Setup, c: Cluster, peer: PeerId) returns (c': Cluster)
    requires setup.code.Valid() && peer in c.nodes && !c.nodes[peer].memory.stopped
    ensures Leads(setup, c, c') && OnlyAt(c, c', peer)
    ensures AtPoint(c'.nodes[peer], c.nodes[peer].history) && StorageOnly(c.nodes[peer], c'.nodes[peer])
    decreases |c.nodes[peer].writes|
  {
    if c.nodes[peer].writes == [] {
      Stays(setup, c);
      c' := c;
    } else {
      DrainedOne(setup, c.nodes[peer], peer);
      var mid := Take(setup, c, Drain(peer));
      c' := DrainAll(setup, mid, peer);
      Then(setup, c, mid, c');
    }
  }

  lemma RunOne(setup: Setup, c: Cluster, peer: PeerId, program: Program) returns (c': Cluster)
    requires setup.code.Valid() && peer in c.nodes && Idle(c.nodes[peer])
    ensures Leads(setup, c, c') && OnlyAt(c, c', peer)
    ensures AtPoint(c'.nodes[peer], c.nodes[peer].history + [Execute(program)]) && StorageOnly(c.nodes[peer], c'.nodes[peer])
  {
    var writes := SomeEnumeration(WriteBack(program, D.OwnShards(setup.Of(peer), c.nodes[peer].memory)).context);
    var mid := Take(setup, c, RunProgram(peer, program, writes));
    c' := DrainAll(setup, mid, peer);
    Then(setup, c, mid, c');
  }

  /** The shard of `data` that `peer` stores has been handed out. */
  ghost predicate Supplied(setup: Setup, c: Cluster, peer: PeerId, id: Vid, data: Bytes) {
    && peer in setup.distribution && setup.distribution[peer] < setup.code.Total() && setup.code.IsData(data)
    && ServedTo(setup, peer, id, data) in c.served
  }

  function ServedTo(setup: Setup, peer: PeerId, id: Vid, data: Bytes): Served
    requires peer in setup.distribution && setup.distribution[peer] < setup.code.Total() && setup.code.IsData(data)
  {
    var sid := setup.distribution[peer];
    Served(D.Full(id, sid), setup.code.ShardOf(sid, data), data)
  }

  lemma StoreOne(setup: Setup, c: Cluster, peer: PeerId, id: Vid, data: Bytes) returns (c': Cluster)
    requires setup.code.Valid() && peer in c.nodes && Idle(c.nodes[peer]) && Supplied(setup, c, peer, id, data)
    ensures Leads(setup, c, c') && OnlyAt(c, c', peer)
    ensures AtPoint(c'.nodes[peer], c.nodes[peer].history + [Put(id, data)]) && StorageOnly(c.nodes[peer], c'.nodes[peer])
  {
    var served := ServedTo(setup, peer, id, data);
    StoredOne(setup, c.nodes[peer], peer, served);
    c' := Take(setup, c, Store(peer, served));
  }

  lemma StoredOne(setup: Setup, node: Node, peer: PeerId, served: Served)
    requires setup.code.Valid() && Able(setup, node, Store(peer, served))
    ensures var node' := NextNode(setup, node, Store(peer, served));
      AtPoint(node', node.history + [Put(served.full.id, served.data)]) && StorageOnly(node, node')
  {
    var e := D.Stored(node.memory, served.full, Some(served.shard));
    assert Handled(setup, node, Store(peer, served)) == e;
  }

  /** What the peer still has to carry out: the puts among it have been handed out to it. */
  ghost predicate Available(setup: Setup, c: Cluster, peer: PeerId, command: Command<Bytes>) {
    command.Put? ==> Supplied(setup, c, peer, command.id, command.data)
  }

  /** A running peer that has carried out the beginning of `agreed` and can carry out the rest. */
  ghost predicate Follows(setup: Setup, c: Cluster, peer: PeerId, agreed: History) {
    && peer in c.nodes && !c.nodes[peer].memory.stopped && c.nodes[peer].history <= agreed
    && forall i :: |c.nodes[peer].history| <= i < |agreed| ==> Available(setup, c, peer, agreed[i])
  }

  lemma CarryOut(setup: Setup, c: Cluster, peer: PeerId, command: Command<Bytes>) returns (c': Cluster)
    requires setup.code.Valid() && peer in c.nodes && Idle(c.nodes[peer]) && Available(setup, c, peer, command)
    ensures Leads(setup, c, c') && OnlyAt(c, c', peer)
    ensures AtPoint(c'.nodes[peer], c.nodes[peer].history + [command]) && StorageOnly(c.nodes[peer], c'.nodes[peer])
  {
    match command
    case Put(id, data) => c' := StoreOne(setup, c, peer, id, data);
    case Execute(program) => c' := RunOne(setup, c, peer, program);
  }

  lemma FollowsOn(setup: Setup, c: Cluster, c': Cluster, peer: PeerId, agreed: History)
    requires Follows(setup, c, peer, agreed) && OnlyAt(c, c', peer) && |c.nodes[peer].history| < |agreed|
    requires AtPoint(c'.nodes[peer], c.nodes[peer].history + [agreed[|c.nodes[peer].history|]])
    ensures Follows(setup, c', peer, agreed)
  {
    forall i | |c'.nodes[peer].history| <= i < |agreed|
      ensures Available(setup, c', peer, agreed[i])
    {
      assert Available(setup, c, peer, agreed[i]);
    }
  }

  /** A peer that follows comes to the end of `agreed`, and no other peer is changed by that. */
  lemma {:induction false} CatchUp(setup: Setup, c: Cluster, peer: PeerId, agreed: History) returns (c': Cluster)
    requires setup.code.Valid() && Follows(setup, c, peer, agreed)
    ensures Leads(setup, c, c') && OnlyAt(c, c', peer)
    ensures AtPoint(c'.nodes[peer], agreed) && StorageOnly(c.nodes[peer], c'.nodes[peer])
    decreases |agreed| - |c.nodes[peer].history|
  {
    c' := DrainAll(setup, c, peer);
    var n := |c.nodes[peer].history|;
    if n < |agreed| {
      assert Available(setup, c, peer, agreed[n]);
      var mid := CarryOut(setup, c', peer, agreed[n]);
      Then(setup, c, c', mid);
      FollowsOn(setup, c, mid, peer, agreed);
      c' := CatchUp(setup, mid, peer, agreed);
      Then(setup, c, mid, c');
    }
  }

  // ---------- all peers, from the start ----------

  /** Every peer has carried out exactly `h`, and no collection or location is known yet. */
  ghost predicate AllAt(c: Cluster, peers: set<PeerId>, h: History) {
    forall p :: p in peers ==> p in c.nodes && AtPoint(c.nodes[p], h) && Blank(c.nodes[p])
  }

  predicate Blank(node: Node) {
    node.memory.assembled == map[] && node.memory.locations == map[]
  }

  lemma {:induction false} RunAt(setup: Setup, c: Cluster, todo: set<PeerId>, h: History, program: Program)
      returns (c': Cluster)
    requires setup.code.Valid() && AllAt(c, todo, h)
    ensures Leads(setup, c, c') && c'.nodes.Keys == c.nodes.Keys && c.served <= c'.served
    ensures AllAt(c', todo, h + [Execute(program)])
    ensures forall p :: p in c.nodes && p !in todo ==> c'.nodes[p] == c.nodes[p]
    decreases |todo|
  {
    if todo == {} {
      Stays(setup, c);
      c' := c;
    } else {
      var peer :| peer in todo;
      var mid := RunOne(setup, c, peer, program);
      c' := RunAt(setup, mid, todo - {peer}, h, program);
      Then(setup, c, mid, c');
    }
  }

  /** The peer hands out every shard of `data` under `id`. */
  ghost predicate Serving(setup: Setup, c: Cluster, author: PeerId, id: Vid, data: Bytes) {
    && author in c.nodes && !c.nodes[author].memory.stopped && setup.code.IsData(data)
    && Lookup(c.nodes[author].putting, id) == Some(data)
    && Lookup(c.nodes[author].memory.toDistribute, id) == Some(setup.code.Encoded(data))
  }

  lemma PutOne(setup: Setup, c: Cluster, author: PeerId, id: Vid, data: Bytes) returns (c': Cluster)
    requires setup.code.Valid() && author in c.nodes && Idle(c.nodes[author]) && setup.code.IsData(data)
    ensures Leads(setup, c, c') && OnlyAt(c, c', author) && Serving(setup, c', author, id, data)
    ensures AtPoint(c'.nodes[author], c.nodes[author].history)
    ensures Blank(c.nodes[author]) ==> Blank(c'.nodes[author])
  {
    c' := Take(setup, c, PutData(author, id, data));
    assert c.nodes[author].history + [] == c.nodes[author].history;
  }

  lemma StoreOwnOne(setup: Setup, c: Cluster, author: PeerId, id: Vid, data: Bytes) returns (c': Cluster)
    requires setup.Valid() && author in setup.distribution
    requires Serving(setup, c, author, id, data) && Idle(c.nodes[author])
    ensures Leads(setup, c, c') && OnlyAt(c, c', author) && Serving(setup, c', author, id, data)
    ensures AtPoint(c'.nodes[author], c.nodes[author].history + [Put(id, data)])
    ensures Blank(c.nodes[author]) ==> Blank(c'.nodes[author])
  {
    setup.ShardInRange(author);
    StoredOwn(setup, c.nodes[author], author, id, data);
    c' := Take(setup, c, StoreOwn(author, id));
  }

  lemma StoredOwn(setup: Setup, node: Node, author: PeerId, id: Vid, data: Bytes)
    requires setup.code.Valid() && author in setup.distribution && setup.distribution[author] < setup.code.Total()
    requires Idle(node) && setup.code.IsData(data) && Lookup(node.putting, id) == Some(data)
    requires Lookup(node.memory.toDistribute, id) == Some(setup.code.Encoded(data))
    ensures var node' := NextNode(setup, node, StoreOwn(author, id));
      AtPoint(node', node.history + [Put(id, data)]) && StorageOnly(node, node')
  {
    var full := D.Full(id, setup.distribution[author]);
    var found := D.Get(node.memory.toDistribute, full);
    assert found.Some?;
    assert Handled(setup, node, StoreOwn(author, id)) == D.Stored(node.memory, full, found);
  }

  lemma ServeOne(setup: Setup, c: Cluster, author: PeerId, peer: PeerId, id: Vid, data: Bytes) returns (c': Cluster)
    requires setup.Valid() && peer in setup.distribution && Serving(setup, c, author, id, data)
    ensures Leads(setup, c, c') && OnlyAt(c, c', author) && Serving(setup, c', author, id, data)
    ensures Supplied(setup, c', peer, id, data)
    ensures c'.nodes[author] == c.nodes[author].(log := c'.nodes[author].log)
  {
    setup.ShardInRange(peer);
    var sid := setup.distribution[peer];
    HandsOutOne(setup, c.nodes[author], author, D.Full(id, sid), data);
    c' := Take(setup, c, Serve(author, D.Full(id, sid)));
  }

  lemma HandsOutOne(setup: Setup, node: Node, author: PeerId, full: D.FullShardId, data: Bytes)
    requires setup.code.Valid() && setup.code.IsData(data) && full.sid < setup.code.Total() && !node.memory.stopped
    requires Lookup(node.putting, full.id) == Some(data)
    requires Lookup(node.memory.toDistribute, full.id) == Some(setup.code.Encoded(data))
    ensures var step := Serve(author, full);
      && HandedOut(node, Handled(setup, node, step).actions) == {Served(full, setup.code.ShardOf(full.sid, data), data)}
      && NextNode(setup, node, step) == node.(log := NextNode(setup, node, step).log)
  {
    assert D.Get(node.memory.toDistribute, full) == Some(setup.code.ShardOf(full.sid, data));
    assert node.history + [] == node.history;
  }

  lemma SupplyOne(setup: Setup, c: Cluster, author: PeerId, peer: PeerId, id: Vid, data: Bytes) returns (c': Cluster)
    requires setup.Valid() && peer in setup.distribution && Serving(setup, c, author, id, data)
    requires peer != author && peer in c.nodes && Idle(c.nodes[peer])
    ensures Leads(setup, c, c') && c'.nodes.Keys == c.nodes.Keys && Serving(setup, c', author, id, data)
    ensures AtPoint(c'.nodes[peer], c.nodes[peer].history + [Put(id, data)]) && StorageOnly(c.nodes[peer], c'.nodes[peer])
    ensures c'.nodes[author] == c.nodes[author].(log := c'.nodes[author].log)
    ensures forall p :: p in c.nodes && p != peer && p != author ==> c'.nodes[p] == c.nodes[p]
  {
    var mid := ServeOne(setup, c, author, peer, id, data);
    c' := StoreOne(setup, mid, peer, id, data);
    Then(setup, c, mid, c');
  }

  lemma {:induction false} StoreAt(
      setup: Setup, c: Cluster, todo: set<PeerId>, author: PeerId, h: History, id: Vid, data: Bytes) returns (c': Cluster)
    requires setup.Valid() && todo <= setup.distribution.Keys && author !in todo
    requires Serving(setup, c, author, id, data) && AllAt(c, todo, h)
    ensures Leads(setup, c, c') && c'.nodes.Keys == c.nodes.Keys && Serving(setup, c', author, id, data)
    ensures AllAt(c', todo, h + [Put(id, data)])
    ensures c'.nodes[author] == c.nodes[author].(log := c'.nodes[author].log)
    ensures forall p :: p in c.nodes && p !in todo && p != author ==> c'.nodes[p] == c.nodes[p]
    decreases |todo|
  {
    if todo == {} {
      Stays(setup, c);
      c' := c;
    } else {
      var peer :| peer in todo;
      var mid := SupplyOne(setup, c, author, peer, id, data);
      c' := StoreAt(setup, mid, todo - {peer}, author, h, id, data);
      Then(setup, c, mid, c');
    }
  }

  /** The author puts data, and it and the peers in `todo` store their shards of it. */
  lemma PutAt(setup: Setup, c: Cluster, todo: set<PeerId>, author: PeerId, h: History, id: Vid, data: Bytes)
      returns (c': Cluster)
    requires setup.Valid() && todo <= setup.distribution.Keys && author !in todo && author in setup.distribution
    requires setup.code.IsData(data) && AllAt(c, todo + {author}, h)
    ensures Leads(setup, c, c') && c'.nodes.Keys == c.nodes.Keys && Serving(setup, c', author, id, data)
    ensures AllAt(c', todo + {author}, h + [Put(id, data)])
    ensures forall p :: p in c.nodes && p !in todo + {author} ==> c'.nodes[p] == c.nodes[p]
  {
    assert author in c.nodes;
    var put := PutOne(setup, c, author, id, data);
    var own := StoreOwnOne(setup, put, author, id, data);
    Then(setup, c, put, own);
    c' := StoreAt(setup, own, todo, author, h, id, data);
    Then(setup, c, own, c');
  }

  lemma OneMoreEverywhere(setup: Setup, c: Cluster, author: PeerId, h: History, command: Command<Bytes>)
      returns (c': Cluster)
    requires setup.Valid() && c.nodes.Keys == setup.distribution.Keys && author in c.nodes
    requires Fitting(setup.code, command)
    requires AllAt(c, c.nodes.Keys, h)
    ensures Leads(setup, c, c') && c'.nodes.Keys == c.nodes.Keys && AllAt(c', c'.nodes.Keys, h + [command])
  {
    match command
    case Put(id, data) =>
      var others := c.nodes.Keys - {author};
      assert others + {author} == c.nodes.Keys;
      c' := PutAt(setup, c, others, author, h, id, data);
    case Execute(program) => c' := RunAt(setup, c, c.nodes.Keys, h, program);
  }

  lemma StartReached(setup: Setup) returns (c: Cluster)
    requires setup.Valid()
    ensures Reached(setup, c) && c.nodes.Keys == setup.distribution.Keys && AllAt(c, c.nodes.Keys, [])
  {
    c := Start(setup);
    assert RunFrom(setup, Start(setup), []) == Some(c);
  }

  /**
   Whatever commands are agreed on, and whoever puts the data, there is a run after which every peer
   has carried out all of them, in order.
   */
  lemma {:induction false} AllReach(setup: Setup, author: PeerId, h: History) returns (c: Cluster)
    requires setup.Valid() && author in setup.distribution && AllFitting(setup.code, h)
    ensures Reached(setup, c) && c.nodes.Keys == setup.distribution.Keys && AllAt(c, c.nodes.Keys, h)
  {
    if h == [] {
      c := StartReached(setup);
    } else {
      var rest, last := h[..|h| - 1], h[|h| - 1];
      LastFits(setup.code, h);
      var before := AllReach(setup, author, rest);
      c := ReachOneMore(setup, author, before, rest, last);
    }
  }

  lemma LastFits(code: Code, h: History)
    requires h != [] && AllFitting(code, h)
    ensures AllFitting(code, h[..|h| - 1]) && Fitting(code, h[|h| - 1]) && h[..|h| - 1] + [h[|h| - 1]] == h
  {
  }

  lemma ReachOneMore(setup: Setup, author: PeerId, c: Cluster, h: History, command: Command<Bytes>)
      returns (c': Cluster)
    requires Reached(setup, c) && c.nodes.Keys == setup.distribution.Keys && AllAt(c, c.nodes.Keys, h)
    requires author in setup.distribution && Fitting(setup.code, command)
    ensures Reached(setup, c') && c'.nodes.Keys == setup.distribution.Keys && AllAt(c', c'.nodes.Keys, h + [command])
  {
    c' := OneMoreEverywhere(setup, c, author, h, command);
    ReachedThen(setup, c, c');
  }

  lemma ReachedThen(setup: Setup, c: Cluster, c': Cluster)
    requires Reached(setup, c) && Leads(setup, c, c')
    ensures Reached(setup, c')
  {
    var a :| RunFrom(setup, Start(setup), a) == Some(c);
    var b :| RunFrom(setup, c, b) == Some(c');
    RunAppend(setup, Start(setup), a, c, b);
    assert RunFrom(setup, Start(setup), a + b) == Some(c');
  }
}
