/**
 Shards that come from the network (src/behaviour/mod.rs), over whole runs of one node: each is the
 shard of a response that arrived, under the id of the shard that was requested, and none is lost,
 added or exchanged on the way into the data memory.
 */
module NetworkShards {
  import opened Types
  import opened Behaviour
  import opened Node
  import D = DataMemory

  // ---------- what the steps say ----------

  /** The request that the network module has given the id to, the last time it did. */
  function GivenTo(steps: seq<Step>, id: RequestId): Option<Request> {
    if steps == [] then None else
    var last := steps[|steps| - 1];
    if last.AssignedRequestId? && last.id == id then Some(last.request) else GivenTo(steps[..|steps| - 1], id)
  }

  /** What a response to `request` brings: only a response of its kind counts, its shard may be missing. */
  predicate Fits(request: Request, response: Response) {
    request.GetShard? <==> response.Got?
  }

  function Bring(request: Option<Request>, response: Response): seq<D.InEvent> {
    if request.None? || !Fits(request.value, response) then
      []
    else if request.value.GetShard? then
      [D.AssignedShard(request.value.full, response.shard)]
    else
      [D.ServedShard(request.value.full, response.shard)]
  }

  /** The shards that the network has brought, in order. */
  function Brought(steps: seq<Step>): seq<D.InEvent> {
    if steps == [] then [] else
    var k := |steps| - 1;
    Brought(steps[..k]) + BroughtBy(steps[..k], steps[k])
  }

  function BroughtBy(before: seq<Step>, step: Step): seq<D.InEvent> {
    if step.NetworkResponse? then Bring(GivenTo(before, step.id), step.response) else []
  }

  // ---------- what the node does with them ----------

  predicate IsShard(ev: D.InEvent) {
    ev.AssignedShard? || ev.ServedShard?
  }

  function ShardOnly(ev: D.InEvent): seq<D.InEvent> {
    if IsShard(ev) then [ev] else []
  }

  function ShardsAmong(events: seq<D.InEvent>): seq<D.InEvent> {
    if events == [] then [] else ShardsAmong(events[..|events| - 1]) + ShardOnly(events[|events| - 1])
  }

  function ShardsQueued(input: seq<MemoryInput>): seq<D.InEvent> {
    if input == [] then [] else (if input[0].Event? then ShardOnly(input[0].event) else []) + ShardsQueued(input[1..])
  }

  /** The shards taken by a memory that was not initialised yet. */
  ghost function ShardsLost(site: Site, steps: seq<Step>): seq<D.InEvent>
    requires site.code.Valid() && RunFrom(site, START, steps).Some?
  {
    if steps == [] then [] else
    var k := |steps| - 1;
    ShardsLost(site, steps[..k]) + ShardsLostBy(RunFrom(site, START, steps[..k]).value, steps[k])
  }

  function ShardsLostBy(n: Node, step: Step): seq<D.InEvent> {
    if n.memory.Uninitialized? && step.MemoryTurn? && n.input != [] && n.input[0].Event? then ShardOnly(n.input[0].event) else []
  }

  /** The table of pending requests is what the steps have made it. */
  ghost predicate PendingIs(n: Node, steps: seq<Step>) {
    forall id :: (if id in n.behaviour.pending then Some(n.behaviour.pending[id]) else None) == GivenTo(steps, id)
  }

  lemma StepPending(site: Site, n: Node, steps: seq<Step>, step: Step)
    requires WellFormed(site, n) && Possible(site, n, step) && PendingIs(n, steps)
    ensures PendingIs(Next(site, n, step), steps + [step])
  {
    assert (steps + [step])[..|steps|] == steps;
    if step.BehaviourTurn? {
      OutputKeepsPending(n.behaviour, n.output[0]);
    } else {
      PendingElsewhere(site, n, step);
    }
  }

  lemma OutputKeepsPending(b: State, out: D.OutEvent)
    ensures MemoryOutput(b, out).pending == b.pending
  {
  }

  lemma PendingElsewhere(site: Site, n: Node, step: Step)
    requires WellFormed(site, n) && Possible(site, n, step) && !step.BehaviourTurn?
    ensures Next(site, n, step).behaviour.pending ==
      if step.AssignedRequestId? then n.behaviour.pending[step.id := step.request] else n.behaviour.pending
  {
    assert step.MemoryTurn? ==> n.input[0] in n.input;
  }

  lemma {:induction false} PendingAlways(site: Site, steps: seq<Step>)
    requires site.code.Valid() && RunFrom(site, START, steps).Some?
    ensures PendingIs(RunFrom(site, START, steps).value, steps)
  {
    if steps != [] {
      var k := |steps| - 1;
      PendingAlways(site, steps[..k]);
      StepPending(site, RunFrom(site, START, steps[..k]).value, steps[..k], steps[k]);
      assert steps[..k] + [steps[k]] == steps;
    }
  }

  lemma {:induction false} QueuedAppend(a: seq<MemoryInput>, b: seq<MemoryInput>)
    ensures ShardsQueued(a + b) == ShardsQueued(a) + ShardsQueued(b)
  {
    if a == [] {
      assert a + b == b;
    } else {
      assert (a + b)[1..] == a[1..] + b;
      QueuedAppend(a[1..], b);
      Regroup(if a[0].Event? then ShardOnly(a[0].event) else [], ShardsQueued(a[1..]), ShardsQueued(b));
    }
  }

  lemma QueuedOne(input: MemoryInput)
    ensures ShardsQueued([input]) == if input.Event? then ShardOnly(input.event) else []
  {
    assert [input][1..] == [];
  }

  lemma AmongSnoc(events: seq<D.InEvent>, more: seq<D.InEvent>)
    requires |more| <= 1
    ensures ShardsAmong(events + more) == ShardsAmong(events) + ShardsAmong(more)
    ensures ShardsAmong(more) == if more == [] then [] else ShardOnly(more[0])
  {
    if more == [] {
      assert events + more == events;
    } else {
      assert (events + more)[..|events|] == events;
      assert more[..0] == [];
    }
  }

  /** A response is passed on as the table says, which is as the steps say. */
  lemma ResponseBrings(b: State, id: RequestId, response: Response)
    ensures ResponseEvents(b, id, response) == Bring(if id in b.pending then Some(b.pending[id]) else None, response)
    ensures ShardsQueued(Events(ResponseEvents(b, id, response))) == ResponseEvents(b, id, response)
  {
    var events := ResponseEvents(b, id, response);
    if events != [] {
      assert Events(events) == [Event(events[0])];
      QueuedOne(Event(events[0]));
    }
  }

  /** One step moves a shard along: brought, queued, taken too early or handled. */
  lemma StepMovesShards(site: Site, n: Node, steps: seq<Step>, step: Step)
    requires WellFormed(site, n) && Possible(site, n, step) && PendingIs(n, steps)
    ensures ShardsQueued(n.input) + BroughtBy(steps, step) ==
      ShardsLostBy(n, step) + ShardsAmong(HandledBy(n, step)) + ShardsQueued(Next(site, n, step).input)
  {
    if step.MemoryTurn? {
      TurnMovesShards(site, n);
    } else if step.NetworkResponse? {
      ResponseMovesShards(n, step.id, step.response);
    } else {
      OthersMoveNothing(site, n, step);
    }
  }

  lemma ResponseMovesShards(n: Node, id: RequestId, response: Response)
    ensures ShardsQueued(n.input + Events(ResponseEvents(n.behaviour, id, response))) ==
      ShardsQueued(n.input) + Bring(if id in n.behaviour.pending then Some(n.behaviour.pending[id]) else None, response)
  {
    ResponseBrings(n.behaviour, id, response);
    QueuedAppend(n.input, Events(ResponseEvents(n.behaviour, id, response)));
  }

  lemma NoShardQueued(input: seq<MemoryInput>, more: MemoryInput)
    requires more.Event? ==> !IsShard(more.event)
    ensures ShardsQueued(input + [more]) == ShardsQueued(input)
  {
    QueuedOne(more);
    QueuedAppend(input, [more]);
  }

  lemma OthersMoveNothing(site: Site, n: Node, step: Step)
    requires WellFormed(site, n) && Possible(site, n, step) && !step.MemoryTurn? && !step.NetworkResponse?
    ensures ShardsQueued(Next(site, n, step).input) == ShardsQueued(n.input)
    ensures ShardsLostBy(n, step) == [] && ShardsAmong(HandledBy(n, step)) == []
  {
    AmongSnoc([], HandledBy(n, step));
    match step
    case IncomingRequest(request, _) => NoShardQueued(n.input, Event(EventFor(request)));
    case InitializeTx(distribution) => NoShardQueued(n.input, Initialize(distribution));
    case Forward(ev) => NoShardQueued(n.input, Event(ev));
    case _ => QuietInput(site, n, step);
  }

  lemma TurnMovesShards(site: Site, n: Node)
    requires WellFormed(site, n) && Possible(site, n, MemoryTurn)
    ensures Next(site, n, MemoryTurn).input == n.input[1..]
    ensures ShardsQueued(n.input) ==
      ShardsLostBy(n, MemoryTurn) + ShardsAmong(HandledBy(n, MemoryTurn)) + ShardsQueued(n.input[1..])
  {
    assert n.input[0] in n.input;
    AmongSnoc([], HandledBy(n, MemoryTurn));
  }

  lemma {:induction false} NothingHandledBefore(site: Site, steps: seq<Step>)
    requires site.code.Valid() && RunFrom(site, START, steps).Some?
    ensures RunFrom(site, START, steps).value.memory.Uninitialized? ==> HandledEvents(site, steps) == []
  {
    if steps != [] {
      NothingHandledBefore(site, steps[..|steps| - 1]);
    }
  }

  /**
   In every run, the shards that the network brought, told from the steps alone, are in order those
   taken before initialisation, those handled and those still queued.  An id that was given to no
   request, or a response of the other kind, has brought nothing.
   */
  lemma {:induction false} ShardsAreConserved(site: Site, steps: seq<Step>)
    requires site.code.Valid() && RunFrom(site, START, steps).Some?
    ensures Brought(steps) ==
      ShardsLost(site, steps) + ShardsAmong(HandledEvents(site, steps)) + ShardsQueued(RunFrom(site, START, steps).value.input)
  {
    if steps != [] {
      var k := |steps| - 1;
      ShardsAreConserved(site, steps[..k]);
      PendingAlways(site, steps[..k]);
      NothingHandledBefore(site, steps[..k]);
      var before, events := RunFrom(site, START, steps[..k]).value, HandledEvents(site, steps[..k]);
      StepMovesShards(site, before, steps[..k], steps[k]);
      AmongSnoc(events, HandledBy(before, steps[k]));
      MovedAlong(ShardsLost(site, steps[..k]), ShardsAmong(events), ShardsQueued(before.input), BroughtBy(steps[..k], steps[k]),
                 ShardsLostBy(before, steps[k]), ShardsAmong(HandledBy(before, steps[k])),
                 ShardsQueued(RunFrom(site, START, steps).value.input));
    }
  }

  // ---------- what the sessions take ----------

  /** Step `k` is a response with this shard, under an id given to a request for it. */
  ghost predicate ArrivedAt(steps: seq<Step>, k: nat, request: Request, shard: Option<Bytes>) {
    && k < |steps| && steps[k].NetworkResponse? && steps[k].response.shard == shard
    && GivenTo(steps[..k], steps[k].id) == Some(request) && Fits(request, steps[k].response)
  }

  lemma {:induction false} BroughtHasArrived(steps: seq<Step>, request: Request, shard: Option<Bytes>)
    requires Bring(Some(request), if request.GetShard? then Got(shard) else Served(shard))[0] in Brought(steps)
    ensures exists k :: ArrivedAt(steps, k, request, shard)
  {
    var n := |steps| - 1;
    var ev := Bring(Some(request), if request.GetShard? then Got(shard) else Served(shard))[0];
    if ev in Brought(steps[..n]) {
      BroughtHasArrived(steps[..n], request, shard);
      var k: nat :| ArrivedAt(steps[..n], k, request, shard);
      assert steps[..n][..k] == steps[..k];
      assert ArrivedAt(steps, k, request, shard);
    } else {
      assert ev in BroughtBy(steps[..n], steps[n]);
      assert ArrivedAt(steps, n, request, shard);
    }
  }

  lemma {:induction false} HandledIsAmong(events: seq<D.InEvent>, ev: D.InEvent)
    requires ev in events && IsShard(ev)
    ensures ev in ShardsAmong(events)
  {
    if ev in events[..|events| - 1] {
      HandledIsAmong(events[..|events| - 1], ev);
    }
  }

  /**
   In every run, whatever shard a session was handed, and whatever fresh shard was stored, present or
   missing, is the shard of a response that arrived for a request of that very shard.
   */
  lemma HandledHasArrived(site: Site, steps: seq<Step>, request: Request, shard: Option<Bytes>)
    requires site.code.Valid() && RunFrom(site, START, steps).Some?
    requires (if request.GetShard? then D.AssignedShard(request.full, shard) else D.ServedShard(request.full, shard))
      in HandledEvents(site, steps)
    ensures exists k :: ArrivedAt(steps, k, request, shard)
  {
    var ev := if request.GetShard? then D.AssignedShard(request.full, shard) else D.ServedShard(request.full, shard);
    HandledIsAmong(HandledEvents(site, steps), ev);
    ShardsAreConserved(site, steps);
    BroughtHasArrived(steps, request, shard);
  }

  // ---------- everything the memory is given ----------

  /** What a step puts into the queue of the data memory. */
  function GivenBy(before: seq<Step>, step: Step): seq<MemoryInput> {
    match step
    case IncomingRequest(ServeShard(full), _) => [Event(D.ServeRequested(full))]
    case IncomingRequest(GetShard(full), _) => [Event(D.AssignedRequested(full))]
    case NetworkResponse(_, _) => Events(BroughtBy(before, step))
    case InitializeTx(distribution) => [Initialize(distribution)]
    case Forward(ev) => [Event(ev)]
    case _ => []
  }

  function Given(steps: seq<Step>): seq<MemoryInput> {
    if steps == [] then [] else
    var k := |steps| - 1;
    Given(steps[..k]) + GivenBy(steps[..k], steps[k])
  }

  /** What the data memory has taken, one input in each of its turns. */
  ghost function Taken(site: Site, steps: seq<Step>): seq<MemoryInput>
    requires site.code.Valid() && RunFrom(site, START, steps).Some?
  {
    if steps == [] then [] else
    var k := |steps| - 1;
    Taken(site, steps[..k]) + TakenBy(RunFrom(site, START, steps[..k]).value, steps[k])
  }

  function TakenBy(n: Node, step: Step): seq<MemoryInput> {
    if step.MemoryTurn? && n.input != [] then [n.input[0]] else []
  }

  lemma StepGives(site: Site, n: Node, steps: seq<Step>, step: Step)
    requires WellFormed(site, n) && Possible(site, n, step) && PendingIs(n, steps)
    ensures n.input + GivenBy(steps, step) == TakenBy(n, step) + Next(site, n, step).input
  {
    match step
    case MemoryTurn => TurnMovesShards(site, n);
    case NetworkResponse(id, response) => ResponseBrings(n.behaviour, id, response);
    case IncomingRequest(_, _) =>
    case InitializeTx(_) =>
    case Forward(_) =>
    case _ => QuietInput(site, n, step);
  }

  /**
   In every run, requests of peers, shards from the network, distributions and all that is forwarded
   are taken by the data memory in the order in which they came, none left out and none repeated.
   */
  lemma {:induction false} InputsInOrder(site: Site, steps: seq<Step>)
    requires site.code.Valid() && RunFrom(site, START, steps).Some?
    ensures Given(steps) == Taken(site, steps) + RunFrom(site, START, steps).value.input
  {
    if steps != [] {
      var k := |steps| - 1;
      InputsInOrder(site, steps[..k]);
      PendingAlways(site, steps[..k]);
      var before := RunFrom(site, START, steps[..k]).value;
      StepGives(site, before, steps[..k], steps[k]);
      Regroup(Taken(site, steps[..k]), before.input, GivenBy(steps[..k], steps[k]));
      Regroup(Taken(site, steps[..k]), TakenBy(before, steps[k]), RunFrom(site, START, steps).value.input);
    }
  }
}
