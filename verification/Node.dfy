/**
 One peer: the behaviour and the data memory, joined by two queues.  The network, the consensus,
 the user and the processor are outside and may do anything at any time, except that the network
 gives ids only to requests it was asked to make.
 */
module Node {
  import opened Types
  import opened Behaviour
  import D = DataMemory
  import ReedSolomon
  import Requests

  type Assignment = seq<(PeerId, Sid)>

  datatype MemoryInput = Initialize(distribution: Assignment) | Event(event: D.InEvent)

  /** The data memory before and after a distribution was accepted. */
  datatype Module = Uninitialized | Ready(cfg: D.Config, state: D.State) {
    function Own(): Option<Sid> {
      if Uninitialized? then None else cfg.Assigned()
    }
  }

  /**
   Besides the two modules and the queues between them, two records of the past: all that the data
   memory emitted, and the distributions it was offered.
   */
  datatype Node = Node(
    memory: Module,
    input: seq<MemoryInput>,
    output: seq<D.OutEvent>,
    behaviour: State,
    emitted: seq<D.OutEvent>,
    offered: seq<Assignment>)

  const START: Node := Node(Uninitialized, [], [], Behaviour.INITIAL, [], [])

  datatype Step =
    /** a request of a peer, a response, and an id for a request of ours, from the network */
    | IncomingRequest(request: Request, waiter: Waiter)
    | NetworkResponse(id: RequestId, response: Response)
    | AssignedRequestId(id: RequestId, request: Request)
    /** an initialisation transaction */
    | InitializeTx(distribution: Assignment)
    /** any other event the behaviour forwards from consensus, user or instruction memory */
    | Forward(event: D.InEvent)
    /** the processor uses the memory bus */
    | Bus(event: D.InEvent)
    /** the data memory takes its next input */
    | MemoryTurn
    /** the behaviour takes the next output of the data memory */
    | BehaviourTurn

  predicate Forwarded(ev: D.InEvent) {
    || ev.PrepareService? || ev.StorageRequestTx? || ev.StoreConfirmed? || ev.ListRequested?
    || ev.RecollectRequest? || ev.PeerShardsActualized?
  }

  datatype Site = Site(code: ReedSolomon.Code, localId: PeerId) {
    ghost predicate Fits(ev: D.InEvent) {
      ev.PrepareService? ==> code.IsData(ev.data)
    }
  }

  ghost predicate Possible(site: Site, n: Node, step: Step) {
    match step
    case AssignedRequestId(_, request) => exists to :: Outgoing(request, to) in n.behaviour.made
    case Forward(ev) => Forwarded(ev) && site.Fits(ev)
    case Bus(ev) => ev.BusRead? || ev.BusWrite?
    case MemoryTurn => n.input != [] && !(n.memory.Ready? && n.memory.state.stopped)
    case BehaviourTurn => n.output != []
    case _ => true
  }

  function Emits(log: D.Log): seq<D.OutEvent> {
    if log == [] then [] else
    var last := log[|log| - 1];
    Emits(log[..|log| - 1]) + if last.Emit? then [last.out] else []
  }

  ghost predicate FitsInput(site: Site, input: MemoryInput) {
    input.Event? ==> site.Fits(input.event)
  }

  /** The data memory takes an event; before it is initialised it throws away everything else. */
  function Handled(n: Node, ev: D.InEvent): Node
    requires n.memory.Ready? ==> n.memory.cfg.Wide() && D.Fits(n.memory.cfg, ev)
  {
    if n.memory.Uninitialized? then
      n
    else
      var e := D.Step(n.memory.cfg, n.memory.state, ev);
      n.(memory := n.memory.(state := e.state), output := n.output + Emits(e.actions),
        emitted := n.emitted + Emits(e.actions))
  }

  /** A distribution is offered: the first accepted one initialises the memory, later ones are ignored. */
  function Offered(site: Site, n: Node, distribution: Assignment): Node {
    var n' := n.(offered := n.offered + [distribution]);
    if n.memory.Uninitialized? && D.VerifyDistribution(site.code, D.Collect(distribution)) then
      n'.(memory := Ready(D.Config(site.code, site.localId, D.Collect(distribution)), D.INITIAL),
          output := n.output + [D.Initialized],
          emitted := n.emitted + [D.Initialized])
    else
      n'
  }

  /** What holds of configuration and queue so that every step makes sense. */
  ghost predicate WellFormed(site: Site, n: Node) {
    && site.code.Valid()
    && (n.memory.Ready? ==> n.memory.cfg.code == site.code && n.memory.cfg.localId == site.localId)
    && (forall input :: input in n.input ==> FitsInput(site, input))
  }

  ghost function Next(site: Site, n: Node, step: Step): Node
    requires WellFormed(site, n) && Possible(site, n, step)
  {
    match step
    case IncomingRequest(request, waiter) =>
      n.(input := n.input + [Event(EventFor(request))], behaviour := Incoming(n.behaviour, request, waiter))
    case NetworkResponse(id, response) =>
      n.(input := n.input + Events(ResponseEvents(n.behaviour, id, response)))
    case AssignedRequestId(id, request) =>
      n.(behaviour := n.behaviour.(pending := n.behaviour.pending[id := request]))
    case InitializeTx(distribution) => n.(input := n.input + [Initialize(distribution)])
    case Forward(ev) => n.(input := n.input + [Event(ev)])
    case Bus(ev) => if n.memory.Ready? then Handled(n, ev) else n
    case MemoryTurn =>
      assert n.input[0] in n.input;
      var rest := n.(input := n.input[1..]);
      (match n.input[0]
       case Initialize(distribution) => Offered(site, rest, distribution)
       case Event(ev) => Handled(rest, ev))
    case BehaviourTurn =>
      n.(output := n.output[1..], behaviour := MemoryOutput(n.behaviour, n.output[0]))
  }

  function Events(events: seq<D.InEvent>): seq<MemoryInput> {
    seq(|events|, i requires 0 <= i < |events| => Event(events[i]))
  }

  lemma NextWellFormed(site: Site, n: Node, step: Step)
    requires WellFormed(site, n) && Possible(site, n, step)
    ensures WellFormed(site, Next(site, n, step))
  {
  }

  /** All steps in turn, if each is possible where it is taken. */
  ghost function RunFrom(site: Site, n: Node, steps: seq<Step>): (r: Option<Node>)
    requires WellFormed(site, n)
    ensures r.Some? ==> WellFormed(site, r.value)
  {
    if steps == [] then
      Some(n)
    else
      match RunFrom(site, n, steps[..|steps| - 1])
      case None => None
      case Some(before) =>
        var last := steps[|steps| - 1];
        if Possible(site, before, last) then
          NextWellFormed(site, before, last);
          Some(Next(site, before, last))
        else
          None
  }

  lemma RunSnoc(site: Site, n: Node, steps: seq<Step>, before: Node, step: Step)
    requires WellFormed(site, n) && RunFrom(site, n, steps) == Some(before) && Possible(site, before, step)
    ensures RunFrom(site, n, steps + [step]) == Some(Next(site, before, step))
  {
    assert (steps + [step])[..|steps|] == steps;
  }

  lemma QuietInput(site: Site, n: Node, step: Step)
    requires WellFormed(site, n) && Possible(site, n, step)
    ensures step.AssignedRequestId? || step.Bus? || step.BehaviourTurn? ==> Next(site, n, step).input == n.input
  {
  }

  /** A distribution recognised when nothing else waits is what the memory takes next. */
  lemma TakesOffer(site: Site, n: Node, distribution: Assignment)
    requires WellFormed(site, n) && n.input == [] && (n.memory.Ready? ==> !n.memory.state.stopped)
    ensures var mid := Next(site, n, InitializeTx(distribution));
      && WellFormed(site, mid) && Possible(site, mid, MemoryTurn)
      && Next(site, mid, MemoryTurn) == Offered(site, n, distribution)
  {
    var mid := Next(site, n, InitializeTx(distribution));
    NextWellFormed(site, n, InitializeTx(distribution));
    assert mid.input == [Initialize(distribution)] && mid.(input := mid.input[1..]) == n;
  }

  // ---------- what an initialised memory has handled ----------

  /** The event that a step makes an initialised memory handle. */
  function HandledBy(n: Node, step: Step): seq<D.InEvent> {
    if n.memory.Uninitialized? then []
    else if step.Bus? then [step.event]
    else if step.MemoryTurn? && n.input != [] && n.input[0].Event? then [n.input[0].event]
    else []
  }

  ghost function HandledEvents(site: Site, steps: seq<Step>): seq<D.InEvent>
    requires site.code.Valid() && RunFrom(site, START, steps).Some?
  {
    if steps == [] then [] else
    var k := |steps| - 1;
    HandledEvents(site, steps[..k]) + HandledBy(RunFrom(site, START, steps[..k]).value, steps[k])
  }

  // ---------- only the assigned shard ----------

  /** A serve request of ours asks for the assigned shard. */
  predicate AsksOwn(own: Option<Sid>, request: Request) {
    request.ServeShard? ==> own == Some(request.full.sid)
  }

  predicate OwnOutput(own: Option<Sid>, out: D.OutEvent) {
    out.ServeShardRequest? ==> own == Some(out.full.sid)
  }

  predicate OwnEvent(own: Option<Sid>, ev: D.InEvent) {
    ev.ServedShard? ==> own == Some(ev.full.sid)
  }

  predicate OwnInput(own: Option<Sid>, input: MemoryInput) {
    input.Event? ==> OwnEvent(own, input.event)
  }

  /** Every serve request on its way, every served shard and every stored shard is the assigned one. */
  ghost predicate SingleShard(n: Node) {
    var own := n.memory.Own();
    && (forall input :: input in n.input ==> OwnInput(own, input))
    && (forall out :: out in n.output ==> OwnOutput(own, out))
    && (forall m :: m in n.behaviour.made ==> AsksOwn(own, m.request))
    && (forall id :: id in n.behaviour.pending ==> AsksOwn(own, n.behaviour.pending[id]))
    && (n.memory.Ready? ==> D.OwnOnly(n.memory.cfg, n.memory.state))
  }

  ghost predicate OwnActions(own: Option<Sid>, log: D.Log) {
    forall i :: 0 <= i < |log| && log[i].Emit? ==> OwnOutput(own, log[i].out)
  }

  lemma MemoryStaysOwn(cfg: D.Config, s: D.State, ev: D.InEvent)
    requires cfg.Valid() && D.Fits(cfg, ev) && D.OwnOnly(cfg, s) && OwnEvent(cfg.Assigned(), ev)
    ensures D.OwnOnly(cfg, D.Step(cfg, s, ev).state)
  {
    if ev.RecollectRequest? {
      D.RecollectedKeeps(cfg, s, ev.id, ev.order);
    }
  }

  lemma MemoryAsksOwn(cfg: D.Config, s: D.State, ev: D.InEvent)
    requires cfg.Valid() && D.Fits(cfg, ev)
    ensures OwnActions(cfg.Assigned(), D.Step(cfg, s, ev).actions)
  {
    var log := D.Step(cfg, s, ev).actions;
    forall i | 0 <= i < |log| && log[i].Emit?
      ensures OwnOutput(cfg.Assigned(), log[i].out)
    {
      if log[i].out.ServeShardRequest? {
        Requests.ServeRequestIff(cfg, s, ev, log[i].out.full, log[i].out.peer);
      }
    }
  }

  lemma {:induction false} EmitsFrom(log: D.Log, out: D.OutEvent)
    ensures out in Emits(log) <==> D.Emit(out) in log
  {
    if log != [] {
      EmitsFrom(log[..|log| - 1], out);
    }
  }

  lemma HandledOwn(n: Node, ev: D.InEvent)
    requires n.memory.Ready? && n.memory.cfg.Valid() && D.Fits(n.memory.cfg, ev)
    requires SingleShard(n) && OwnEvent(n.memory.Own(), ev)
    ensures SingleShard(Handled(n, ev))
  {
    var e := D.Step(n.memory.cfg, n.memory.state, ev);
    MemoryStaysOwn(n.memory.cfg, n.memory.state, ev);
    MemoryAsksOwn(n.memory.cfg, n.memory.state, ev);
    forall out | out in Emits(e.actions)
      ensures OwnOutput(n.memory.Own(), out)
    {
      EmitsFrom(e.actions, out);
    }
  }

  /** Before initialisation nothing was asked for, so any assignment will do. */
  lemma OfferedOwn(site: Site, n: Node, distribution: Assignment)
    requires SingleShard(n)
    ensures SingleShard(Offered(site, n, distribution))
  {
  }

  lemma ResponseOwn(n: Node, id: RequestId, response: Response)
    requires SingleShard(n)
    ensures forall input :: input in Events(ResponseEvents(n.behaviour, id, response)) ==>
      OwnInput(n.memory.Own(), input)
  {
  }

  lemma BehaviourOwn(own: Option<Sid>, b: State, out: D.OutEvent)
    requires OwnOutput(own, out) && forall m :: m in b.made ==> AsksOwn(own, m.request)
    ensures forall m :: m in MemoryOutput(b, out).made ==> AsksOwn(own, m.request)
    ensures MemoryOutput(b, out).pending == b.pending
  {
  }

  lemma MemoryTurnOwn(site: Site, n: Node)
    requires WellFormed(site, n) && Possible(site, n, MemoryTurn) && SingleShard(n)
    ensures SingleShard(Next(site, n, MemoryTurn))
  {
    var rest := n.(input := n.input[1..]);
    assert n.input[0] in n.input;
    assert SingleShard(rest);
    if n.input[0].Initialize? {
      OfferedOwn(site, rest, n.input[0].distribution);
    } else if n.memory.Ready? {
      HandledOwn(rest, n.input[0].event);
    }
  }

  lemma StepOwn(site: Site, n: Node, step: Step)
    requires WellFormed(site, n) && Possible(site, n, step) && SingleShard(n)
    ensures SingleShard(Next(site, n, step))
  {
    match step
    case NetworkResponse(id, response) => ResponseOwn(n, id, response);
    case AssignedRequestId(id, request) =>
      var to :| Outgoing(request, to) in n.behaviour.made;
      assert AsksOwn(n.memory.Own(), Outgoing(request, to).request);
    case Bus(ev) =>
      if n.memory.Ready? {
        HandledOwn(n, ev);
      }
    case MemoryTurn => MemoryTurnOwn(site, n);
    case BehaviourTurn =>
      assert n.output[0] in n.output;
      BehaviourOwn(n.memory.Own(), n.behaviour, n.output[0]);
    case _ =>
  }

  /**
   In every run, every outstanding serve request and every stored shard has the id assigned to
   this peer, and an unassigned peer asks for nothing and stores nothing; so what the bus reads
   as "the first" shard of an id is the only one.
   */
  lemma {:induction false} SingleShardAlways(site: Site, steps: seq<Step>)
    requires site.code.Valid() && RunFrom(site, START, steps).Some?
    ensures SingleShard(RunFrom(site, START, steps).value)
  {
    if steps != [] {
      SingleShardAlways(site, steps[..|steps| - 1]);
      StepOwn(site, RunFrom(site, START, steps[..|steps| - 1]).value, steps[|steps| - 1]);
    }
  }

  lemma BusReadIsDetermined(site: Site, steps: seq<Step>, id: Vid, r: Option<Bytes>)
    requires site.code.Valid() && RunFrom(site, START, steps).Some? && RunFrom(site, START, steps).value.memory.Ready?
    ensures var m := RunFrom(site, START, steps).value.memory;
      D.ReadAnswer(m.state, id, r) <==>
        r == if id in D.OwnShards(m.cfg, m.state) then Some(D.OwnShards(m.cfg, m.state)[id]) else None
  {
    SingleShardAlways(site, steps);
    var m := RunFrom(site, START, steps).value.memory;
    D.ReadsOwnShard(m.cfg, m.state, id, r);
  }
}
