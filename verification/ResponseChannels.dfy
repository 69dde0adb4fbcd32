/** Every request of a peer is answered once, over whole runs of one node (src/behaviour/mod.rs). */
module ResponseChannels {
  import opened Types
  import opened Behaviour
  import opened Node
  import D = DataMemory

  /** The channels on which `request` arrived, in order. */
  function Arrivals(steps: seq<Step>, request: Request): seq<Waiter> {
    if steps == [] then [] else
    Arrivals(steps[..|steps| - 1], request) + Arrival(steps[|steps| - 1], request)
  }

  function Arrival(step: Step, request: Request): seq<Waiter> {
    if step.IncomingRequest? && step.request == request then [step.waiter] else []
  }

  /** The channels on which `request` was answered, in order. */
  function Answered(answers: seq<Answer>, request: Request): seq<Waiter> {
    if answers == [] then [] else
    var last := answers[|answers| - 1];
    Answered(answers[..|answers| - 1], request) + if last.request == request then [last.waiter] else []
  }

  lemma {:induction false} AnsweredAppend(a: seq<Answer>, b: seq<Answer>, request: Request)
    ensures Answered(a + b, request) == Answered(a, request) + Answered(b, request)
  {
    if b == [] {
      assert a + b == a;
    } else {
      assert (a + b)[..|a + b| - 1] == a + b[..|b| - 1];
      AnsweredAppend(a, b[..|b| - 1], request);
    }
  }

  lemma {:induction false} AnsweredAll(of: Request, waiters: seq<Waiter>, response: Response, request: Request)
    ensures Answered(AnswerAll(of, waiters, response), request) == if of == request then waiters else []
  {
    if waiters != [] {
      var n := |waiters| - 1;
      var rest, last := AnswerAll(of, waiters[..n], response), Answer(of, waiters[n], response);
      AnsweredAll(of, waiters[..n], response, request);
      AnsweredSnoc(rest, last, request);
      assert waiters == waiters[..n] + [waiters[n]];
    }
  }

  lemma AnsweredSnoc(answers: seq<Answer>, a: Answer, request: Request)
    ensures Answered(answers + [a], request) == Answered(answers, request) + if a.request == request then [a.waiter] else []
  {
    assert (answers + [a])[..|answers|] == answers;
  }

  /** Answered channels, then waiting ones. */
  function Ledger(b: State, request: Request): seq<Waiter> {
    Answered(b.answers, request) + Waiting(b, request)
  }

  lemma RespondLedger(b: State, of: Request, response: Response, request: Request)
    ensures Ledger(Respond(b, of, response), request) == Ledger(b, request)
  {
    AnsweredAppend(b.answers, AnswerAll(of, Waiting(b, of), response), request);
    AnsweredAll(of, Waiting(b, of), response, request);
  }

  lemma OutputLedger(b: State, out: D.OutEvent, request: Request)
    ensures Ledger(MemoryOutput(b, out), request) == Ledger(b, request)
  {
    match out
    case ServeShardResponse(full, shard) => RespondLedger(b, ServeShard(full), Served(shard), request);
    case AssignedResponse(full, shard) => RespondLedger(b, GetShard(full), Got(shard), request);
    case _ =>
  }

  lemma StepLedger(site: Site, n: Node, step: Step, request: Request)
    requires WellFormed(site, n) && Possible(site, n, step)
    ensures Ledger(Next(site, n, step).behaviour, request) == Ledger(n.behaviour, request) + Arrival(step, request)
  {
    if step.BehaviourTurn? {
      OutputLedger(n.behaviour, n.output[0], request);
    } else if step.IncomingRequest? {
      IncomingLedger(n.behaviour, step.request, step.waiter, request);
    }
  }

  lemma IncomingLedger(b: State, of: Request, waiter: Waiter, request: Request)
    ensures Ledger(Incoming(b, of, waiter), request) == Ledger(b, request) + if of == request then [waiter] else []
  {
  }

  /**
   In every run and for every request, the channels on which it arrived are, in order, those that
   were answered and then those that still wait: none is answered twice and none is forgotten.
   */
  lemma {:induction false} EachChannelOnce(site: Site, steps: seq<Step>, request: Request)
    requires site.code.Valid() && RunFrom(site, START, steps).Some?
    ensures var b := RunFrom(site, START, steps).value.behaviour;
      Arrivals(steps, request) == Answered(b.answers, request) + Waiting(b, request)
  {
    if steps != [] {
      EachChannelOnce(site, steps[..|steps| - 1], request);
      StepLedger(site, RunFrom(site, START, steps[..|steps| - 1]).value, steps[|steps| - 1], request);
    }
  }

  // ---------- the answer is the data memory's ----------

  /** What the data memory says when it answers `request`. */
  function Reply(request: Request, shard: Option<Bytes>): D.OutEvent {
    match request
    case ServeShard(full) => D.ServeShardResponse(full, shard)
    case GetShard(full) => D.AssignedResponse(full, shard)
  }

  /** The answer carries a reply that the data memory gave to the same request. */
  predicate Genuine(emitted: seq<D.OutEvent>, a: Answer) {
    && (a.request.ServeShard? <==> a.response.Served?)
    && Reply(a.request, a.response.shard) in emitted
  }

  ghost predicate AllGenuine(n: Node) {
    && (forall a :: a in n.behaviour.answers ==> Genuine(n.emitted, a))
    && (forall out :: out in n.output ==> out in n.emitted)
  }

  lemma {:induction false} AnswerAllGenuine(emitted: seq<D.OutEvent>, request: Request, waiters: seq<Waiter>,
        response: Response)
    requires request.ServeShard? <==> response.Served?
    requires Reply(request, response.shard) in emitted
    ensures forall a :: a in AnswerAll(request, waiters, response) ==> Genuine(emitted, a)
  {
    if waiters != [] {
      AnswerAllGenuine(emitted, request, waiters[..|waiters| - 1], response);
    }
  }

  lemma OutputGenuine(emitted: seq<D.OutEvent>, b: State, out: D.OutEvent)
    requires out in emitted && forall a :: a in b.answers ==> Genuine(emitted, a)
    ensures forall a :: a in MemoryOutput(b, out).answers ==> Genuine(emitted, a)
  {
    match out
    case ServeShardResponse(full, shard) =>
      AnswerAllGenuine(emitted, ServeShard(full), Waiting(b, ServeShard(full)), Served(shard));
    case AssignedResponse(full, shard) =>
      AnswerAllGenuine(emitted, GetShard(full), Waiting(b, GetShard(full)), Got(shard));
    case _ =>
  }

  lemma StepGenuine(site: Site, n: Node, step: Step)
    requires WellFormed(site, n) && Possible(site, n, step) && AllGenuine(n)
    ensures AllGenuine(Next(site, n, step))
  {
    if step.BehaviourTurn? {
      OutputGenuine(n.emitted, n.behaviour, n.output[0]);
    } else {
      EmittedGrows(site, n, step);
    }
  }

  /** Outside a turn of the behaviour, answers stay and what is emitted is also queued. */
  lemma EmittedGrows(site: Site, n: Node, step: Step)
    requires WellFormed(site, n) && Possible(site, n, step) && !step.BehaviourTurn?
    ensures var n' := Next(site, n, step);
      && n'.behaviour.answers == n.behaviour.answers
      && n.emitted <= n'.emitted
      && (forall out :: out in n'.output ==> out in n.output || out in n'.emitted)
  {
  }

  /** In every run, each answer sent is a reply the data memory gave to that same request. */
  lemma {:induction false} AnswersAreGenuine(site: Site, steps: seq<Step>)
    requires site.code.Valid() && RunFrom(site, START, steps).Some?
    ensures AllGenuine(RunFrom(site, START, steps).value)
  {
    if steps != [] {
      AnswersAreGenuine(site, steps[..|steps| - 1]);
      StepGenuine(site, RunFrom(site, START, steps[..|steps| - 1]).value, steps[|steps| - 1]);
    }
  }

  // ---------- nobody waits in vain ----------

  /** The data memory has still to take the request, or its reply is on the way back. */
  ghost predicate InFlight(n: Node, request: Request) {
    || Event(EventFor(request)) in n.input
    || exists shard :: Reply(request, shard) in n.output
  }

  /** A request that waits and is not in flight was never handled; and only then no reply was given. */
  ghost predicate Attended(n: Node, handled: seq<D.InEvent>, request: Request) {
    && (Waiting(n.behaviour, request) != [] && EventFor(request) in handled ==> InFlight(n, request))
    && (EventFor(request) !in handled ==> forall shard :: Reply(request, shard) !in n.emitted)
    && (n.memory.Uninitialized? ==> handled == [])
  }

  lemma StaysInFlight(n: Node, n': Node, request: Request)
    requires InFlight(n, request)
    requires Event(EventFor(request)) in n.input ==> Event(EventFor(request)) in n'.input
    requires forall out :: out in n.output ==> out in n'.output
    ensures InFlight(n', request)
  {
  }

  /** A step that takes nothing from the queues, lets nobody new wait and emits no reply. */
  lemma MoreTraffic(n: Node, n': Node, handled: seq<D.InEvent>, handled': seq<D.InEvent>, request: Request)
    requires Attended(n, handled, request) && n'.behaviour.processed == n.behaviour.processed
    requires n.input <= n'.input && n.output <= n'.output
    requires forall shard :: Reply(request, shard) in n'.emitted ==> Reply(request, shard) in n.emitted
    requires EventFor(request) in handled <==> EventFor(request) in handled'
    requires n'.memory.Uninitialized? ==> handled' == []
    ensures Attended(n', handled', request)
  {
    if InFlight(n, request) {
      StaysInFlight(n, n', request);
    }
  }

  lemma IncomingAttended(n: Node, handled: seq<D.InEvent>, of: Request, waiter: Waiter, request: Request)
    requires Attended(n, handled, request)
    ensures Attended(n.(input := n.input + [Event(EventFor(of))], behaviour := Incoming(n.behaviour, of, waiter)), handled, request)
  {
    var n' := n.(input := n.input + [Event(EventFor(of))], behaviour := Incoming(n.behaviour, of, waiter));
    if InFlight(n, request) {
      StaysInFlight(n, n', request);
    }
    if of == request {
      assert n'.input[|n.input|] == Event(EventFor(request));
    }
  }

  lemma ResponsesAskNothing(b: State, id: RequestId, response: Response, request: Request)
    ensures forall i :: 0 <= i < |ResponseEvents(b, id, response)| ==>
      ResponseEvents(b, id, response)[i] != EventFor(request)
  {
  }

  /** A reply for every request taken. */
  lemma TakenIsReplied(cfg: D.Config, s: D.State, request: Request)
    requires cfg.Valid() && !s.stopped
    ensures exists shard :: Reply(request, shard) in Emits(D.Step(cfg, s, EventFor(request)).actions)
  {
    var e := D.Step(cfg, s, EventFor(request));
    var shard := if request.ServeShard? then D.Get(s.toDistribute, request.full) else D.Get(s.localStorage, request.full);
    assert e.actions == [D.Emit(Reply(request, shard))];
    EmitsFrom(e.actions, Reply(request, shard));
  }

  /** And only then. */
  lemma RepliedWasAsked(cfg: D.Config, s: D.State, ev: D.InEvent, request: Request, shard: Option<Bytes>)
    requires cfg.Valid() && D.Fits(cfg, ev) && ev != EventFor(request)
    ensures Reply(request, shard) !in Emits(D.Step(cfg, s, ev).actions)
  {
    EmitsFrom(D.Step(cfg, s, ev).actions, Reply(request, shard));
    if ev.RecollectRequest? && !s.stopped {
      CollectingReplies(cfg, s, ev.id, ev.order, request, shard);
    } else if ev.AssignedShard? && !s.stopped {
      CollectedReplies(cfg, s, ev.full, ev.shard, request, shard);
    } else if ev.StoreConfirmed? && !s.stopped {
      ConfirmedReplies(cfg, s, ev.full, ev.location, request, shard);
    }
  }

  lemma CollectedReplies(
      cfg: D.Config, s: D.State, full: D.FullShardId, got: Option<Bytes>, request: Request, shard: Option<Bytes>)
    requires cfg.Wide()
    ensures D.Emit(Reply(request, shard)) !in D.Collected(cfg, s, full, got).actions
  {
  }

  lemma ConfirmedReplies(
      cfg: D.Config, s: D.State, full: D.FullShardId, location: PeerId, request: Request, shard: Option<Bytes>)
    ensures D.Emit(Reply(request, shard)) !in D.Confirmed(cfg, s, full, location).actions
  {
  }

  lemma {:induction false} AskingReplies(
      cfg: D.Config, s: D.State, id: Vid, known: map<Sid, PeerId>, order: seq<Sid>, request: Request, shard: Option<Bytes>)
    requires cfg.Wide()
    ensures D.Emit(Reply(request, shard)) !in D.Asked(cfg, s, id, known, order).actions
  {
    if order != [] {
      AskingReplies(cfg, s, id, known, order[..|order| - 1], request, shard);
    }
  }

  lemma CollectingReplies(cfg: D.Config, s: D.State, id: Vid, order: seq<Sid>, request: Request, shard: Option<Bytes>)
    requires cfg.Wide()
    ensures D.Emit(Reply(request, shard)) !in D.Recollected(cfg, s, id, order).actions
  {
    if id in s.locations {
      AskingReplies(cfg, s.(assembled := s.assembled[id := map[]]), id, s.locations[id], order, request, shard);
    }
  }

  lemma HandledAttended(n: Node, rest: seq<MemoryInput>, ev: D.InEvent, handled: seq<D.InEvent>, request: Request)
    requires n.memory.Ready? && n.memory.cfg.Valid() && D.Fits(n.memory.cfg, ev)
    requires !n.memory.state.stopped || ev != EventFor(request)
    requires Attended(n, handled, request) && (Event(EventFor(request)) in n.input && ev != EventFor(request) ==>
      Event(EventFor(request)) in rest)
    ensures Attended(Handled(n.(input := rest), ev), handled + [ev], request)
  {
    var n' := Handled(n.(input := rest), ev);
    if EventFor(request) == ev {
      TakenIsReplied(n.memory.cfg, n.memory.state, request);
      var shard :| Reply(request, shard) in Emits(D.Step(n.memory.cfg, n.memory.state, ev).actions);
      assert Reply(request, shard) in n'.output;
    } else {
      forall shard
        ensures Reply(request, shard) in n'.emitted ==> Reply(request, shard) in n.emitted
      {
        RepliedWasAsked(n.memory.cfg, n.memory.state, ev, request, shard);
      }
      if InFlight(n, request) {
        StaysInFlight(n, n', request);
      }
    }
  }

  lemma MemoryTurnAttended(site: Site, n: Node, handled: seq<D.InEvent>, request: Request)
    requires WellFormed(site, n) && Possible(site, n, MemoryTurn) && Attended(n, handled, request)
    ensures Attended(Next(site, n, MemoryTurn), handled + HandledBy(n, MemoryTurn), request)
  {
    assert n.input[0] in n.input;
    assert handled + [] == handled;
    match n.input[0]
    case Initialize(distribution) =>
      if InFlight(n, request) {
        StaysInFlight(n, Next(site, n, MemoryTurn), request);
      }
    case Event(ev) =>
      if n.memory.Ready? {
        HandledAttended(n, n.input[1..], ev, handled, request);
      }
  }

  function AnsweredBy(out: D.OutEvent): set<Request> {
    match out
    case ServeShardResponse(full, _) => {ServeShard(full)}
    case AssignedResponse(full, _) => {GetShard(full)}
    case _ => {}
  }

  lemma OutputWaiting(b: State, out: D.OutEvent, request: Request)
    ensures Waiting(MemoryOutput(b, out), request) == if request in AnsweredBy(out) then [] else Waiting(b, request)
  {
  }

  lemma BehaviourTurnAttended(site: Site, n: Node, handled: seq<D.InEvent>, request: Request)
    requires WellFormed(site, n) && Possible(site, n, BehaviourTurn) && Attended(n, handled, request)
    ensures Attended(Next(site, n, BehaviourTurn), handled, request)
  {
    var n' := Next(site, n, BehaviourTurn);
    OutputWaiting(n.behaviour, n.output[0], request);
    if request !in AnsweredBy(n.output[0]) && InFlight(n, request) && Event(EventFor(request)) !in n.input {
      var shard :| Reply(request, shard) in n.output;
      assert Reply(request, shard) in n'.output;
    }
  }

  lemma StepAttended(site: Site, n: Node, step: Step, handled: seq<D.InEvent>, request: Request)
    requires WellFormed(site, n) && Possible(site, n, step) && Attended(n, handled, request)
    ensures Attended(Next(site, n, step), handled + HandledBy(n, step), request)
  {
    assert handled + [] == handled;
    match step
    case IncomingRequest(of, waiter) => IncomingAttended(n, handled, of, waiter, request);
    case MemoryTurn => MemoryTurnAttended(site, n, handled, request);
    case BehaviourTurn => BehaviourTurnAttended(site, n, handled, request);
    case Bus(ev) =>
      if n.memory.Ready? {
        HandledAttended(n, n.input, ev, handled, request);
      }
    case _ => MoreTraffic(n, Next(site, n, step), handled, handled, request);
  }

  /**
   In every run, whoever waits for a request that an initialised data memory has handled has the
   request or a reply in flight; and replies are given only to requests handled so.
   */
  lemma {:induction false} WaitingIsAttended(site: Site, steps: seq<Step>, request: Request)
    requires site.code.Valid() && RunFrom(site, START, steps).Some?
    ensures Attended(RunFrom(site, START, steps).value, HandledEvents(site, steps), request)
  {
    if steps != [] {
      var k := |steps| - 1;
      WaitingIsAttended(site, steps[..k], request);
      StepAttended(site, RunFrom(site, START, steps[..k]).value, steps[k], HandledEvents(site, steps[..k]), request);
    }
  }

  // ---------- who waits in vain ----------

  function InputsFor(input: seq<MemoryInput>, request: Request): nat {
    if input == [] then 0 else (if input[0] == Event(EventFor(request)) then 1 else 0) + InputsFor(input[1..], request)
  }

  function EventsFor(events: seq<D.InEvent>, request: Request): nat {
    if events == [] then 0 else
    EventsFor(events[..|events| - 1], request) + if events[|events| - 1] == EventFor(request) then 1 else 0
  }

  /** How often the request was taken by a memory that was not initialised yet. */
  ghost function TakenEarly(site: Site, steps: seq<Step>, request: Request): nat
    requires site.code.Valid() && RunFrom(site, START, steps).Some?
  {
    if steps == [] then 0 else
    var k := |steps| - 1;
    TakenEarly(site, steps[..k], request) + EarlyBy(RunFrom(site, START, steps[..k]).value, steps[k], request)
  }

  function EarlyBy(n: Node, step: Step, request: Request): nat {
    if n.memory.Uninitialized? && step.MemoryTurn? && n.input != [] && n.input[0] == Event(EventFor(request)) then 1 else 0
  }

  lemma {:induction false} InputsAppend(a: seq<MemoryInput>, b: seq<MemoryInput>, request: Request)
    ensures InputsFor(a + b, request) == InputsFor(a, request) + InputsFor(b, request)
  {
    if a == [] {
      assert a + b == b;
    } else {
      assert (a + b)[1..] == a[1..] + b;
      InputsAppend(a[1..], b, request);
    }
  }

  lemma {:induction false} NoneAmong(input: seq<MemoryInput>, request: Request)
    ensures InputsFor(input, request) == 0 <==> Event(EventFor(request)) !in input
  {
    if input != [] {
      NoneAmong(input[1..], request);
      assert input == [input[0]] + input[1..];
    }
  }

  lemma {:induction false} NoneHandled(events: seq<D.InEvent>, request: Request)
    ensures EventsFor(events, request) == 0 <==> EventFor(request) !in events
  {
    if events != [] {
      NoneHandled(events[..|events| - 1], request);
    }
  }

  lemma EventsSnoc(events: seq<D.InEvent>, more: seq<D.InEvent>, request: Request)
    requires |more| <= 1
    ensures EventsFor(events + more, request) == EventsFor(events, request) + EventsFor(more, request)
    ensures EventsFor(more, request) == if more != [] && more[0] == EventFor(request) then 1 else 0
  {
    if more == [] {
      assert events + more == events;
    } else {
      assert (events + more)[..|events|] == events;
      assert more[..0] == [];
    }
  }

  lemma OneInput(input: MemoryInput, request: Request)
    ensures InputsFor([input], request) == if input == Event(EventFor(request)) then 1 else 0
  {
    assert [input][1..] == [];
  }

  /** One step moves a request along: arrived, queued, taken early or handled. */
  lemma StepCounts(site: Site, n: Node, step: Step, request: Request)
    requires WellFormed(site, n) && Possible(site, n, step)
    ensures InputsFor(n.input, request) + |Arrival(step, request)| ==
      EarlyBy(n, step, request) + EventsFor(HandledBy(n, step), request) + InputsFor(Next(site, n, step).input, request)
  {
    EventsSnoc([], HandledBy(n, step), request);
    match step
    case IncomingRequest(of, waiter) =>
      OneInput(Event(EventFor(of)), request);
      InputsAppend(n.input, [Event(EventFor(of))], request);
    case NetworkResponse(id, response) =>
      var events := ResponseEvents(n.behaviour, id, response);
      ResponsesAskNothing(n.behaviour, id, response, request);
      NoneAmong(Events(events), request);
      InputsAppend(n.input, Events(events), request);
    case InitializeTx(distribution) =>
      OneInput(Initialize(distribution), request);
      InputsAppend(n.input, [Initialize(distribution)], request);
    case Forward(ev) =>
      OneInput(Event(ev), request);
      InputsAppend(n.input, [Event(ev)], request);
    case MemoryTurn => TurnCounts(site, n, request);
    case _ =>
  }

  lemma TurnCounts(site: Site, n: Node, request: Request)
    requires WellFormed(site, n) && Possible(site, n, MemoryTurn)
    ensures Next(site, n, MemoryTurn).input == n.input[1..]
    ensures InputsFor(n.input, request) ==
      EarlyBy(n, MemoryTurn, request) + EventsFor(HandledBy(n, MemoryTurn), request) + InputsFor(n.input[1..], request)
  {
    assert n.input[0] in n.input;
    EventsSnoc([], HandledBy(n, MemoryTurn), request);
  }

  /** Every arrival was taken early, or handled, or is still queued. */
  lemma {:induction false} RequestsAreCounted(site: Site, steps: seq<Step>, request: Request)
    requires site.code.Valid() && RunFrom(site, START, steps).Some?
    ensures |Arrivals(steps, request)| ==
      TakenEarly(site, steps, request) + EventsFor(HandledEvents(site, steps), request)
      + InputsFor(RunFrom(site, START, steps).value.input, request)
  {
    if steps != [] {
      var k := |steps| - 1;
      RequestsAreCounted(site, steps[..k], request);
      var before := RunFrom(site, START, steps[..k]).value;
      StepCounts(site, before, steps[k], request);
      EventsSnoc(HandledEvents(site, steps[..k]), HandledBy(before, steps[k]), request);
    }
  }

  /** A request never replied to was never answered. */
  lemma UnrepliedIsUnanswered(n: Node, request: Request)
    requires AllGenuine(n) && forall shard :: Reply(request, shard) !in n.emitted
    ensures Answered(n.behaviour.answers, request) == [] && forall shard :: Reply(request, shard) !in n.output
  {
    forall a | a in n.behaviour.answers
      ensures a.request != request
    {
      assert Genuine(n.emitted, a);
    }
    NoneAnswered(n.behaviour.answers, request);
  }

  lemma {:induction false} NoneAnswered(answers: seq<Answer>, request: Request)
    requires forall a :: a in answers ==> a.request != request
    ensures Answered(answers, request) == []
  {
    if answers != [] {
      NoneAnswered(answers[..|answers| - 1], request);
    }
  }

  /**
   Peers wait in vain for `request`, with nothing in flight, exactly when it has arrived and every
   time it arrived it was taken before the memory was initialised.
   */
  lemma StrandedIff(site: Site, steps: seq<Step>, request: Request)
    requires site.code.Valid() && RunFrom(site, START, steps).Some?
    ensures var n := RunFrom(site, START, steps).value;
      Waiting(n.behaviour, request) != [] && !InFlight(n, request) <==>
      Arrivals(steps, request) != [] && TakenEarly(site, steps, request) == |Arrivals(steps, request)|
  {
    var n, handled := RunFrom(site, START, steps).value, HandledEvents(site, steps);
    WaitingIsAttended(site, steps, request);
    RequestsAreCounted(site, steps, request);
    EachChannelOnce(site, steps, request);
    AnswersAreGenuine(site, steps);
    NoneAmong(n.input, request);
    NoneHandled(handled, request);
    if EventFor(request) !in handled {
      UnrepliedIsUnanswered(n, request);
    }
  }

  /** Once initialised, the memory takes nothing early any more. */
  lemma {:induction false} DropsNothingMore(site: Site, steps: seq<Step>, more: seq<Step>, request: Request)
    requires site.code.Valid() && RunFrom(site, START, steps + more).Some?
    requires RunFrom(site, START, steps).Some? && RunFrom(site, START, steps).value.memory.Ready?
    ensures RunFrom(site, START, steps + more).value.memory.Ready?
    ensures TakenEarly(site, steps + more, request) == TakenEarly(site, steps, request)
  {
    if more == [] {
      assert steps + more == steps;
    } else {
      assert (steps + more)[..|steps + more| - 1] == steps + more[..|more| - 1];
      DropsNothingMore(site, steps, more[..|more| - 1], request);
    }
  }

  /** A request that reaches the node before the storage is initialised keeps its peer waiting afterwards. */
  lemma EarlyRequestIsStranded(site: Site, distribution: Assignment, request: Request, waiter: Waiter)
      returns (steps: seq<Step>)
    requires site.code.Valid() && D.VerifyDistribution(site.code, D.Collect(distribution))
    ensures RunFrom(site, START, steps).Some?
    ensures var n := RunFrom(site, START, steps).value;
      n.memory.Ready? && n.input == [] && Waiting(n.behaviour, request) == [waiter] && !InFlight(n, request)
  {
    var n := TakenEarlyRun(site, request, waiter);
    var before: seq<Step> := [] + [IncomingRequest(request, waiter)] + [MemoryTurn];
    steps := InitializedRun(site, before, n, distribution);
  }

  /** The request arrives and is taken at once. */
  lemma TakenEarlyRun(site: Site, request: Request, waiter: Waiter) returns (n: Node)
    requires site.code.Valid()
    ensures RunFrom(site, START, [] + [IncomingRequest(request, waiter)] + [MemoryTurn]) == Some(n)
    ensures n == START.(behaviour := Incoming(Behaviour.INITIAL, request, waiter))
  {
    var first := Next(site, START, IncomingRequest(request, waiter));
    RunSnoc(site, START, [], START, IncomingRequest(request, waiter));
    assert first.input == [Event(EventFor(request))];
    RunSnoc(site, START, [] + [IncomingRequest(request, waiter)], first, MemoryTurn);
    n := Next(site, first, MemoryTurn);
  }

  /** An acceptable distribution is recognised and taken. */
  lemma InitializedRun(site: Site, before: seq<Step>, n: Node, distribution: Assignment) returns (steps: seq<Step>)
    requires site.code.Valid() && D.VerifyDistribution(site.code, D.Collect(distribution))
    requires RunFrom(site, START, before) == Some(n) && n.memory.Uninitialized? && n.input == []
    ensures RunFrom(site, START, steps) == Some(Offered(site, n, distribution))
  {
    var mid := Next(site, n, InitializeTx(distribution));
    RunSnoc(site, START, before, n, InitializeTx(distribution));
    TakesOffer(site, n, distribution);
    RunSnoc(site, START, before + [InitializeTx(distribution)], mid, MemoryTurn);
    steps := before + [InitializeTx(distribution)] + [MemoryTurn];
  }

  // ---------- what reaches the user and the consensus ----------

  function ShownBy(out: D.OutEvent): seq<UserEvent> {
    match out
    case Initialized => [StorageInitialized]
    case DistributionFull(id) => [PutConfirmed(id)]
    case ListDistributed(list) => [ListStoredResponse(list)]
    case RecollectResponse(response) => [GetResponse(response)]
    case _ => []
  }

  function ScheduledBy(out: D.OutEvent): seq<Transaction> {
    match out
    case PreparedServiceResponse(id) => [StorageRequest(id)]
    case AssignedStoreSuccess(full) => [Stored(full)]
    case _ => []
  }

  /** The request made for an output of the data memory, and whom it goes to. */
  function RequestedBy(out: D.OutEvent): seq<Outgoing> {
    match out
    case ServeShardRequest(full, peer) => [Outgoing(ServeShard(full), peer)]
    case AssignedRequest(full, peer) => [Outgoing(GetShard(full), peer)]
    case _ => []
  }

  function AllRequested(outs: seq<D.OutEvent>): seq<Outgoing> {
    if outs == [] then [] else RequestedBy(outs[0]) + AllRequested(outs[1..])
  }

  lemma {:induction false} RequestedAppend(a: seq<D.OutEvent>, b: seq<D.OutEvent>)
    ensures AllRequested(a + b) == AllRequested(a) + AllRequested(b)
  {
    if a == [] {
      assert a + b == b;
    } else {
      assert (a + b)[1..] == a[1..] + b;
      RequestedAppend(a[1..], b);
      Regroup(RequestedBy(a[0]), AllRequested(a[1..]), AllRequested(b));
    }
  }

  function AllShown(outs: seq<D.OutEvent>): seq<UserEvent> {
    if outs == [] then [] else ShownBy(outs[0]) + AllShown(outs[1..])
  }

  function AllScheduled(outs: seq<D.OutEvent>): seq<Transaction> {
    if outs == [] then [] else ScheduledBy(outs[0]) + AllScheduled(outs[1..])
  }

  lemma {:induction false} ShownAppend(a: seq<D.OutEvent>, b: seq<D.OutEvent>)
    ensures AllShown(a + b) == AllShown(a) + AllShown(b)
  {
    if a == [] {
      assert a + b == b;
    } else {
      assert (a + b)[1..] == a[1..] + b;
      ShownAppend(a[1..], b);
      Regroup(ShownBy(a[0]), AllShown(a[1..]), AllShown(b));
    }
  }

  lemma {:induction false} ScheduledAppend(a: seq<D.OutEvent>, b: seq<D.OutEvent>)
    ensures AllScheduled(a + b) == AllScheduled(a) + AllScheduled(b)
  {
    if a == [] {
      assert a + b == b;
    } else {
      assert (a + b)[1..] == a[1..] + b;
      ScheduledAppend(a[1..], b);
      Regroup(ScheduledBy(a[0]), AllScheduled(a[1..]), AllScheduled(b));
    }
  }

  /** Shown, scheduled or requested so far, and still in the queue, is all that was emitted. */
  ghost predicate Delivered(n: Node) {
    && n.behaviour.shown + AllShown(n.output) == AllShown(n.emitted)
    && n.behaviour.scheduled + AllScheduled(n.output) == AllScheduled(n.emitted)
    && n.behaviour.made + AllRequested(n.output) == AllRequested(n.emitted)
  }

  /** Outside a turn of the behaviour, what is emitted is queued and nothing is delivered. */
  lemma EmittedIsQueued(site: Site, n: Node, step: Step) returns (more: seq<D.OutEvent>)
    requires WellFormed(site, n) && Possible(site, n, step) && !step.BehaviourTurn?
    ensures var n' := Next(site, n, step);
      && n'.output == n.output + more && n'.emitted == n.emitted + more
      && n'.behaviour.shown == n.behaviour.shown && n'.behaviour.scheduled == n.behaviour.scheduled
      && n'.behaviour.made == n.behaviour.made
  {
    var n' := Next(site, n, step);
    more := n'.emitted[|n.emitted|..];
    assert step.MemoryTurn? ==> n.input[0] in n.input;
  }

  lemma QueueDelivers(n: Node, n': Node, more: seq<D.OutEvent>)
    requires Delivered(n) && n'.output == n.output + more && n'.emitted == n.emitted + more
    requires n'.behaviour.shown == n.behaviour.shown && n'.behaviour.scheduled == n.behaviour.scheduled
    requires n'.behaviour.made == n.behaviour.made
    ensures Delivered(n')
  {
    ShownAppend(n.output, more);
    ShownAppend(n.emitted, more);
    ScheduledAppend(n.output, more);
    ScheduledAppend(n.emitted, more);
    RequestedAppend(n.output, more);
    RequestedAppend(n.emitted, more);
    Regroup(n.behaviour.shown, AllShown(n.output), AllShown(more));
    Regroup(n.behaviour.scheduled, AllScheduled(n.output), AllScheduled(more));
    Regroup(n.behaviour.made, AllRequested(n.output), AllRequested(more));
  }

  lemma TurnDelivers(site: Site, n: Node)
    requires WellFormed(site, n) && Possible(site, n, BehaviourTurn) && Delivered(n)
    ensures Delivered(Next(site, n, BehaviourTurn))
  {
    OneDelivered(n.behaviour, n.output[0]);
    Regroup(n.behaviour.shown, ShownBy(n.output[0]), AllShown(n.output[1..]));
    Regroup(n.behaviour.scheduled, ScheduledBy(n.output[0]), AllScheduled(n.output[1..]));
    Regroup(n.behaviour.made, RequestedBy(n.output[0]), AllRequested(n.output[1..]));
  }

  lemma StepDelivers(site: Site, n: Node, step: Step)
    requires WellFormed(site, n) && Possible(site, n, step) && Delivered(n)
    ensures Delivered(Next(site, n, step))
  {
    if step.BehaviourTurn? {
      TurnDelivers(site, n);
    } else {
      var more := EmittedIsQueued(site, n, step);
      QueueDelivers(n, Next(site, n, step), more);
    }
  }

  lemma OneDelivered(b: State, out: D.OutEvent)
    ensures MemoryOutput(b, out).shown == b.shown + ShownBy(out)
    ensures MemoryOutput(b, out).scheduled == b.scheduled + ScheduledBy(out)
    ensures MemoryOutput(b, out).made == b.made + RequestedBy(out)
  {
  }

  /**
   In every run, what the user was shown, what was put to consensus and what was requested of which
   peers, followed by what is still queued, is all that the data memory emitted for them, once each
   and in order.
   */
  lemma {:induction false} EverythingIsDelivered(site: Site, steps: seq<Step>)
    requires site.code.Valid() && RunFrom(site, START, steps).Some?
    ensures Delivered(RunFrom(site, START, steps).value)
  {
    if steps != [] {
      EverythingIsDelivered(site, steps[..|steps| - 1]);
      StepDelivers(site, RunFrom(site, START, steps[..|steps| - 1]).value, steps[|steps| - 1]);
    }
  }
}
