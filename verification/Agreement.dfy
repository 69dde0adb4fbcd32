/** Which distribution of shard ids the peers end up with (src/behaviour/mod.rs, src/data_memory/mod.rs). */
module Agreement {
  import opened Types
  import opened Behaviour
  import opened Node
  import D = DataMemory
  import ReedSolomon

  /** The first of the distributions that passes verification. */
  function FirstAccepted(code: ReedSolomon.Code, offered: seq<Assignment>): Option<map<PeerId, Sid>> {
    if offered == [] then None else
    var first := FirstAccepted(code, offered[..|offered| - 1]);
    var last := D.Collect(offered[|offered| - 1]);
    if first.None? && D.VerifyDistribution(code, last) then Some(last) else first
  }

  function InitTxs(steps: seq<Step>): seq<Assignment> {
    if steps == [] then [] else
    var last := steps[|steps| - 1];
    InitTxs(steps[..|steps| - 1]) + if last.InitializeTx? then [last.distribution] else []
  }

  function Queued(input: seq<MemoryInput>): seq<Assignment> {
    if input == [] then [] else
    (if input[0].Initialize? then [input[0].distribution] else []) + Queued(input[1..])
  }

  lemma {:induction false} QueuedAppend(a: seq<MemoryInput>, b: seq<MemoryInput>)
    ensures Queued(a + b) == Queued(a) + Queued(b)
  {
    if a == [] {
      assert a + b == b;
    } else {
      assert (a + b)[1..] == a[1..] + b;
      QueuedAppend(a[1..], b);
    }
  }

  lemma QueuedEvents(events: seq<D.InEvent>)
    requires |events| <= 1
    ensures Queued(Events(events)) == []
  {
  }

  /** Which distribution the memory has, told from the transactions it has taken. */
  ghost predicate AsOffered(site: Site, n: Node) {
    match FirstAccepted(site.code, n.offered)
    case None => n.memory.Uninitialized?
    case Some(distribution) => n.memory.Ready? && n.memory.cfg == D.Config(site.code, site.localId, distribution)
  }

  lemma StepOffered(site: Site, n: Node, step: Step)
    requires WellFormed(site, n) && Possible(site, n, step) && AsOffered(site, n)
    ensures AsOffered(site, Next(site, n, step))
  {
    if step.MemoryTurn? && n.input[0].Initialize? {
      assert (n.offered + [n.input[0].distribution])[..|n.offered|] == n.offered;
    }
  }

  lemma HandledQueues(n: Node, ev: D.InEvent)
    requires n.memory.Ready? ==> n.memory.cfg.Wide() && D.Fits(n.memory.cfg, ev)
    ensures Handled(n, ev).input == n.input && Handled(n, ev).offered == n.offered
  {
  }

  lemma TurnQueued(site: Site, n: Node)
    requires WellFormed(site, n) && Possible(site, n, MemoryTurn)
    ensures Next(site, n, MemoryTurn).offered + Queued(Next(site, n, MemoryTurn).input) == n.offered + Queued(n.input)
  {
    assert n.input[0] in n.input;
    if n.input[0].Event? {
      HandledQueues(n.(input := n.input[1..]), n.input[0].event);
    }
  }

  function Init(step: Step): seq<Assignment> {
    if step.InitializeTx? then [step.distribution] else []
  }

  lemma MoreQueued(n: Node, more: seq<MemoryInput>)
    ensures n.offered + Queued(n.input + more) == n.offered + Queued(n.input) + Queued(more)
  {
    QueuedAppend(n.input, more);
  }

  lemma StepQueued(site: Site, n: Node, step: Step)
    requires WellFormed(site, n) && Possible(site, n, step)
    ensures Next(site, n, step).offered + Queued(Next(site, n, step).input) == n.offered + Queued(n.input) + Init(step)
  {
    match step
    case IncomingRequest(request, _) => MoreQueued(n, [Event(EventFor(request))]);
    case NetworkResponse(id, response) =>
      QueuedEvents(ResponseEvents(n.behaviour, id, response));
      MoreQueued(n, Events(ResponseEvents(n.behaviour, id, response)));
    case InitializeTx(distribution) => MoreQueued(n, [Initialize(distribution)]);
    case Forward(ev) => MoreQueued(n, [Event(ev)]);
    case MemoryTurn => TurnQueued(site, n);
    case Bus(ev) =>
      if n.memory.Ready? {
        HandledQueues(n, ev);
      }
    case _ =>
  }

  /**
   In every run the memory is initialised exactly when one of the distributions it has taken was
   acceptable, and then with the first of them, whatever came later; it takes them in the order
   of their transactions.
   */
  lemma {:induction false} InitialisedByFirstAccepted(site: Site, steps: seq<Step>)
    requires site.code.Valid() && RunFrom(site, START, steps).Some?
    ensures var n := RunFrom(site, START, steps).value;
      AsOffered(site, n) && n.offered + Queued(n.input) == InitTxs(steps)
  {
    if steps != [] {
      InitialisedByFirstAccepted(site, steps[..|steps| - 1]);
      var before := RunFrom(site, START, steps[..|steps| - 1]).value;
      StepOffered(site, before, steps[|steps| - 1]);
      StepQueued(site, before, steps[|steps| - 1]);
    }
  }

  lemma {:induction false} FirstAcceptedStays(code: ReedSolomon.Code, offered: seq<Assignment>, k: nat)
    requires k <= |offered| && FirstAccepted(code, offered[..k]).Some?
    ensures FirstAccepted(code, offered) == FirstAccepted(code, offered[..k])
    decreases |offered|
  {
    if k < |offered| {
      assert offered[..|offered| - 1][..k] == offered[..k];
      FirstAcceptedStays(code, offered[..|offered| - 1], k);
    } else {
      assert offered[..k] == offered;
    }
  }

  /** An initialised memory has the first acceptable distribution among all transactions seen. */
  lemma HasFirstAccepted(site: Site, steps: seq<Step>)
    requires site.code.Valid() && RunFrom(site, START, steps).Some? && RunFrom(site, START, steps).value.memory.Ready?
    ensures FirstAccepted(site.code, InitTxs(steps)) == Some(RunFrom(site, START, steps).value.memory.cfg.distribution)
  {
    InitialisedByFirstAccepted(site, steps);
    var taken := RunFrom(site, START, steps).value.offered;
    assert InitTxs(steps)[..|taken|] == taken;
    FirstAcceptedStays(site.code, InitTxs(steps), |taken|);
  }

  /**
   Two initialised peers have the same distribution exactly when the first acceptable transaction
   that each of them recognised carries the same one.
   */
  lemma PeersAgreeIff(site: Site, other: Site, steps: seq<Step>, steps': seq<Step>)
    requires site.code.Valid() && other.code == site.code
    requires RunFrom(site, START, steps).Some? && RunFrom(other, START, steps').Some?
    requires RunFrom(site, START, steps).value.memory.Ready? && RunFrom(other, START, steps').value.memory.Ready?
    ensures RunFrom(site, START, steps).value.memory.cfg.distribution ==
      RunFrom(other, START, steps').value.memory.cfg.distribution
      <==> FirstAccepted(site.code, InitTxs(steps)) == FirstAccepted(site.code, InitTxs(steps'))
  {
    HasFirstAccepted(site, steps);
    HasFirstAccepted(other, steps');
  }

  /** In particular, when both recognise the transactions in one order, however far each has come. */
  lemma PeersAgree(site: Site, other: Site, steps: seq<Step>, steps': seq<Step>)
    requires site.code.Valid() && other.code == site.code
    requires RunFrom(site, START, steps).Some? && RunFrom(other, START, steps').Some?
    requires InitTxs(steps) <= InitTxs(steps')
    requires RunFrom(site, START, steps).value.memory.Ready? && RunFrom(other, START, steps').value.memory.Ready?
    ensures RunFrom(site, START, steps).value.memory.cfg.distribution ==
      RunFrom(other, START, steps').value.memory.cfg.distribution
  {
    HasFirstAccepted(site, steps);
    assert InitTxs(steps')[..|InitTxs(steps)|] == InitTxs(steps);
    FirstAcceptedStays(site.code, InitTxs(steps'), |InitTxs(steps)|);
    PeersAgreeIff(site, other, steps, steps');
  }

  /** Two transactions recognised and taken one after the other. */
  function Both(first: Assignment, second: Assignment): seq<Step> {
    [InitializeTx(first), MemoryTurn] + [InitializeTx(second), MemoryTurn]
  }

  lemma OneMore(site: Site, steps: seq<Step>, n: Node, step: Step)
    requires site.code.Valid() && RunFrom(site, START, steps) == Some(n) && Possible(site, n, step)
    ensures RunFrom(site, START, steps + [step]) == Some(Next(site, n, step))
    ensures InitTxs(steps + [step]) == InitTxs(steps) + Init(step)
  {
    RunSnoc(site, START, steps, n, step);
    assert (steps + [step])[..|steps|] == steps;
  }

  lemma OneTaken(site: Site, steps: seq<Step>, n: Node, distribution: Assignment)
    requires site.code.Valid() && RunFrom(site, START, steps) == Some(n) && n.input == []
    requires n.memory.Ready? ==> !n.memory.state.stopped
    ensures RunFrom(site, START, steps + [InitializeTx(distribution), MemoryTurn]) == Some(Offered(site, n, distribution))
    ensures InitTxs(steps + [InitializeTx(distribution), MemoryTurn]) == InitTxs(steps) + [distribution]
  {
    OneMore(site, steps, n, InitializeTx(distribution));
    var mid := Next(site, n, InitializeTx(distribution));
    TakesOffer(site, n, distribution);
    OneMore(site, steps + [InitializeTx(distribution)], mid, MemoryTurn);
    assert steps + [InitializeTx(distribution)] + [MemoryTurn] == steps + [InitializeTx(distribution), MemoryTurn];
  }

  lemma BothTaken(site: Site, first: Assignment, second: Assignment)
    requires site.code.Valid()
    ensures RunFrom(site, START, Both(first, second)) == Some(Offered(site, Offered(site, START, first), second))
    ensures InitTxs(Both(first, second)) == [first, second]
  {
    OneTaken(site, [], START, first);
    var one: seq<Step> := [InitializeTx(first), MemoryTurn];
    assert [] + one == one;
    OneTaken(site, one, Offered(site, START, first), second);
  }

  /**
   Any two acceptable distributions that differ keep apart two peers that recognise their
   transactions in different orders: each peer has taken both and stays with the one it saw first.
   */
  lemma OrdersDisagree(site: Site, other: Site, a: Assignment, b: Assignment)
    requires site.code.Valid() && other.code == site.code && D.Collect(a) != D.Collect(b)
    requires D.VerifyDistribution(site.code, D.Collect(a)) && D.VerifyDistribution(site.code, D.Collect(b))
    ensures RunFrom(site, START, Both(a, b)).Some? && RunFrom(other, START, Both(b, a)).Some?
    ensures multiset(InitTxs(Both(a, b))) == multiset(InitTxs(Both(b, a)))
    ensures var n, n' := RunFrom(site, START, Both(a, b)).value, RunFrom(other, START, Both(b, a)).value;
      && n.memory.Ready? && n'.memory.Ready? && n.input == [] && n'.input == []
      && n.memory.cfg.distribution != n'.memory.cfg.distribution
  {
    BothTaken(site, a, b);
    BothTaken(other, b, a);
  }

  /** Once initialised, a memory keeps its distribution for ever. */
  lemma {:induction false} DistributionNeverChanges(site: Site, n: Node, steps: seq<Step>)
    requires WellFormed(site, n) && n.memory.Ready? && RunFrom(site, n, steps).Some?
    ensures RunFrom(site, n, steps).value.memory.Ready?
    ensures RunFrom(site, n, steps).value.memory.cfg == n.memory.cfg
  {
    if steps != [] {
      DistributionNeverChanges(site, n, steps[..|steps| - 1]);
    }
  }
}
