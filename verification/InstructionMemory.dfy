/**
 The instruction memory (src/instruction_storage/mod.rs): for each finalised program, the set of
 peers that reported its execution, until enough of them have.
 */
module InstructionMemory {
  import opened Types
  import opened Instructions

  datatype ProgramId = ProgramId(hash: Hash, eventHash: Hash)

  datatype ExecutionState = Executing(peersFinished: set<PeerId>) | Finished

  datatype Metadata = Metadata(state: ExecutionState, affected: seq<Vid>)

  type Tracked = map<ProgramId, Metadata>

  datatype InEvent =
    /** `affected` lists the result ids of the program in the order the hash set happens to have. */
    | FinalizedProgram(p: ProgramId, program: Program, affected: seq<Vid>)
    | ExecutedProgram(peer: PeerId, p: ProgramId)

  datatype OutEvent =
    | NextProgram(p: ProgramId, program: Program)
    | FinishedExecution(p: ProgramId)
    | PeerShardsActualized(p: ProgramId, peer: PeerId, ids: seq<Vid>)

  datatype Effect = Effect(programs: Tracked, out: seq<OutEvent>)

  /** `notify_executed` */
  function NotifyExecuted(threshold: nat, programs: Tracked, who: PeerId, p: ProgramId): (Tracked, bool) {
    if p !in programs || programs[p].state.Finished? then
      (programs, false)
    else
      var peers := programs[p].state.peersFinished + {who};
      if |peers| >= threshold then
        (programs[p := programs[p].(state := Finished)], true)
      else
        (programs[p := programs[p].(state := Executing(peers))], false)
  }

  /** `notify_finalized` */
  function NotifyFinalized(programs: Tracked, p: ProgramId, affected: seq<Vid>): Tracked {
    if p in programs then programs else programs[p := Metadata(Executing({}), affected)]
  }

  function Step(threshold: nat, programs: Tracked, ev: InEvent): Effect {
    match ev
    case FinalizedProgram(p, program, affected) =>
      Effect(NotifyFinalized(programs, p, affected), [NextProgram(p, program)])
    case ExecutedProgram(peer, p) =>
      var (programs', finished) := NotifyExecuted(threshold, programs, peer, p);
      Effect(programs',
             (if finished then [FinishedExecution(p)] else []) +
             (if p in programs' then [PeerShardsActualized(p, peer, programs'[p].affected)] else []))
  }

  function Run(threshold: nat, events: seq<InEvent>): Effect {
    if events == [] then
      Effect(map[], [])
    else
      var before := Run(threshold, events[..|events| - 1]);
      var now := Step(threshold, before.programs, events[|events| - 1]);
      Effect(now.programs, before.out + now.out)
  }

  // ---------- the quorum ----------

  predicate Known(events: seq<InEvent>, p: ProgramId) {
    exists i :: 0 <= i < |events| && events[i].FinalizedProgram? && events[i].p == p
  }

  /** The distinct peers that reported `p` after it was first finalised. */
  function Reporters(events: seq<InEvent>, p: ProgramId): set<PeerId> {
    if events == [] then
      {}
    else
      var last, rest := events[|events| - 1], events[..|events| - 1];
      Reporters(rest, p) + if last.ExecutedProgram? && last.p == p && Known(rest, p) then {last.peer} else {}
  }

  predicate Enough(threshold: nat, peers: set<PeerId>) {
    peers != {} && |peers| >= threshold
  }

  function CountFinished(out: seq<OutEvent>, p: ProgramId): nat {
    if out == [] then 0 else
    CountFinished(out[..|out| - 1], p) + if out[|out| - 1] == FinishedExecution(p) then 1 else 0
  }

  lemma {:induction false} CountAppend(a: seq<OutEvent>, b: seq<OutEvent>, p: ProgramId)
    ensures CountFinished(a + b, p) == CountFinished(a, p) + CountFinished(b, p)
  {
    if b == [] {
      assert a + b == a;
    } else {
      assert (a + b)[..|a + b| - 1] == a + b[..|b| - 1];
      CountAppend(a, b[..|b| - 1], p);
    }
  }

  lemma KnownSnoc(events: seq<InEvent>, p: ProgramId)
    requires events != []
    ensures var n := |events| - 1;
      Known(events, p) <==> Known(events[..n], p) || (events[n].FinalizedProgram? && events[n].p == p)
  {
    var n := |events| - 1;
    if Known(events[..n], p) {
      var i :| 0 <= i < n && events[..n][i].FinalizedProgram? && events[..n][i].p == p;
      assert events[i].FinalizedProgram? && events[i].p == p;
    }
    if Known(events, p) {
      var i :| 0 <= i < |events| && events[i].FinalizedProgram? && events[i].p == p;
      assert i < n ==> events[..n][i] == events[i];
    }
  }

  function StateOf(threshold: nat, peers: set<PeerId>): ExecutionState {
    if Enough(threshold, peers) then Finished else Executing(peers)
  }

  /** Where `p` stands, told from the events alone. */
  ghost predicate Stands(threshold: nat, events: seq<InEvent>, programs: Tracked, p: ProgramId) {
    && (p in programs <==> Known(events, p))
    && (p in programs ==> programs[p].state == StateOf(threshold, Reporters(events, p)))
    && (p !in programs ==> Reporters(events, p) == {})
  }

  lemma GrowingSet(a: set<PeerId>, who: PeerId)
    ensures |a| <= |a + {who}|
  {
    if who !in a {
      assert |a + {who}| == |a| + 1;
    } else {
      assert a + {who} == a;
    }
  }

  lemma StepStands(threshold: nat, events: seq<InEvent>, programs: Tracked, p: ProgramId)
    requires events != [] && Stands(threshold, events[..|events| - 1], programs, p)
    ensures Stands(threshold, events, Step(threshold, programs, events[|events| - 1]).programs, p)
  {
    var n := |events| - 1;
    KnownSnoc(events, p);
    match events[n]
    case ExecutedProgram(peer, q) =>
      if p in programs && q == p {
        ReportMoves(threshold, programs, peer, p, Reporters(events[..n], p));
        assert Reporters(events, p) == Reporters(events[..n], p) + {peer};
      }
    case FinalizedProgram(_, _, _) =>
  }

  lemma ReportMoves(threshold: nat, programs: Tracked, who: PeerId, p: ProgramId, peers: set<PeerId>)
    requires p in programs && programs[p].state == StateOf(threshold, peers)
    ensures var (programs', finished) := NotifyExecuted(threshold, programs, who, p);
      && p in programs' && programs'[p].state == StateOf(threshold, peers + {who})
      && finished == (Enough(threshold, peers + {who}) && !Enough(threshold, peers))
  {
    GrowingSet(peers, who);
  }

  lemma StepFinishes(threshold: nat, events: seq<InEvent>, programs: Tracked, p: ProgramId)
    requires events != [] && Stands(threshold, events[..|events| - 1], programs, p)
    ensures CountFinished(Step(threshold, programs, events[|events| - 1]).out, p) ==
      if Enough(threshold, Reporters(events, p)) && !Enough(threshold, Reporters(events[..|events| - 1], p)) then 1 else 0
  {
    var n := |events| - 1;
    match events[n]
    case FinalizedProgram(q, program, affected) => CountOne(NextProgram(q, program), p);
    case ExecutedProgram(peer, q) =>
      ReportCounts(threshold, programs, peer, q, p);
      if p in programs && q == p {
        ReportMoves(threshold, programs, peer, p, Reporters(events[..n], p));
        assert Reporters(events, p) == Reporters(events[..n], p) + {peer};
      }
  }

  lemma CountOne(out: OutEvent, p: ProgramId)
    ensures CountFinished([out], p) == if out == FinishedExecution(p) then 1 else 0
  {
    assert [out][..0] == [];
  }

  lemma ReportCounts(threshold: nat, programs: Tracked, who: PeerId, q: ProgramId, p: ProgramId)
    ensures CountFinished(Step(threshold, programs, ExecutedProgram(who, q)).out, p) ==
      if q == p && NotifyExecuted(threshold, programs, who, q).1 then 1 else 0
  {
    var (programs', finished) := NotifyExecuted(threshold, programs, who, q);
    var a: seq<OutEvent> := if finished then [FinishedExecution(q)] else [];
    var b: seq<OutEvent> := if q in programs' then [PeerShardsActualized(q, who, programs'[q].affected)] else [];
    CountAppend(a, b, p);
    CountOne(FinishedExecution(q), p);
    if b != [] {
      CountOne(b[0], p);
    }
  }

  /**
   In every run, `FinishedExecution(p)` has been emitted once if enough distinct peers reported `p`
   after it was finalised and not at all otherwise, whatever the order of the reports, repeated
   reports, repeated finalisation and traffic about other programs.  Since this holds of every
   prefix, it is emitted by the very report that makes the number sufficient.
   */
  lemma {:induction false} Quorum(threshold: nat, events: seq<InEvent>, p: ProgramId)
    ensures Stands(threshold, events, Run(threshold, events).programs, p)
    ensures CountFinished(Run(threshold, events).out, p) == if Enough(threshold, Reporters(events, p)) then 1 else 0
  {
    if events != [] {
      var n := |events| - 1;
      Quorum(threshold, events[..n], p);
      var before := Run(threshold, events[..n]);
      StepStands(threshold, events, before.programs, p);
      StepFinishes(threshold, events, before.programs, p);
      CountAppend(before.out, Step(threshold, before.programs, events[n]).out, p);
      ReportersGrow(threshold, events, p);
    }
  }

  lemma ReportersGrow(threshold: nat, events: seq<InEvent>, p: ProgramId)
    requires events != []
    ensures Enough(threshold, Reporters(events[..|events| - 1], p)) ==> Enough(threshold, Reporters(events, p))
  {
    if events[|events| - 1].ExecutedProgram? {
      GrowingSet(Reporters(events[..|events| - 1], p), events[|events| - 1].peer);
    }
  }

  /** The result ids with which `p` was first finalised. */
  function FirstAffected(events: seq<InEvent>, p: ProgramId): Option<seq<Vid>> {
    if events == [] then None else
    var last, first := events[|events| - 1], FirstAffected(events[..|events| - 1], p);
    if first.None? && last.FinalizedProgram? && last.p == p then Some(last.affected) else first
  }

  lemma {:induction false} AffectedIsFirst(threshold: nat, events: seq<InEvent>, p: ProgramId)
    ensures var programs := Run(threshold, events).programs;
      FirstAffected(events, p) == if p in programs then Some(programs[p].affected) else None
  {
    if events != [] {
      AffectedIsFirst(threshold, events[..|events| - 1], p);
    }
  }

  /** What event `k` of a run brings, told from the events alone. */
  function Tells(threshold: nat, events: seq<InEvent>, k: nat): seq<OutEvent>
    requires k < |events|
  {
    match events[k]
    case FinalizedProgram(p, program, _) => [NextProgram(p, program)]
    case ExecutedProgram(peer, p) =>
      (if Enough(threshold, Reporters(events[..k + 1], p)) && !Enough(threshold, Reporters(events[..k], p))
       then [FinishedExecution(p)] else []) +
      (if FirstAffected(events[..k], p).Some? then [PeerShardsActualized(p, peer, FirstAffected(events[..k], p).value)] else [])
  }

  /**
   In every run, each event brings exactly this: a finalised program is passed on, known or not; a
   report brings completion if it is the deciding one, and then, if the program is known, the notice
   that the reporting peer has fresh shards of its results.
   */
  lemma EventTells(threshold: nat, events: seq<InEvent>, k: nat)
    requires k < |events|
    ensures Step(threshold, Run(threshold, events[..k]).programs, events[k]).out == Tells(threshold, events, k)
  {
    if events[k].ExecutedProgram? {
      var p, before := events[k].p, Run(threshold, events[..k]).programs;
      assert events[..k + 1][..k] == events[..k];
      AffectedIsFirst(threshold, events[..k], p);
      Quorum(threshold, events[..k], p);
      StepStands(threshold, events[..k + 1], before, p);
      if p in before {
        ReportMoves(threshold, before, events[k].peer, p, Reporters(events[..k], p));
      }
    }
  }

  // ---------- the module's state, updated in place ----------

  class InstructionStorage {
    var currentlyExecuted: Tracked
    var output: seq<OutEvent>
    const acceptThreshold: nat

    constructor (threshold: nat)
      ensures acceptThreshold == threshold && currentlyExecuted == map[] && output == []
    {
      acceptThreshold := threshold;
      currentlyExecuted, output := map[], [];
    }

    static method ComputeAffectedDataIds(program: Program) returns (ids: seq<Vid>)
      ensures (forall id :: id in ids <==> id in ResultIds(program)) && |ids| == |ResultIds(program)|
    {
      var affected := {};
      for i := 0 to |program|
        invariant affected == ResultIds(program[..i])
      {
        assert program[..i + 1][..i] == program[..i];
        affected := affected + {program[i].result};
      }
      assert program[..|program|] == program;
      ids := [];
      while affected != {}
        invariant affected <= ResultIds(program)
        invariant forall id :: id in ids <==> id in ResultIds(program) - affected
        invariant |ids| == |ResultIds(program)| - |affected|
        decreases |affected|
      {
        var id :| id in affected;
        affected := affected - {id};
        ids := ids + [id];
      }
    }

    method DoNotifyExecuted(who: PeerId, p: ProgramId) returns (finished: bool)
      modifies this`currentlyExecuted
      ensures (currentlyExecuted, finished) == NotifyExecuted(acceptThreshold, old(currentlyExecuted), who, p)
    {
      if p !in currentlyExecuted || currentlyExecuted[p].state.Finished? {
        return false;
      }
      var metadata := currentlyExecuted[p];
      var peers := metadata.state.peersFinished + {who};
      finished := |peers| >= acceptThreshold;
      currentlyExecuted := currentlyExecuted[p := metadata.(state := if finished then Finished else Executing(peers))];
    }

    method OnFinalizedProgram(p: ProgramId, program: Program) returns (ghost affected: seq<Vid>)
      modifies this
      ensures (forall id :: id in affected <==> id in ResultIds(program)) && |affected| == |ResultIds(program)|
      ensures var e := Step(acceptThreshold, old(currentlyExecuted), FinalizedProgram(p, program, affected));
        currentlyExecuted == e.programs && output == old(output) + e.out
    {
      var ids := ComputeAffectedDataIds(program);
      affected := ids;
      if p !in currentlyExecuted {
        currentlyExecuted := currentlyExecuted[p := Metadata(Executing({}), ids)];
      }
      output := output + [NextProgram(p, program)];
    }

    method OnExecutedProgram(peer: PeerId, p: ProgramId)
      modifies this
      ensures var e := Step(acceptThreshold, old(currentlyExecuted), ExecutedProgram(peer, p));
        currentlyExecuted == e.programs && output == old(output) + e.out
    {
      var finished := DoNotifyExecuted(peer, p);
      if finished {
        output := output + [FinishedExecution(p)];
      }
      if p in currentlyExecuted {
        output := output + [PeerShardsActualized(p, peer, currentlyExecuted[p].affected)];
      }
    }
  }
}
