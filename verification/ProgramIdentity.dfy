/**
 How programs are told apart (src/processor/mod.rs, src/behaviour/handlers.rs): by the hash of their
 instructions and the hash handed out with their transaction.  Since only the first transaction of
 an event is handed out with the hash of that event, equal programs further back share an identifier.
 */
module ProgramIdentity {
  import opened Types
  import opened Instructions
  import opened ConsensusGraph
  import I = InstructionMemory

  datatype Transaction = Execute(program: Program) | Executed(p: I.ProgramId) | Unrelated

  /** The hash of instructions, and the order in which their result ids come out of the hash set. */
  datatype Hashing = Hashing(hash: Program -> Hash, listed: Program -> seq<Vid>)

  function IdOf(hashing: Hashing, program: Program, eventHash: Hash): I.ProgramId {
    I.ProgramId(hashing.hash(program), eventHash)
  }

  /** `handle_tx`, as far as the instruction memory is concerned */
  function Passed(hashing: Hashing, tx: Tx<Transaction>): seq<I.InEvent> {
    match tx.tx
    case Execute(program) => [I.FinalizedProgram(IdOf(hashing, program, tx.hash), program, hashing.listed(program))]
    case Executed(p) => [I.ExecutedProgram(tx.author, p)]
    case Unrelated => []
  }

  function AllPassed(hashing: Hashing, txs: seq<Tx<Transaction>>): seq<I.InEvent> {
    if txs == [] then [] else AllPassed(hashing, txs[..|txs| - 1]) + Passed(hashing, txs[|txs| - 1])
  }

  /** The events of a graph that is not broken: no two have the same hash, and none has that of zeros. */
  ghost predicate DistinctHashes<T>(events: seq<Event<T>>) {
    && (forall e :: 0 <= e < |events| ==> events[e].hash != ZERO_HASH)
    && (forall e, f :: 0 <= e < f < |events| ==> events[e].hash != events[f].hash)
  }

  /** Transaction `i` of event `e` asks for the execution of a program. */
  predicate Asks(events: seq<Event<Transaction>>, e: nat, i: nat) {
    e < |events| && i < |events[e].payload| && events[e].payload[i].Execute?
  }

  /** The identifier it gets, from what is handed out in its place of the stream. */
  function IdAt(hashing: Hashing, events: seq<Event<Transaction>>, e: nat, i: nat): I.ProgramId
    requires Asks(events, e, i)
  {
    FlattenAt(events, ZERO_HASH, e, i);
    IdOf(hashing, events[e].payload[i].program, Flatten(events, ZERO_HASH)[Offset(events, e) + i].hash)
  }

  /**
   Two different requests get the same identifier exactly when the programs hash alike and neither is
   the first transaction of its event.
   */
  lemma SameIdIff(hashing: Hashing, events: seq<Event<Transaction>>, e: nat, i: nat, f: nat, j: nat)
    requires DistinctHashes(events) && Asks(events, e, i) && Asks(events, f, j) && (e, i) != (f, j)
    ensures IdAt(hashing, events, e, i) == IdAt(hashing, events, f, j) <==>
      hashing.hash(events[e].payload[i].program) == hashing.hash(events[f].payload[j].program) && i > 0 && j > 0
    ensures IdAt(hashing, events, e, i) ==
      I.ProgramId(hashing.hash(events[e].payload[i].program), if i == 0 then events[e].hash else ZERO_HASH)
  {
    FlattenAt(events, ZERO_HASH, e, i);
    FlattenAt(events, ZERO_HASH, f, j);
    if i == 0 && j == 0 {
      assert e < f ==> events[e].hash != events[f].hash;
      assert f < e ==> events[f].hash != events[e].hash;
    }
  }

  // ---------- one completion for both ----------

  /** How often the instruction memory is told of a program `p`. */
  function CountAsked(events: seq<I.InEvent>, p: I.ProgramId): nat {
    if events == [] then 0 else
    var last := events[|events| - 1];
    CountAsked(events[..|events| - 1], p) + if last.FinalizedProgram? && last.p == p then 1 else 0
  }

  /** How often it passes one on to the processor. */
  function CountPassedOn(out: seq<I.OutEvent>, p: I.ProgramId): nat {
    if out == [] then 0 else
    var last := out[|out| - 1];
    CountPassedOn(out[..|out| - 1], p) + if last.NextProgram? && last.p == p then 1 else 0
  }

  lemma {:induction false} PassedOnAppend(a: seq<I.OutEvent>, b: seq<I.OutEvent>, p: I.ProgramId)
    ensures CountPassedOn(a + b, p) == CountPassedOn(a, p) + CountPassedOn(b, p)
  {
    if b == [] {
      assert a + b == a;
    } else {
      assert (a + b)[..|a + b| - 1] == a + b[..|b| - 1];
      PassedOnAppend(a, b[..|b| - 1], p);
    }
  }

  lemma StepPassesOn(threshold: nat, programs: I.Tracked, ev: I.InEvent, p: I.ProgramId)
    ensures CountPassedOn(I.Step(threshold, programs, ev).out, p) == if ev.FinalizedProgram? && ev.p == p then 1 else 0
  {
    var out := I.Step(threshold, programs, ev).out;
    if |out| >= 1 {
      assert out[..1][..0] == [];
      assert CountPassedOn(out[..1], p) == if ev.FinalizedProgram? && ev.p == p then 1 else 0;
      assert |out| == 1 ==> out[..1] == out;
    }
  }

  lemma {:induction false} EveryRequestIsPassedOn(threshold: nat, events: seq<I.InEvent>, p: I.ProgramId)
    ensures CountPassedOn(I.Run(threshold, events).out, p) == CountAsked(events, p)
  {
    if events != [] {
      var n := |events| - 1;
      EveryRequestIsPassedOn(threshold, events[..n], p);
      var before := I.Run(threshold, events[..n]);
      PassedOnAppend(before.out, I.Step(threshold, before.programs, events[n]).out, p);
      StepPassesOn(threshold, before.programs, events[n], p);
    }
  }

  lemma AskedSnoc(events: seq<I.InEvent>, more: seq<I.InEvent>, p: I.ProgramId)
    requires |more| <= 1
    ensures CountAsked(events + more, p) ==
      CountAsked(events, p) + if |more| == 1 && more[0].FinalizedProgram? && more[0].p == p then 1 else 0
  {
    if more == [] {
      assert events + more == events;
    } else {
      assert (events + more)[..|events|] == events;
    }
  }

  predicate AsksFor(hashing: Hashing, tx: Tx<Transaction>, p: I.ProgramId) {
    tx.tx.Execute? && IdOf(hashing, tx.tx.program, tx.hash) == p
  }

  lemma PassedSnoc(hashing: Hashing, txs: seq<Tx<Transaction>>, p: I.ProgramId)
    requires txs != []
    ensures CountAsked(AllPassed(hashing, txs), p) ==
      CountAsked(AllPassed(hashing, txs[..|txs| - 1]), p) + if AsksFor(hashing, txs[|txs| - 1], p) then 1 else 0
  {
    AskedSnoc(AllPassed(hashing, txs[..|txs| - 1]), Passed(hashing, txs[|txs| - 1]), p);
  }

  /** The requests for `p` among the transactions. */
  function Requests(hashing: Hashing, txs: seq<Tx<Transaction>>, p: I.ProgramId): nat {
    if txs == [] then 0 else
    Requests(hashing, txs[..|txs| - 1], p) + if AsksFor(hashing, txs[|txs| - 1], p) then 1 else 0
  }

  lemma {:induction false} RequestsAreAsked(hashing: Hashing, txs: seq<Tx<Transaction>>, p: I.ProgramId)
    ensures CountAsked(AllPassed(hashing, txs), p) == Requests(hashing, txs, p)
  {
    if txs != [] {
      RequestsAreAsked(hashing, txs[..|txs| - 1], p);
      PassedSnoc(hashing, txs, p);
    }
  }

  lemma {:induction false} RequestedAt(hashing: Hashing, txs: seq<Tx<Transaction>>, p: I.ProgramId, x: nat)
    requires x < |txs| && AsksFor(hashing, txs[x], p)
    ensures Requests(hashing, txs, p) >= 1
  {
    var rest := txs[..|txs| - 1];
    if x < |rest| {
      assert rest[x] == txs[x];
      RequestedAt(hashing, rest, p, x);
    }
  }

  lemma {:induction false} RequestedTwice(hashing: Hashing, txs: seq<Tx<Transaction>>, p: I.ProgramId, x: nat, y: nat)
    requires x < y < |txs| && AsksFor(hashing, txs[x], p) && AsksFor(hashing, txs[y], p)
    ensures Requests(hashing, txs, p) >= 2
  {
    var rest := txs[..|txs| - 1];
    assert rest[x] == txs[x];
    if y < |rest| {
      assert rest[y] == txs[y];
      RequestedTwice(hashing, rest, p, x, y);
    } else {
      RequestedAt(hashing, rest, p, x);
    }
  }

  lemma {:induction false} OffsetsGrow<T>(events: seq<Event<T>>, e: nat, f: nat)
    requires e < f <= |events|
    ensures Offset(events, e) + |events[e].payload| <= Offset(events, f)
    decreases f
  {
    if e + 1 < f {
      OffsetsGrow(events, e, f - 1);
    }
  }

  /**
   Equal programs that are not first in their events: the processor is given both, but whatever the
   reports on either of them, completion is announced at most once for the two, and exactly when
   `K` distinct peers have reported either.
   */
  lemma SharedCompletion(hashing: Hashing, events: seq<Event<Transaction>>, e: nat, i: nat, f: nat, j: nat)
    requires Asks(events, e, i) && Asks(events, f, j) && i > 0 && j > 0 && (e < f || (e == f && i < j))
    requires events[e].payload[i].program == events[f].payload[j].program
    ensures var p, told := IdAt(hashing, events, e, i), AllPassed(hashing, Flatten(events, ZERO_HASH));
      && IdAt(hashing, events, f, j) == p
      && CountPassedOn(I.Run(K, told).out, p) >= 2
      && I.CountFinished(I.Run(K, told).out, p) == if I.Enough(K, I.Reporters(told, p)) then 1 else 0
  {
    var p, told := IdAt(hashing, events, e, i), AllPassed(hashing, Flatten(events, ZERO_HASH));
    TwoRequests(hashing, events, e, i, f, j);
    EveryRequestIsPassedOn(K, told, p);
    I.Quorum(K, told, p);
  }

  lemma TwoRequests(hashing: Hashing, events: seq<Event<Transaction>>, e: nat, i: nat, f: nat, j: nat)
    requires Asks(events, e, i) && Asks(events, f, j) && i > 0 && j > 0 && (e < f || (e == f && i < j))
    requires events[e].payload[i].program == events[f].payload[j].program
    ensures IdAt(hashing, events, f, j) == IdAt(hashing, events, e, i)
    ensures CountAsked(AllPassed(hashing, Flatten(events, ZERO_HASH)), IdAt(hashing, events, e, i)) >= 2
  {
    var p, txs := IdAt(hashing, events, e, i), Flatten(events, ZERO_HASH);
    BothAskFor(hashing, events, e, i, f, j);
    RequestedTwice(hashing, txs, p, Offset(events, e) + i, Offset(events, f) + j);
    RequestsAreAsked(hashing, txs, p);
  }

  lemma BothAskFor(hashing: Hashing, events: seq<Event<Transaction>>, e: nat, i: nat, f: nat, j: nat)
    requires Asks(events, e, i) && Asks(events, f, j) && i > 0 && j > 0 && (e < f || (e == f && i < j))
    requires events[e].payload[i].program == events[f].payload[j].program
    ensures IdAt(hashing, events, f, j) == IdAt(hashing, events, e, i)
    ensures var txs, x, y := Flatten(events, ZERO_HASH), Offset(events, e) + i, Offset(events, f) + j;
      && x < y < |txs|
      && AsksFor(hashing, txs[x], IdAt(hashing, events, e, i)) && AsksFor(hashing, txs[y], IdAt(hashing, events, e, i))
  {
    FlattenAt(events, ZERO_HASH, e, i);
    FlattenAt(events, ZERO_HASH, f, j);
    if e < f {
      OffsetsGrow(events, e, f);
    }
  }

  // ---------- reports and programs find their way ----------

  /** The authors of reports on `p` that come after a request for it. */
  function Authors(hashing: Hashing, txs: seq<Tx<Transaction>>, p: I.ProgramId): set<PeerId> {
    if txs == [] then {} else
    var rest, last := txs[..|txs| - 1], txs[|txs| - 1];
    Authors(hashing, rest, p) + if last.tx == Executed(p) && Requests(hashing, rest, p) > 0 then {last.author} else {}
  }

  lemma {:induction false} KnownIffRequested(hashing: Hashing, txs: seq<Tx<Transaction>>, p: I.ProgramId)
    ensures I.Known(AllPassed(hashing, txs), p) <==> Requests(hashing, txs, p) > 0
  {
    if txs != [] {
      var rest, last := txs[..|txs| - 1], txs[|txs| - 1];
      KnownIffRequested(hashing, rest, p);
      var events, more := AllPassed(hashing, rest), Passed(hashing, last);
      if more == [] {
        assert events + more == events;
      } else {
        assert (events + more)[..|events + more| - 1] == events && (events + more)[|events|] == more[0];
        I.KnownSnoc(events + more, p);
      }
    }
  }

  /** Whoever is counted for a program is the author of a report on it. */
  lemma {:induction false} ReportersAreAuthors(hashing: Hashing, txs: seq<Tx<Transaction>>, p: I.ProgramId)
    ensures I.Reporters(AllPassed(hashing, txs), p) == Authors(hashing, txs, p)
  {
    if txs != [] {
      var rest, last := txs[..|txs| - 1], txs[|txs| - 1];
      ReportersAreAuthors(hashing, rest, p);
      KnownIffRequested(hashing, rest, p);
      var events, more := AllPassed(hashing, rest), Passed(hashing, last);
      if more == [] {
        assert events + more == events;
      } else {
        assert (events + more)[..|events + more| - 1] == events && (events + more)[|events|] == more[0];
      }
    }
  }

  /** The programs requested, with their identifiers, in order. */
  function Requested(hashing: Hashing, txs: seq<Tx<Transaction>>): seq<(I.ProgramId, Program)> {
    if txs == [] then [] else
    var last := txs[|txs| - 1];
    Requested(hashing, txs[..|txs| - 1]) + if last.tx.Execute? then [(IdOf(hashing, last.tx.program, last.hash), last.tx.program)] else []
  }

  function PassedOn(out: seq<I.OutEvent>): seq<(I.ProgramId, Program)> {
    if out == [] then [] else
    var last := out[|out| - 1];
    PassedOn(out[..|out| - 1]) + if last.NextProgram? then [(last.p, last.program)] else []
  }

  lemma {:induction false} PassedOnSplits(a: seq<I.OutEvent>, b: seq<I.OutEvent>)
    ensures PassedOn(a + b) == PassedOn(a) + PassedOn(b)
  {
    if b == [] {
      assert a + b == a;
    } else {
      assert (a + b)[..|a + b| - 1] == a + b[..|b| - 1];
      PassedOnSplits(a, b[..|b| - 1]);
    }
  }

  lemma OnePassedOn(threshold: nat, programs: I.Tracked, ev: I.InEvent)
    ensures PassedOn(I.Step(threshold, programs, ev).out) == if ev.FinalizedProgram? then [(ev.p, ev.program)] else []
  {
    var out := I.Step(threshold, programs, ev).out;
    if |out| >= 1 {
      assert out[..1][..0] == [];
      assert PassedOn(out[..1]) == if ev.FinalizedProgram? then [(ev.p, ev.program)] else [];
      assert |out| == 1 ==> out[..1] == out;
    }
  }

  /** The processor is given every program requested, with its identifier, once each and in order. */
  lemma {:induction false} ProgramsInOrder(hashing: Hashing, txs: seq<Tx<Transaction>>, threshold: nat)
    ensures PassedOn(I.Run(threshold, AllPassed(hashing, txs)).out) == Requested(hashing, txs)
  {
    if txs != [] {
      var rest, last := txs[..|txs| - 1], txs[|txs| - 1];
      ProgramsInOrder(hashing, rest, threshold);
      OneMoreTx(hashing, AllPassed(hashing, rest), last, threshold);
    }
  }

  lemma OneMoreTx(hashing: Hashing, events: seq<I.InEvent>, last: Tx<Transaction>, threshold: nat)
    ensures PassedOn(I.Run(threshold, events + Passed(hashing, last)).out) == PassedOn(I.Run(threshold, events).out) +
      if last.tx.Execute? then [(IdOf(hashing, last.tx.program, last.hash), last.tx.program)] else []
  {
    var more := Passed(hashing, last);
    if more == [] {
      assert events + more == events;
    } else {
      assert more == [more[0]];
      OneMorePassed(threshold, events, more[0]);
    }
  }

  lemma OneMorePassed(threshold: nat, events: seq<I.InEvent>, ev: I.InEvent)
    ensures PassedOn(I.Run(threshold, events + [ev]).out) ==
      PassedOn(I.Run(threshold, events).out) + if ev.FinalizedProgram? then [(ev.p, ev.program)] else []
  {
    assert (events + [ev])[..|events|] == events;
    var before := I.Run(threshold, events);
    PassedOnSplits(before.out, I.Step(threshold, before.programs, ev).out);
    OnePassedOn(threshold, before.programs, ev);
  }
}
