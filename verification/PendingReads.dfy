/**
 A program whose operands are read while writes wait on the bus (src/data_memory/mod.rs and
 src/processor/single_threaded.rs).  Each read is served between two of the queued writes, so each
 sees the queue applied up to a point of its own.
 */
module PendingReads {
  import opened Types
  import opened Instructions
  import opened Processor
  import opened Provenance
  import MemoryBus

  /** How many of the queued writes have been applied when an id is read. */
  type Seen = Vid -> nat

  /** For the reads of the prefetch, and for those of each instruction whose operand is not in the context. */
  datatype Reading = Reading(fetch: Seen, during: seq<Seen>)

  function UpTo<T>(s: seq<T>, k: nat): seq<T> {
    if k < |s| then s[..k] else s
  }

  /** Memory as the reads see it. */
  function View(mem: Memory, queued: Writes, seen: Seen): Memory {
    map id | id in mem.Keys + WrittenIds(queued) && id in ApplyWrites(mem, UpTo(queued, seen(id))) ::
      ApplyWrites(mem, UpTo(queued, seen(id)))[id]
  }

  function Views(mem: Memory, queued: Writes, during: seq<Seen>): (views: seq<Memory>)
    ensures |views| == |during|
    decreases during
  {
    if during == [] then [] else [View(mem, queued, during[0])] + Views(mem, queued, during[1..])
  }

  /** `RunInContext`, each instruction finding memory as its own reads see it. */
  function RunSeeing(program: Program, context: Memory, views: seq<Memory>): Memory
    requires |views| == |program|
    decreases program
  {
    if program == [] then
      context
    else
      RunSeeing(program[1..], ContextStep(program[0], context, views[0]).0, views[1..])
  }

  function ContextSeen(program: Program, mem: Memory, queued: Writes, reading: Reading): Memory
    requires |reading.during| == |program|
  {
    RunSeeing(program, Prefetched(program, View(mem, queued, reading.fetch)), Views(mem, queued, reading.during))
  }

  /**
   In whatever order the context is written back, behind the queue, memory ends as if the queue
   had been drained before the program started.
   */
  ghost predicate SameAsDrained(program: Program, mem: Memory, queued: Writes, reading: Reading)
    requires |reading.during| == |program|
  {
    forall writes :: Enumerates(writes, ContextSeen(program, mem, queued, reading)) ==>
      ApplyWrites(mem, queued + writes) == DirectRun(program, ApplyWrites(mem, queued)).memory
  }

  lemma Leaves(program: Program, mem: Memory, queued: Writes, reading: Reading)
    requires |reading.during| == |program|
    ensures SameAsDrained(program, mem, queued, reading) <==>
      ApplyWrites(mem, queued) + ContextSeen(program, mem, queued, reading) == DirectRun(program, ApplyWrites(mem, queued)).memory
  {
    var context := ContextSeen(program, mem, queued, reading);
    forall writes | Enumerates(writes, context)
      ensures ApplyWrites(mem, queued + writes) == ApplyWrites(mem, queued) + context
    {
      ApplyAppend(mem, queued, writes);
      ApplyEnumeration(ApplyWrites(mem, queued), writes, context);
    }
    var some := SomeEnumeration(context);
    assert ApplyWrites(mem, queued + some) == ApplyWrites(mem, queued) + context;
  }

  // ---------- traces ----------

  /** Memory with the first `k` writes of `ids` applied, every value being an origin of its own. */
  function WrittenTrace(keys: set<Vid>, ids: seq<Vid>): Trace {
    if ids == [] then
      map id | id in keys :: {2 * id}
    else
      WrittenTrace(keys, ids[..|ids| - 1])[ids[|ids| - 1] := {2 * (|ids| - 1) + 1}]
  }

  function IdsOf(ids: seq<Vid>): set<Vid> {
    if ids == [] then {} else IdsOf(ids[..|ids| - 1]) + {ids[|ids| - 1]}
  }

  function ViewTrace(keys: set<Vid>, ids: seq<Vid>, seen: Seen): Trace {
    map id | id in keys + IdsOf(ids) && id in WrittenTrace(keys, UpTo(ids, seen(id))) ::
      WrittenTrace(keys, UpTo(ids, seen(id)))[id]
  }

  function ViewTraces(keys: set<Vid>, ids: seq<Vid>, during: seq<Seen>): (views: seq<Trace>)
    ensures |views| == |during|
    decreases during
  {
    if during == [] then [] else [ViewTrace(keys, ids, during[0])] + ViewTraces(keys, ids, during[1..])
  }

  function TracedSeeing(program: Program, context: Trace, views: seq<Trace>): Trace
    requires |views| == |program|
    decreases program
  {
    if program == [] then
      context
    else
      var op := program[0].operation;
      var all := views[0] + context;
      TracedSeeing(program[1..],
                   if Present(op, all.Keys) then context[program[0].result := TraceOf(op, all)] else context,
                   views[1..])
  }

  function SeenTrace(program: Program, keys: set<Vid>, ids: seq<Vid>, reading: Reading): Trace
    requires |reading.during| == |program|
  {
    WrittenTrace(keys, ids) +
    TracedSeeing(program, MemoryBus.Restricted(ViewTrace(keys, ids, reading.fetch), Needed(program)),
                 ViewTraces(keys, ids, reading.during))
  }

  function DrainedTrace(program: Program, keys: set<Vid>, ids: seq<Vid>): Trace {
    Traced(program, WrittenTrace(keys, ids))
  }

  // ---------- the values behind the traces ----------

  /** The memory and the queue that the values of the origins make. */
  ghost function MemOf(keys: set<Vid>, v: Values): Memory {
    map id | id in keys :: v(2 * id)
  }

  ghost function QueueOf(ids: seq<Vid>, v: Values): (queued: Writes)
    ensures |queued| == |ids|
  {
    if ids == [] then [] else QueueOf(ids[..|ids| - 1], v) + [(ids[|ids| - 1], v(2 * (|ids| - 1) + 1))]
  }

  lemma {:induction false} QueuePrefix(ids: seq<Vid>, v: Values, k: nat)
    ensures UpTo(QueueOf(ids, v), k) == QueueOf(UpTo(ids, k), v)
    decreases |ids|
  {
    if k < |ids| {
      QueuePrefix(ids[..|ids| - 1], v, k);
      assert UpTo(ids[..|ids| - 1], k) == ids[..k];
    }
  }

  lemma {:induction false} WrittenIs(keys: set<Vid>, ids: seq<Vid>, v: Values, n: nat)
    requires AllSized(v, n)
    ensures Evaluated(WrittenTrace(keys, ids), v, n) == ApplyWrites(MemOf(keys, v), QueueOf(ids, v))
    ensures WrittenIds(QueueOf(ids, v)) == IdsOf(ids)
  {
    if ids == [] {
      forall id | id in keys
        ensures Sum({2 * id}, v, n) == v(2 * id)
      {
        assert |v(2 * id)| == n;
        SumOne(2 * id, v, n);
      }
    } else {
      var k := |ids| - 1;
      WrittenIs(keys, ids[..k], v, n);
      assert |v(2 * k + 1)| == n;
      SumOne(2 * k + 1, v, n);
      EvaluatedUpdate(WrittenTrace(keys, ids[..k]), ids[k], {2 * k + 1}, v, n);
    }
  }

  lemma ViewIs(keys: set<Vid>, ids: seq<Vid>, seen: Seen, v: Values, n: nat)
    requires AllSized(v, n)
    ensures Evaluated(ViewTrace(keys, ids, seen), v, n) == View(MemOf(keys, v), QueueOf(ids, v), seen)
  {
    var a, b := Evaluated(ViewTrace(keys, ids, seen), v, n), View(MemOf(keys, v), QueueOf(ids, v), seen);
    forall id: Vid
      ensures Lookup(a, id) == Lookup(b, id)
    {
      SeenIs(keys, ids, seen, v, n, id);
    }
    SameLookups(a, b);
  }

  lemma SeenIs(keys: set<Vid>, ids: seq<Vid>, seen: Seen, v: Values, n: nat, id: Vid)
    requires AllSized(v, n)
    ensures Lookup(Evaluated(ViewTrace(keys, ids, seen), v, n), id) == Lookup(View(MemOf(keys, v), QueueOf(ids, v), seen), id)
  {
    WrittenIs(keys, ids, v, n);
    QueuePrefix(ids, v, seen(id));
    WrittenIs(keys, UpTo(ids, seen(id)), v, n);
    var t := WrittenTrace(keys, UpTo(ids, seen(id)));
    assert Lookup(Evaluated(t, v, n), id) == if id in t then Some(Sum(t[id], v, n)) else None;
  }

  ghost function AllEvaluated(views: seq<Trace>, v: Values, n: nat): (r: seq<Memory>)
    ensures |r| == |views|
    decreases views
  {
    if views == [] then [] else [Evaluated(views[0], v, n)] + AllEvaluated(views[1..], v, n)
  }

  lemma {:induction false} ViewsAre(keys: set<Vid>, ids: seq<Vid>, during: seq<Seen>, v: Values, n: nat)
    requires AllSized(v, n)
    ensures AllEvaluated(ViewTraces(keys, ids, during), v, n) == Views(MemOf(keys, v), QueueOf(ids, v), during)
    decreases during
  {
    if during != [] {
      ViewIs(keys, ids, during[0], v, n);
      ViewsAre(keys, ids, during[1..], v, n);
      assert ViewTraces(keys, ids, during)[1..] == ViewTraces(keys, ids, during[1..]);
    }
  }

  /** A linear program on what it sees leaves the context its trace says. */
  lemma {:induction false} SeeingIsComputed(program: Program, context: Trace, views: seq<Trace>, v: Values, n: nat)
    requires IsLinear(program) && |views| == |program|
    ensures RunSeeing(program, Evaluated(context, v, n), AllEvaluated(views, v, n)) ==
      Evaluated(TracedSeeing(program, context, views), v, n)
    decreases program
  {
    if program != [] {
      OneIsComputed(program[0], context, views[0], v, n);
      var op, all := program[0].operation, views[0] + context;
      var context' := if Present(op, all.Keys) then context[program[0].result := TraceOf(op, all)] else context;
      SeeingIsComputed(program[1..], context', views[1..], v, n);
      assert AllEvaluated(views, v, n)[1..] == AllEvaluated(views[1..], v, n);
    }
  }

  lemma OneIsComputed(ins: Instruction, context: Trace, view: Trace, v: Values, n: nat)
    requires ins.operation.Linear()
    ensures var all := view + context;
      ContextStep(ins, Evaluated(context, v, n), Evaluated(view, v, n)).0 ==
      Evaluated(if Present(ins.operation, all.Keys) then context[ins.result := TraceOf(ins.operation, all)] else context, v, n)
  {
    var all := view + context;
    MemoryBus.EvaluatedParts(view, context, {}, v, n);
    assert Evaluated(all, v, n).Keys == all.Keys;
    FetchDefined(ins.operation, Evaluated(all, v, n));
    if Present(ins.operation, all.Keys) {
      TraceOfOp(ins.operation, all, v, n);
      EvaluatedUpdate(context, ins.result, TraceOf(ins.operation, all), v, n);
    }
  }

  lemma PrefetchIs(program: Program, keys: set<Vid>, ids: seq<Vid>, seen: Seen, v: Values, n: nat)
    requires AllSized(v, n)
    ensures Evaluated(MemoryBus.Restricted(ViewTrace(keys, ids, seen), Needed(program)), v, n) ==
      Prefetched(program, View(MemOf(keys, v), QueueOf(ids, v), seen))
  {
    ViewIs(keys, ids, seen, v, n);
    MemoryBus.EvaluatedParts(map[], ViewTrace(keys, ids, seen), Needed(program), v, n);
  }

  lemma ContextIs(program: Program, keys: set<Vid>, ids: seq<Vid>, reading: Reading, v: Values, n: nat)
    requires IsLinear(program) && |reading.during| == |program| && AllSized(v, n)
    ensures ContextSeen(program, MemOf(keys, v), QueueOf(ids, v), reading) ==
      Evaluated(TracedSeeing(program, MemoryBus.Restricted(ViewTrace(keys, ids, reading.fetch), Needed(program)),
                             ViewTraces(keys, ids, reading.during)), v, n)
  {
    PrefetchIs(program, keys, ids, reading.fetch, v, n);
    ViewsAre(keys, ids, reading.during, v, n);
    SeeingIsComputed(program, MemoryBus.Restricted(ViewTrace(keys, ids, reading.fetch), Needed(program)),
                     ViewTraces(keys, ids, reading.during), v, n);
  }

  /** What is left and what should be left are the values of the two traces. */
  lemma SameIffTraces(program: Program, keys: set<Vid>, ids: seq<Vid>, reading: Reading, v: Values, n: nat)
    requires IsLinear(program) && |reading.during| == |program| && AllSized(v, n)
    ensures SameAsDrained(program, MemOf(keys, v), QueueOf(ids, v), reading) <==>
      Evaluated(SeenTrace(program, keys, ids, reading), v, n) == Evaluated(DrainedTrace(program, keys, ids), v, n)
  {
    Leaves(program, MemOf(keys, v), QueueOf(ids, v), reading);
    WrittenIs(keys, ids, v, n);
    TracedIsComputed(program, WrittenTrace(keys, ids), v, n);
    ContextIs(program, keys, ids, reading, v, n);
    MemoryBus.EvaluatedParts(
      WrittenTrace(keys, ids),
      TracedSeeing(program, MemoryBus.Restricted(ViewTrace(keys, ids, reading.fetch), Needed(program)),
                   ViewTraces(keys, ids, reading.during)), {}, v, n);
  }

  // ---------- for all values ----------

  /** Some values of `n` bytes in memory, and a queue of writes to `ids`. */
  ghost predicate Fills(mem: Memory, queued: Writes, keys: set<Vid>, ids: seq<Vid>, n: nat) {
    && mem.Keys == keys && Sized(mem, n) && |queued| == |ids|
    && forall j :: 0 <= j < |ids| ==> queued[j].0 == ids[j] && |queued[j].1| == n
  }

  ghost predicate AlwaysSame(program: Program, keys: set<Vid>, ids: seq<Vid>, reading: Reading, n: nat)
    requires |reading.during| == |program|
  {
    forall mem: Memory, queued: Writes :: Fills(mem, queued, keys, ids, n) ==> SameAsDrained(program, mem, queued, reading)
  }

  function Origins(mem: Memory, queued: Writes, n: nat): Values {
    (x: Origin) => OriginAt(mem, queued, n, x)
  }

  function OriginAt(mem: Memory, queued: Writes, n: nat, x: Origin): Bytes {
    if x % 2 == 0 && x / 2 in mem then mem[x / 2]
    else if x % 2 == 1 && x / 2 < |queued| then queued[x / 2].1
    else Zeros(n)
  }

  lemma Parity(k: nat)
    ensures (2 * k) % 2 == 0 && (2 * k) / 2 == k && (2 * k + 1) % 2 == 1 && (2 * k + 1) / 2 == k
  {
  }

  lemma MemIs(mem: Memory, queued: Writes, n: nat)
    ensures MemOf(mem.Keys, Origins(mem, queued, n)) == mem
  {
    forall id | id in mem
      ensures Origins(mem, queued, n)(2 * id) == mem[id]
    {
      Parity(id);
    }
  }

  lemma {:induction false} QueueIs(mem: Memory, queued: Writes, ids: seq<Vid>, n: nat)
    requires |ids| <= |queued| && forall j :: 0 <= j < |ids| ==> queued[j].0 == ids[j]
    ensures QueueOf(ids, Origins(mem, queued, n)) == queued[..|ids|]
    decreases |ids|
  {
    if ids != [] {
      var k := |ids| - 1;
      QueueIs(mem, queued, ids[..k], n);
      Parity(k);
      assert Origins(mem, queued, n)(2 * k + 1) == queued[k].1;
    }
  }

  lemma OriginsSized(mem: Memory, queued: Writes, keys: set<Vid>, ids: seq<Vid>, n: nat)
    requires Fills(mem, queued, keys, ids, n)
    ensures AllSized(Origins(mem, queued, n), n)
  {
  }

  lemma {:induction false} QueueFills(keys: set<Vid>, ids: seq<Vid>, v: Values, n: nat)
    requires AllSized(v, n)
    ensures Fills(MemOf(keys, v), QueueOf(ids, v), keys, ids, n)
  {
    if ids != [] {
      QueueFills(keys, ids[..|ids| - 1], v, n);
      assert |v(2 * (|ids| - 1) + 1)| == n;
    }
    forall id | id in keys
      ensures |MemOf(keys, v)[id]| == n
    {
      assert |v(2 * id)| == n;
    }
  }

  /**
   Whichever part of the queue each single read saw: a linear program leaves, for all values in
   memory and in the queue, what it leaves after draining, if and only if two traces are equal.
   Both are read off the program, the ids and the points at which the reads were served.
   */
  lemma ReadsMixIff(program: Program, keys: set<Vid>, ids: seq<Vid>, reading: Reading, n: nat)
    requires IsLinear(program) && |reading.during| == |program| && 0 < n
    ensures AlwaysSame(program, keys, ids, reading, n) <==>
      SeenTrace(program, keys, ids, reading) == DrainedTrace(program, keys, ids)
  {
    var seen, drained := SeenTrace(program, keys, ids, reading), DrainedTrace(program, keys, ids);
    if seen == drained {
      forall mem: Memory, queued: Writes | Fills(mem, queued, keys, ids, n)
        ensures SameAsDrained(program, mem, queued, reading)
      {
        OriginsSized(mem, queued, keys, ids, n);
        MemIs(mem, queued, n);
        QueueIs(mem, queued, ids, n);
        assert queued[..|ids|] == queued;
        SameIffTraces(program, keys, ids, reading, Origins(mem, queued, n), n);
      }
    } else {
      var v := SomeValuesDiffer(seen, drained, n);
      QueueFills(keys, ids, v, n);
      SameIffTraces(program, keys, ids, reading, v, n);
    }
  }

  lemma SomeValuesDiffer(a: Trace, b: Trace, n: nat) returns (v: Values)
    requires a != b && 0 < n
    ensures AllSized(v, n) && Evaluated(a, v, n) != Evaluated(b, v, n)
  {
    var id := TracesDiffer(a, b);
    SameForAllValuesIff(a, b, id, n);
    v :| AllSized(v, n) && Lookup(Evaluated(a, v, n), id) != Lookup(Evaluated(b, v, n), id);
  }

  /** A program none of whose operands is written by the queue may be read at any points. */
  lemma UntouchedReads(program: Program, mem: Memory, queued: Writes, reading: Reading)
    requires |reading.during| == |program| && WrittenIds(queued) !! Needed(program)
    ensures SameAsDrained(program, mem, queued, reading)
  {
    Leaves(program, mem, queued, reading);
    var later := ApplyWrites(mem, queued);
    ViewAgrees(mem, queued, reading.fetch, Needed(program));
    MemoryBus.SamePrefetch(program, View(mem, queued, reading.fetch), later);
    SeeingIsCalm(program, Prefetched(program, later), mem, queued, reading.during);
    var writes := SomeEnumeration(WriteBack(program, later).context);
    CacheRefinement(program, later, writes);
    ApplyEnumeration(later, writes, WriteBack(program, later).context);
  }

  lemma {:induction false} Unwritten(mem: Memory, queued: Writes, id: Vid)
    requires id !in WrittenIds(queued)
    ensures Lookup(ApplyWrites(mem, queued), id) == Lookup(mem, id)
  {
    if queued != [] {
      Unwritten(mem, queued[..|queued| - 1], id);
    }
  }

  lemma {:induction false} UnwrittenBefore(queued: Writes, k: nat, id: Vid)
    requires id !in WrittenIds(queued)
    ensures id !in WrittenIds(UpTo(queued, k))
    decreases |queued|
  {
    if k < |queued| {
      UnwrittenBefore(queued[..|queued| - 1], k, id);
      assert UpTo(queued[..|queued| - 1], k) == queued[..k];
    }
  }

  lemma ViewAgrees(mem: Memory, queued: Writes, seen: Seen, ids: set<Vid>)
    requires WrittenIds(queued) !! ids
    ensures forall id :: id in ids ==> Lookup(View(mem, queued, seen), id) == Lookup(ApplyWrites(mem, queued), id)
  {
    forall id | id in ids
      ensures Lookup(View(mem, queued, seen), id) == Lookup(ApplyWrites(mem, queued), id)
    {
      UnwrittenBefore(queued, seen(id), id);
      Unwritten(mem, UpTo(queued, seen(id)), id);
      Unwritten(mem, queued, id);
    }
  }

  lemma {:induction false} SeeingIsCalm(program: Program, context: Memory, mem: Memory, queued: Writes, during: seq<Seen>)
    requires |during| == |program| && WrittenIds(queued) !! Needed(program)
    ensures RunSeeing(program, context, Views(mem, queued, during)) ==
      RunInContext(program, context, ApplyWrites(mem, queued)).context
    decreases program
  {
    if program != [] {
      var op, later := program[0].operation, ApplyWrites(mem, queued);
      var view := View(mem, queued, during[0]);
      ViewAgrees(mem, queued, during[0], Needed(program));
      forall id | id in op.Args()
        ensures Lookup(view + context, id) == Lookup(later + context, id)
      {
        assert id in Needed(program);
        assert Lookup(view, id) == Lookup(later, id);
      }
      FetchSame(op, view + context, later + context);
      assert Views(mem, queued, during)[1..] == Views(mem, queued, during[1..]);
      SeeingIsCalm(program[1..], ContextStep(program[0], context, view).0, mem, queued, during[1..]);
    }
  }
}
