/**
 The bus between the processor and the data memory (src/data_memory/mod.rs and
 src/processor/single_threaded.rs).  Writes wait in a queue; reads are another queue, served
 by the same unordered `select!`, so a read may be served before writes that were sent earlier.
 */
module MemoryBus {
  import opened Types
  import opened Instructions
  import opened Processor
  import opened Provenance
  import D = DataMemory

  datatype Bus = Bus(memory: D.State, writes: Writes, answers: seq<Option<Bytes>>)

  /** `Send` queues a write, `Drain` lets the data memory take one, `Read` lets it answer one read. */
  datatype BusStep = Send(id: Vid, shard: Bytes) | Drain | Read(id: Vid)

  function Take(cfg: D.Config, b: Bus, step: BusStep): Bus {
    match step
    case Send(id, shard) => b.(writes := b.writes + [(id, shard)])
    case Drain =>
      if b.writes == [] then b else
      b.(memory := D.Written(cfg, b.memory, b.writes[0].0, b.writes[0].1).state, writes := b.writes[1..])
    case Read(id) => b.(answers := b.answers + [Lookup(D.OwnShards(cfg, b.memory), id)])
  }

  function TakeAll(cfg: D.Config, b: Bus, steps: seq<BusStep>): Bus {
    if steps == [] then b else Take(cfg, TakeAll(cfg, b, steps[..|steps| - 1]), steps[|steps| - 1])
  }

  function Sends(step: BusStep): Writes {
    if step.Send? then [(step.id, step.shard)] else []
  }

  function Sent(steps: seq<BusStep>): Writes {
    if steps == [] then [] else Sent(steps[..|steps| - 1]) + Sends(steps[|steps| - 1])
  }

  function ReadsIn(steps: seq<BusStep>): seq<Vid> {
    if steps == [] then
      []
    else
      var last := steps[|steps| - 1];
      ReadsIn(steps[..|steps| - 1]) + if last.Read? then [last.id] else []
  }

  /** A peer without an assigned shard ignores what is written. */
  function Kept(cfg: D.Config, mem: Memory, writes: Writes): Memory {
    if cfg.Assigned().Some? then ApplyWrites(mem, writes) else mem
  }

  /** The first `done` writes of `sent` have been applied, in order, and the others are queued. */
  ghost predicate Applied(cfg: D.Config, start: D.State, b: Bus, sent: Writes, done: nat) {
    && done <= |sent|
    && b.writes == sent[done..]
    && D.OwnOnly(cfg, b.memory)
    && D.OwnShards(cfg, b.memory) == Kept(cfg, D.OwnShards(cfg, start), sent[..done])
  }

  ghost predicate SeesPrefix(cfg: D.Config, mem: Memory, sent: Writes, id: Vid, answer: Option<Bytes>) {
    exists k :: 0 <= k <= |sent| && answer == Lookup(Kept(cfg, mem, sent[..k]), id)
  }

  /** Each answer is what some prefix of the writes gives. */
  ghost predicate AnswersSeePrefixes(cfg: D.Config, mem: Memory, sent: Writes, ids: seq<Vid>, answers: seq<Option<Bytes>>) {
    |answers| == |ids| && forall i :: 0 <= i < |ids| ==> SeesPrefix(cfg, mem, sent, ids[i], answers[i])
  }

  lemma WrittenOwn(cfg: D.Config, s: D.State, id: Vid, shard: Bytes)
    requires D.OwnOnly(cfg, s) && cfg.Assigned().Some?
    ensures D.OwnOnly(cfg, D.Written(cfg, s, id, shard).state)
    ensures D.OwnShards(cfg, D.Written(cfg, s, id, shard).state) == D.OwnShards(cfg, s)[id := shard]
  {}

  lemma StepApplied(cfg: D.Config, start: D.State, b: Bus, step: BusStep, sent: Writes, done: nat) returns (done': nat)
    requires Applied(cfg, start, b, sent, done)
    ensures Applied(cfg, start, Take(cfg, b, step), sent + Sends(step), done')
  {
    done' := done;
    match step {
      case Send(id, shard) =>
        var sent' := sent + [(id, shard)];
        assert sent'[done..] == sent[done..] + [(id, shard)] && sent'[..done] == sent[..done];
      case Drain =>
        assert sent + [] == sent;
        if b.writes != [] {
          if cfg.Assigned().Some? {
            WrittenOwn(cfg, b.memory, sent[done].0, sent[done].1);
          }
          assert sent[..done + 1][..done] == sent[..done];
          done' := done + 1;
        }
      case Read(id) =>
        assert sent + [] == sent;
    }
  }

  /**
   Whatever the schedule, the writes are applied in the order they were sent, and every read sees
   some prefix of them; on a peer without an assigned shard none is applied and no read finds anything.
   */
  lemma {:induction false} Interleavings(cfg: D.Config, start: D.State, steps: seq<BusStep>) returns (done: nat)
    requires D.OwnOnly(cfg, start)
    ensures Applied(cfg, start, TakeAll(cfg, Bus(start, [], []), steps), Sent(steps), done)
    ensures AnswersSeePrefixes(cfg, D.OwnShards(cfg, start), Sent(steps), ReadsIn(steps),
      TakeAll(cfg, Bus(start, [], []), steps).answers)
  {
    if steps == [] {
      done := 0;
    } else {
      var n := |steps| - 1;
      var before := Interleavings(cfg, start, steps[..n]);
      var b, sent := TakeAll(cfg, Bus(start, [], []), steps[..n]), Sent(steps[..n]);
      assert Sent(steps) == sent + Sends(steps[n]);
      done := StepApplied(cfg, start, b, steps[n], sent, before);
      var mem := D.OwnShards(cfg, start);
      KeepPrefixes(cfg, mem, sent, Sent(steps), ReadsIn(steps[..n]), b.answers);
      if steps[n].Read? {
        assert SeesPrefix(cfg, mem, sent, steps[n].id, Lookup(D.OwnShards(cfg, b.memory), steps[n].id));
        assert Sent(steps) == sent;
      }
    }
  }

  lemma KeepPrefixes(cfg: D.Config, mem: Memory, sent: Writes, sent': Writes, ids: seq<Vid>, answers: seq<Option<Bytes>>)
    requires AnswersSeePrefixes(cfg, mem, sent, ids, answers) && sent <= sent'
    ensures AnswersSeePrefixes(cfg, mem, sent', ids, answers)
  {
    forall i | 0 <= i < |ids|
      ensures SeesPrefix(cfg, mem, sent', ids[i], answers[i])
    {
      assert SeesPrefix(cfg, mem, sent, ids[i], answers[i]);
      var k :| 0 <= k <= |sent| && answers[i] == Lookup(Kept(cfg, mem, sent[..k]), ids[i]);
      assert sent'[..k] == sent[..k];
    }
  }

  /** Once the queue is empty, the memory is exactly what the program that sent the writes computed. */
  lemma DrainedProgram(cfg: D.Config, start: D.State, steps: seq<BusStep>, program: Program)
    requires D.OwnOnly(cfg, start)
    requires Enumerates(Sent(steps), WriteBack(program, D.OwnShards(cfg, start)).context)
    requires TakeAll(cfg, Bus(start, [], []), steps).writes == []
    ensures D.OwnShards(cfg, TakeAll(cfg, Bus(start, [], []), steps).memory) ==
      DirectRun(program, D.OwnShards(cfg, start)).memory
  {
    var done := Interleavings(cfg, start, steps);
    assert Sent(steps)[..done] == Sent(steps);
    if cfg.Assigned().Some? {
      CacheRefinement(program, D.OwnShards(cfg, start), Sent(steps));
    } else {
      NothingToRunOn(program);
    }
  }

  /** On empty memory every instruction is skipped. */
  lemma {:induction false} NothingToRunOn(program: Program)
    ensures DirectRun(program, map[]).memory == map[]
  {
    if program != [] {
      FetchDefined(program[0].operation, map[]);
      assert program[0].operation.Args()[0] in program[0].operation.Args();
      NothingToRunOn(program[1..]);
    }
  }

  // ---------- reads that overtake writes ----------

  function LastWrite(writes: Writes, id: Vid): Option<Bytes> {
    if writes == [] then
      None
    else if writes[|writes| - 1].0 == id then
      Some(writes[|writes| - 1].1)
    else
      LastWrite(writes[..|writes| - 1], id)
  }

  lemma {:induction false} LookupApplied(mem: Memory, writes: Writes, id: Vid)
    ensures Lookup(ApplyWrites(mem, writes), id) ==
      if LastWrite(writes, id).Some? then LastWrite(writes, id) else Lookup(mem, id)
  {
    if writes != [] {
      LookupApplied(mem, writes[..|writes| - 1], id);
    }
  }

  /** A read served now equals a read served after draining exactly when no queued write changes that id. */
  lemma ReadNowOrLater(mem: Memory, queued: Writes, id: Vid)
    ensures Lookup(mem, id) == Lookup(ApplyWrites(mem, queued), id) <==>
      (LastWrite(queued, id) == None || LastWrite(queued, id) == Lookup(mem, id))
  {
    LookupApplied(mem, queued, id);
  }

  // ---------- programs that start while writes wait ----------

  /** No queued write changes what `id` reads as. */
  predicate ReadsTheSame(mem: Memory, queued: Writes, id: Vid) {
    LastWrite(queued, id) == None || LastWrite(queued, id) == Lookup(mem, id)
  }

  /**
   A program whose reads are all served while `queued` waits leaves what it would have left had the
   queue been drained first; its own writes, in whatever order, come behind the queue.
   */
  ghost predicate EarlyIsSame(program: Program, mem: Memory, queued: Writes) {
    forall writes :: Enumerates(writes, WriteBack(program, mem).context) ==>
      ApplyWrites(mem, queued + writes) == DirectRun(program, ApplyWrites(mem, queued)).memory
  }

  lemma EarlyLeaves(program: Program, mem: Memory, queued: Writes)
    ensures EarlyIsSame(program, mem, queued) <==>
      ApplyWrites(mem, queued) + WriteBack(program, mem).context == DirectRun(program, ApplyWrites(mem, queued)).memory
  {
    var context := WriteBack(program, mem).context;
    forall writes | Enumerates(writes, context)
      ensures ApplyWrites(mem, queued + writes) == ApplyWrites(mem, queued) + context
    {
      ApplyAppend(mem, queued, writes);
      ApplyEnumeration(ApplyWrites(mem, queued), writes, context);
    }
    var some := SomeEnumeration(context);
    assert ApplyWrites(mem, queued + some) == ApplyWrites(mem, queued) + context;
  }

  /** A program whose operands read the same now and later may start at any time. */
  lemma UnchangedReads(program: Program, mem: Memory, queued: Writes)
    requires forall id :: id in Needed(program) ==> ReadsTheSame(mem, queued, id)
    ensures EarlyIsSame(program, mem, queued)
  {
    var later := ApplyWrites(mem, queued);
    forall id | id in Needed(program)
      ensures Lookup(mem, id) == Lookup(later, id)
    {
      ReadNowOrLater(mem, queued, id);
    }
    SamePrefetch(program, mem, later);
    var during := seq(|program|, i => map[]);
    AmidIsCalm(program, Prefetched(program, mem), mem, later, during);
    AmidIsCalm(program, Prefetched(program, mem), mem, mem, during);
    var writes := SomeEnumeration(WriteBack(program, later).context);
    CacheRefinement(program, later, writes);
    ApplyEnumeration(later, writes, WriteBack(program, later).context);
    EarlyLeaves(program, mem, queued);
  }

  lemma SamePrefetch(program: Program, a: Memory, b: Memory)
    requires forall id :: id in Needed(program) ==> Lookup(a, id) == Lookup(b, id)
    ensures Prefetched(program, a) == Prefetched(program, b)
  {
    forall id
      ensures Lookup(Prefetched(program, a), id) == Lookup(Prefetched(program, b), id)
    {
      assert id in Needed(program) ==> Lookup(a, id) == Lookup(b, id);
    }
    SameLookups(Prefetched(program, a), Prefetched(program, b));
  }

  /** An operand that the program does not assign goes back to memory as it was read. */
  lemma OperandGoesBack(program: Program, mem: Memory, id: Vid)
    requires id in Needed(program) && id in mem && id !in ResultIds(program)
    ensures id in WriteBack(program, mem).context && WriteBack(program, mem).context[id] == mem[id]
  {
    var context := WriteBack(program, mem).context;
    WriteBackKeys(program, mem);
    var writes := SomeEnumeration(context);
    CacheRefinement(program, mem, writes);
    ApplyEnumeration(mem, writes, context);
    assert (mem + context)[id] == context[id];
    DirectRunAssigns(program, mem);
    RanAll(program, mem.Keys);
  }

  /**
   A program with all its operands in memory, none of which it assigns itself, may start while
   writes wait exactly when none of them changes an operand.
   */
  lemma EarlyProgramIff(program: Program, mem: Memory, queued: Writes)
    requires Needed(program) <= mem.Keys && Needed(program) !! ResultIds(program)
    ensures EarlyIsSame(program, mem, queued) <==> forall id :: id in Needed(program) ==> ReadsTheSame(mem, queued, id)
  {
    if EarlyIsSame(program, mem, queued) {
      var later, context := ApplyWrites(mem, queued), WriteBack(program, mem).context;
      EarlyLeaves(program, mem, queued);
      DirectRunAssigns(program, later);
      RanAll(program, later.Keys);
      forall id | id in Needed(program)
        ensures ReadsTheSame(mem, queued, id)
      {
        OperandGoesBack(program, mem, id);
        assert (later + context)[id] == context[id];
        assert Lookup(later + context, id) == Lookup(DirectRun(program, later).memory, id);
        ReadNowOrLater(mem, queued, id);
      }
    } else if forall id :: id in Needed(program) ==> ReadsTheSame(mem, queued, id) {
      UnchangedReads(program, mem, queued);
    }
  }

  // ---------- the same for all values, exactly ----------

  /** Every id in memory and every queued write is an origin of its own. */
  function Stored(keys: set<Vid>): Trace {
    map id | id in keys :: {2 * id}
  }

  function Queued(ids: set<Vid>): Trace {
    map id | id in ids :: {2 * id + 1}
  }

  function LateTrace(program: Program, keys: set<Vid>, ids: set<Vid>): Trace {
    Traced(program, Stored(keys) + Queued(ids))
  }

  function EarlyTrace(program: Program, keys: set<Vid>, ids: set<Vid>): Trace {
    Stored(keys) + Queued(ids) + Restricted(Traced(program, Stored(keys)), Processor.Kept(program, keys))
  }

  function Restricted<T>(m: map<Vid, T>, ids: set<Vid>): map<Vid, T> {
    map id | id in m && id in ids :: m[id]
  }

  ghost predicate AlwaysEarly(program: Program, keys: set<Vid>, ids: set<Vid>, n: nat) {
    forall mem: Memory, queued: Writes :: Fills(mem, queued, keys, ids, n) ==> EarlyIsSame(program, mem, queued)
  }

  /** Some values for the ids in memory and for the queued ones. */
  ghost predicate Fills(mem: Memory, queued: Writes, keys: set<Vid>, ids: set<Vid>, n: nat) {
    mem.Keys == keys && Sized(mem, n) && WrittenIds(queued) == ids && SizedWrites(queued, n)
  }

  ghost predicate SizedWrites(writes: Writes, n: nat) {
    forall i :: 0 <= i < |writes| ==> |writes[i].1| == n
  }

  function Origins(mem: Memory, queued: Memory, n: nat): Values {
    (x: Origin) =>
      if x % 2 == 0 && x / 2 in mem then mem[x / 2] else if x % 2 == 1 && x / 2 in queued then queued[x / 2] else Zeros(n)
  }

  lemma {:induction false} AsMap(mem: Memory, writes: Writes, n: nat)
    requires SizedWrites(writes, n)
    ensures ApplyWrites(mem, writes) == mem + ApplyWrites(map[], writes)
    ensures ApplyWrites(map[], writes).Keys == WrittenIds(writes) && Sized(ApplyWrites(map[], writes), n)
  {
    if writes != [] {
      AsMap(mem, writes[..|writes| - 1], n);
    }
  }

  lemma OriginsAre(mem: Memory, queued: Memory, n: nat)
    requires Sized(mem, n) && Sized(queued, n)
    ensures AllSized(Origins(mem, queued, n), n)
    ensures Evaluated(Stored(mem.Keys), Origins(mem, queued, n), n) == mem
    ensures Evaluated(Stored(mem.Keys) + Queued(queued.Keys), Origins(mem, queued, n), n) == mem + queued
  {
    OriginsAt(mem, queued, n);
    StoredIs(mem, Origins(mem, queued, n), n);
    QueuedIs(queued, Origins(mem, queued, n), n);
    EvaluatedParts(Stored(mem.Keys), Queued(queued.Keys), {}, Origins(mem, queued, n), n);
  }

  lemma StoredIs(mem: Memory, v: Values, n: nat)
    requires forall id :: id in mem ==> Sum({2 * id}, v, n) == mem[id]
    ensures Evaluated(Stored(mem.Keys), v, n) == mem
  {
  }

  lemma QueuedIs(queued: Memory, v: Values, n: nat)
    requires forall id :: id in queued ==> Sum({2 * id + 1}, v, n) == queued[id]
    ensures Evaluated(Queued(queued.Keys), v, n) == queued
  {
  }

  lemma OriginsAt(mem: Memory, queued: Memory, n: nat)
    requires Sized(mem, n) && Sized(queued, n)
    ensures AllSized(Origins(mem, queued, n), n)
    ensures forall id :: id in mem ==> Sum({2 * id}, Origins(mem, queued, n), n) == mem[id]
    ensures forall id :: id in queued ==> Sum({2 * id + 1}, Origins(mem, queued, n), n) == queued[id]
  {
    var v := Origins(mem, queued, n);
    forall id | id in mem
      ensures Sum({2 * id}, v, n) == mem[id]
    {
      assert 2 * id % 2 == 0 && 2 * id / 2 == id;
      SumOne(2 * id, v, n);
    }
    forall id | id in queued
      ensures Sum({2 * id + 1}, v, n) == queued[id]
    {
      assert (2 * id + 1) % 2 == 1 && (2 * id + 1) / 2 == id;
      SumOne(2 * id + 1, v, n);
    }
  }

  lemma OverrideRestricts(mem: Memory, context: Memory)
    ensures Restricted(mem + context, context.Keys) == context
  {
  }

  /** What is written back is what the direct interpreter computes, on the ids written back. */
  lemma WrittenBack(program: Program, mem: Memory)
    ensures WriteBack(program, mem).context == Restricted(DirectRun(program, mem).memory, Processor.Kept(program, mem.Keys))
  {
    var context := WriteBack(program, mem).context;
    WriteBackKeys(program, mem);
    PrefetchedIsMemory(program, mem);
    ContextTracksMemory(program, Prefetched(program, mem), mem);
    OverrideRestricts(mem, context);
  }

  lemma EvaluatedParts(a: Trace, b: Trace, ids: set<Vid>, v: Values, n: nat)
    ensures Evaluated(a + b, v, n) == Evaluated(a, v, n) + Evaluated(b, v, n)
    ensures Evaluated(Restricted(b, ids), v, n) == Restricted(Evaluated(b, v, n), ids)
  {
  }

  /** Both traces, evaluated at any values. */
  lemma TracesAreLeft(program: Program, keys: set<Vid>, ids: set<Vid>, v: Values, n: nat)
    requires IsLinear(program)
    ensures var mem, later := Evaluated(Stored(keys), v, n), Evaluated(Stored(keys) + Queued(ids), v, n);
      && later + WriteBack(program, mem).context == Evaluated(EarlyTrace(program, keys, ids), v, n)
      && DirectRun(program, later).memory == Evaluated(LateTrace(program, keys, ids), v, n)
  {
    var mem, back := Evaluated(Stored(keys), v, n), Processor.Kept(program, keys);
    TracedIsComputed(program, Stored(keys), v, n);
    TracedIsComputed(program, Stored(keys) + Queued(ids), v, n);
    assert mem.Keys == keys;
    WrittenBack(program, mem);
    EvaluatedParts(map[], Traced(program, Stored(keys)), back, v, n);
    EvaluatedParts(Stored(keys) + Queued(ids), Restricted(Traced(program, Stored(keys)), back), {}, v, n);
  }

  /** With the queue of `ids` filled in any way, early and late are the values of the two traces. */
  lemma EarlyIffTraces(program: Program, mem: Memory, queued: Writes, n: nat) returns (v: Values)
    requires IsLinear(program) && Sized(mem, n) && SizedWrites(queued, n)
    ensures AllSized(v, n)
    ensures EarlyIsSame(program, mem, queued) <==>
      Evaluated(EarlyTrace(program, mem.Keys, WrittenIds(queued)), v, n) ==
        Evaluated(LateTrace(program, mem.Keys, WrittenIds(queued)), v, n)
  {
    AsMap(mem, queued, n);
    var q := ApplyWrites(map[], queued);
    v := Origins(mem, q, n);
    OriginsAre(mem, q, n);
    TracesAreLeft(program, mem.Keys, WrittenIds(queued), v, n);
    EarlyLeaves(program, mem, queued);
  }

  /**
   A linear program may start while writes to `ids` wait, whatever the values in memory and in the
   queue, exactly when both traces, which are read off the program and the ids, are equal.
   */
  lemma AlwaysEarlyIff(program: Program, keys: set<Vid>, ids: set<Vid>, n: nat)
    requires IsLinear(program) && 0 < n
    ensures AlwaysEarly(program, keys, ids, n) <==> EarlyTrace(program, keys, ids) == LateTrace(program, keys, ids)
  {
    if EarlyTrace(program, keys, ids) == LateTrace(program, keys, ids) {
      forall mem: Memory, queued: Writes | Fills(mem, queued, keys, ids, n)
        ensures EarlyIsSame(program, mem, queued)
      {
        var v := EarlyIffTraces(program, mem, queued, n);
      }
    } else {
      var mem, queued := SomeEarlyDiffers(program, keys, ids, n);
    }
  }

  lemma SomeEarlyDiffers(program: Program, keys: set<Vid>, ids: set<Vid>, n: nat) returns (mem: Memory, queued: Writes)
    requires IsLinear(program) && 0 < n && EarlyTrace(program, keys, ids) != LateTrace(program, keys, ids)
    ensures Fills(mem, queued, keys, ids, n)
    ensures !EarlyIsSame(program, mem, queued)
  {
    var early, late := EarlyTrace(program, keys, ids), LateTrace(program, keys, ids);
    var id := TracesDiffer(early, late);
    SameForAllValuesIff(early, late, id, n);
    var v: Values :| AllSized(v, n) && Lookup(Evaluated(early, v, n), id) != Lookup(Evaluated(late, v, n), id);
    mem, queued := DiffersAt(program, keys, ids, v, n);
  }

  lemma DiffersAt(program: Program, keys: set<Vid>, ids: set<Vid>, v: Values, n: nat)
      returns (mem: Memory, queued: Writes)
    requires IsLinear(program)
    requires Evaluated(EarlyTrace(program, keys, ids), v, n) != Evaluated(LateTrace(program, keys, ids), v, n)
    ensures Fills(mem, queued, keys, ids, n)
    ensures !EarlyIsSame(program, mem, queued)
  {
    mem, queued := FilledIn(keys, ids, v, n);
    TracesAreLeft(program, keys, ids, v, n);
    EarlyLeaves(program, mem, queued);
  }

  /** Memory and queue with the values that the origins stand for. */
  lemma FilledIn(keys: set<Vid>, ids: set<Vid>, v: Values, n: nat) returns (mem: Memory, queued: Writes)
    ensures Fills(mem, queued, keys, ids, n)
    ensures mem == Evaluated(Stored(keys), v, n) && ApplyWrites(mem, queued) == Evaluated(Stored(keys) + Queued(ids), v, n)
  {
    mem := Evaluated(Stored(keys), v, n);
    var q := Evaluated(Queued(ids), v, n);
    queued := SomeEnumeration(q);
    EvaluatedSized(Stored(keys), v, n);
    EvaluatedSized(Queued(ids), v, n);
    SizedEnumeration(queued, q, n);
    ApplyEnumeration(mem, queued, q);
    EvaluatedParts(Stored(keys), Queued(ids), {}, v, n);
  }

  lemma SizedEnumeration(writes: Writes, context: Memory, n: nat)
    requires Enumerates(writes, context) && Sized(context, n)
    ensures SizedWrites(writes, n)
  {
    forall i | 0 <= i < |writes|
      ensures |writes[i].1| == n
    {
      assert context[writes[i].0] == writes[i].1;
    }
  }

  lemma EvaluatedSized(t: Trace, v: Values, n: nat)
    ensures Evaluated(t, v, n).Keys == t.Keys && Sized(Evaluated(t, v, n), n)
  {
  }

  // ---------- such a schedule ----------

  /** One program has sent its write, another reads before it is taken and sends its own. */
  const OVERTAKING: seq<BusStep> := OVERTAKEN + [Send(0, [1])] + [Send(1, [1])] + [Drain] + [Drain]

  lemma OneInstruction(ins: Instruction, mem: Memory, values: Operation<Bytes>)
    requires Fetch(ins.operation, mem) == Some(values)
    ensures DirectRun([ins], mem).memory == mem[ins.result := Calc(values)]
  {
    assert [ins][1..] == [];
  }

  lemma TakeOne(cfg: D.Config, b: Bus, steps: seq<BusStep>, step: BusStep)
    ensures TakeAll(cfg, b, steps + [step]) == Take(cfg, TakeAll(cfg, b, steps), step)
    ensures Sent(steps + [step]) == Sent(steps) + Sends(step)
  {
    assert (steps + [step])[..|steps|] == steps;
  }

  /** The first program's write, the read, and the write taken. */
  const OVERTAKEN: seq<BusStep> := [] + [Send(0, [0])] + [Read(0)] + [Drain]

  lemma OvertakenSteps(cfg: D.Config, start: D.State)
    ensures Sent(OVERTAKEN) == [(0, [0])]
    ensures TakeAll(cfg, Bus(start, [], []), OVERTAKEN).writes == []
    ensures TakeAll(cfg, Bus(start, [], []), OVERTAKEN).answers == [Lookup(D.OwnShards(cfg, start), 0)]
  {
    var b := Bus(start, [], []);
    TakeOne(cfg, b, [], Send(0, [0]));
    TakeOne(cfg, b, [] + [Send(0, [0])], Read(0));
    TakeOne(cfg, b, [] + [Send(0, [0])] + [Read(0)], Drain);
  }

  lemma OvertakingSteps(cfg: D.Config, start: D.State)
    ensures Sent(OVERTAKING) == [(0, [0]), (0, [1]), (1, [1])]
    ensures TakeAll(cfg, Bus(start, [], []), OVERTAKING).writes == []
    ensures TakeAll(cfg, Bus(start, [], []), OVERTAKING).answers == [Lookup(D.OwnShards(cfg, start), 0)]
  {
    var b := Bus(start, [], []);
    OvertakenSteps(cfg, start);
    TakeOne(cfg, b, OVERTAKEN, Send(0, [1]));
    TakeOne(cfg, b, OVERTAKEN + [Send(0, [1])], Send(1, [1]));
    TakeOne(cfg, b, OVERTAKEN + [Send(0, [1])] + [Send(1, [1])], Drain);
    TakeOne(cfg, b, OVERTAKEN + [Send(0, [1])] + [Send(1, [1])] + [Drain], Drain);
  }

  lemma CopyContext()
    ensures WriteBack(COPYING, map[0 := [1]]).context == map[0 := [1], 1 := [1]]
    ensures Needed(COPYING) == {0} && ResultIds(COPYING) == {1}
  {
    var mem: Memory := map[0 := [1]];
    assert COPYING[1..] == [] && COPYING[..0] == [];
    assert Needed(COPYING[1..]) == {};
    assert Needed(COPYING) == {0};
    assert Prefetched(COPYING, mem) == mem;
    assert Fetch(COPYING[0].operation, mem + mem) == Some(Inv([1])) && Calc(Inv([1])) == [1];
  }

  /**
   A schedule of the bus in which the copying program reads before the doubling program's write is
   taken.  When both have been drained, what memory holds is not what the two leave one after the
   other: the copy is the old value, and the old value itself has come back.
   */
  lemma OvertakingRead(cfg: D.Config, start: D.State)
    requires D.OwnOnly(cfg, start) && cfg.Assigned().Some? && D.OwnShards(cfg, start) == map[0 := [1]]
    ensures var end := TakeAll(cfg, Bus(start, [], []), OVERTAKING);
      && end.writes == [] && end.answers == [Some([1])]
      && D.OwnShards(cfg, end.memory) == map[0 := [1], 1 := [1]]
      && DirectRun(COPYING, DirectRun(DOUBLING, D.OwnShards(cfg, start)).memory).memory == map[0 := [0], 1 := [0]]
    ensures !EarlyIsSame(COPYING, map[0 := [1]], [(0, [0])])
  {
    OvertakingSteps(cfg, start);
    var done := Interleavings(cfg, start, OVERTAKING);
    assert Sent(OVERTAKING)[..done] == Sent(OVERTAKING);
    OvertakenMemory();
    InTurn();
    CopyContext();
    var queued: Writes := [(0, [0])];
    assert LastWrite(queued, 0) == Some([0]);
    EarlyProgramIff(COPYING, map[0 := [1]], queued);
  }

  lemma ApplyOne(mem: Memory, writes: Writes, id: Vid, value: Bytes)
    ensures ApplyWrites(mem, writes + [(id, value)]) == ApplyWrites(mem, writes)[id := value]
  {
    assert (writes + [(id, value)])[..|writes|] == writes;
  }

  lemma OvertakenMemory()
    ensures ApplyWrites(map[0 := [1]], [(0, [0]), (0, [1]), (1, [1])]) == map[0 := [1], 1 := [1]]
  {
    var mem: Memory, none: Writes := map[0 := [1]], [];
    ApplyOne(mem, none, 0, [0]);
    ApplyOne(mem, none + [(0, [0])], 0, [1]);
    ApplyOne(mem, none + [(0, [0])] + [(0, [1])], 1, [1]);
    assert none + [(0, [0])] + [(0, [1])] + [(1, [1])] == [(0, [0]), (0, [1]), (1, [1])];
  }

  /** The converse of `UnchangedReads` fails where a changed operand cancels out. */
  lemma ChangedOperandCancels()
    ensures 0 in Needed(DOUBLING) && !ReadsTheSame(map[0 := [1]], [(0, [2])], 0)
    ensures EarlyIsSame(DOUBLING, map[0 := [1]], [(0, [2])])
  {
    var mem: Memory, later: Memory, queued: Writes := map[0 := [1]], map[0 := [2]], [(0, [2])];
    assert DOUBLING[0].operation.Args()[0] == 0;
    ApplyOne(mem, [], 0, [2]);
    assert [] + [(0, [2])] == queued && ApplyWrites(mem, queued) == later;
    DoublingContext();
    DoubledTwo();
    EarlyLeaves(DOUBLING, mem, queued);
    assert later + map[0 := [0]] == map[0 := [0]];
  }

  lemma DoubledTwo()
    ensures DirectRun(DOUBLING, map[0 := [2]]).memory == map[0 := [0]]
  {
    var mem: Memory := map[0 := [2]];
    assert Calc(Plus([2], [2])) == [0];
    OneInstruction(DOUBLING[0], mem, Plus([2], [2]));
  }

  lemma DoublingContext()
    ensures WriteBack(DOUBLING, map[0 := [1]]).context == map[0 := [0]]
  {
    var mem: Memory := map[0 := [1]];
    assert DOUBLING[1..] == [];
    assert DOUBLING[0].operation.Args()[0] == 0;
    assert Prefetched(DOUBLING, mem) == mem;
    assert Fetch(DOUBLING[0].operation, mem + mem) == Some(Plus([1], [1])) && Calc(Plus([1], [1])) == [0];
  }

  lemma InTurn()
    ensures DirectRun(COPYING, DirectRun(DOUBLING, map[0 := [1]]).memory).memory == map[0 := [0], 1 := [0]]
  {
    var mem: Memory, zero: Memory := map[0 := [1]], map[0 := [0]];
    assert Calc(Plus([1], [1])) == [0] && Calc(Inv([0])) == [0];
    OneInstruction(DOUBLING[0], mem, Plus([1], [1]));
    OneInstruction(COPYING[0], zero, Inv([0]));
  }
}
