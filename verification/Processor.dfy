/**
 The two processors: `MockProcessor::execute_on` (src/processor/mock.rs), which runs a program
 on whole data, and `ShardProcessor::execute` (src/processor/single_threaded.rs), which runs it
 on this peer's shards through a prefetched context that is written back at the end.
 */
module Processor {
  import opened Types
  import opened Galois
  import opened Instructions

  datatype Error = NoShardsAssigned

  type Results = seq<Result<Vid, Error>>

  // ---------- the simple form: load, compute, store ----------

  datatype Run = Run(memory: Memory, results: Results)

  /** Run a program directly on memory, skipping an instruction whose operands are missing. */
  function DirectRun(program: Program, mem: Memory): (r: Run)
    ensures |r.results| == |program|
  {
    if program == [] then
      Run(mem, [])
    else
      var ins := program[0];
      match Fetch(ins.operation, mem)
      case None =>
        var rest := DirectRun(program[1..], mem);
        rest.(results := [Err(NoShardsAssigned)] + rest.results)
      case Some(values) =>
        var rest := DirectRun(program[1..], mem[ins.result := Calc(values)]);
        rest.(results := [Ok(ins.result)] + rest.results)
  }

  lemma {:induction false} DirectRunSized(program: Program, mem: Memory, n: nat)
    requires Sized(mem, n)
    ensures Sized(DirectRun(program, mem).memory, n)
  {
    if program != [] {
      var ins := program[0];
      match Fetch(ins.operation, mem) {
        case None => DirectRunSized(program[1..], mem, n);
        case Some(values) =>
          FetchSized(ins.operation, mem, n);
          DirectRunSized(program[1..], mem[ins.result := Calc(values)], n);
      }
    }
  }

  // ---------- the mock processor ----------

  datatype MockError = DataNotFound

  datatype MockRun = MockRun(storage: Memory, outcome: Result<(), MockError>)

  function MockExecuted(program: Program, mem: Memory): MockRun {
    if program == [] then
      MockRun(mem, Ok(()))
    else
      match Fetch(program[0].operation, mem)
      case None => MockRun(mem, Err(DataNotFound))
      case Some(values) => MockExecuted(program[1..], mem[program[0].result := Calc(values)])
  }

  method MockCalculate(op: Operation<Bytes>) returns (r: Bytes)
    requires SameLength(op)
    ensures r == Calc(op)
    ensures op.Plus? || op.Sub? ==> forall t :: 0 <= t < |r| ==> r[t] == op.first[t] ^ op.second[t]
    ensures op.Inv? ==> r == op.operand
    ensures op.Nand? ==> forall t :: 0 <= t < |r| ==> r[t] == if op.first[t] != 0 && op.second[t] != 0 then 0 else 1
    ensures op.Nor? ==> forall t :: 0 <= t < |r| ==> r[t] == if op.first[t] != 0 || op.second[t] != 0 then 0 else 1
    ensures |r| == |op.Args()[0]|
  {
    match op {
      case Sub(a, b) => r := MapZip(a, b, (x, y) => Add(x, y));
      case Plus(a, b) => r := MapZip(a, b, (x, y) => Add(x, y));
      case Inv(a) => r := a;
      case Nand(a, b) => r := MapZip(a, b, (x, y) => if x == 0 || y == 0 then 1 else 0);
      case Nor(a, b) => r := MapZip(a, b, (x, y) => if x == 0 && y == 0 then 1 else 0);
    }
  }

  /** `execute_on`: the storage keeps what was computed before a missing operand was met. */
  method MockExecuteOn(program: Program, storage: Memory, n: nat) returns (storage': Memory, r: Result<(), MockError>)
    requires Sized(storage, n)
    ensures MockRun(storage', r) == MockExecuted(program, storage)
  {
    storage' := storage;
    for i := 0 to |program|
      invariant Sized(storage', n)
      invariant MockExecuted(program, storage) == MockExecuted(program[i..], storage')
    {
      match Fetch(program[i].operation, storage') {
        case None =>
          return storage', Err(DataNotFound);
        case Some(values) =>
          FetchSized(program[i].operation, storage', n);
          var value := MockCalculate(values);
          storage' := storage'[program[i].result := value];
      }
    }
    r := Ok(());
  }

  predicate AllOk(results: Results) {
    forall i :: 0 <= i < |results| ==> results[i].Ok?
  }

  // ---------- missing operands, told from the program and the ids in memory ----------

  predicate Present(op: Operation<Vid>, keys: set<Vid>) {
    forall id :: id in op.Args() ==> id in keys
  }

  /** Every operand is there when its turn comes, if memory starts with `keys`. */
  predicate Defined(program: Program, keys: set<Vid>) {
    program == [] || (Present(program[0].operation, keys) && Defined(program[1..], keys + {program[0].result}))
  }

  /** The ids assigned by those instructions that are not skipped. */
  function Ran(program: Program, keys: set<Vid>): set<Vid> {
    if program == [] then
      {}
    else if Present(program[0].operation, keys) then
      Ran(program[1..], keys + {program[0].result}) + {program[0].result}
    else
      Ran(program[1..], keys)
  }

  /** The ids assigned before the first missing operand. */
  function Early(program: Program, keys: set<Vid>): set<Vid> {
    if program == [] || !Present(program[0].operation, keys) then
      {}
    else
      Early(program[1..], keys + {program[0].result}) + {program[0].result}
  }

  /** The ids still assigned after the first missing operand. */
  function Late(program: Program, keys: set<Vid>): set<Vid> {
    if program == [] then
      {}
    else if Present(program[0].operation, keys) then
      Late(program[1..], keys + {program[0].result})
    else
      Ran(program[1..], keys)
  }

  lemma {:induction false} RanAll(program: Program, keys: set<Vid>)
    ensures Ran(program, keys) <= ResultIds(program)
    ensures Defined(program, keys) ==> Ran(program, keys) == ResultIds(program)
    decreases program
  {
    if program != [] {
      ResultIdsFirst(program);
      RanAll(program[1..], keys);
      RanAll(program[1..], keys + {program[0].result});
    }
  }

  /** Exactly the ids of `Ran` are assigned. */
  lemma {:induction false} DirectRunAssigns(program: Program, mem: Memory)
    ensures DirectRun(program, mem).memory.Keys == mem.Keys + Ran(program, mem.Keys)
    ensures forall id :: id in mem && id !in Ran(program, mem.Keys) ==> DirectRun(program, mem).memory[id] == mem[id]
  {
    if program != [] {
      var ins := program[0];
      FetchDefined(ins.operation, mem);
      match Fetch(ins.operation, mem) {
        case None => DirectRunAssigns(program[1..], mem);
        case Some(values) =>
          assert mem[ins.result := Calc(values)].Keys == mem.Keys + {ins.result};
          DirectRunAssigns(program[1..], mem[ins.result := Calc(values)]);
      }
    }
  }

  /** The result reported for an instruction is its result id, or the error if it is skipped. */
  lemma {:induction false} ResultsTell(program: Program, mem: Memory, i: nat)
    requires i < |program|
    ensures DirectRun(program, mem).results[i] ==
      if Present(program[i].operation, mem.Keys + Ran(program[..i], mem.Keys)) then Ok(program[i].result) else Err(NoShardsAssigned)
    decreases program
  {
    var ins := program[0];
    FetchDefined(ins.operation, mem);
    if i == 0 {
      assert Ran(program[..0], mem.Keys) == {};
      assert mem.Keys + {} == mem.Keys;
    } else {
      assert program[..i][0] == ins && program[..i][1..] == program[1..][..i - 1];
      match Fetch(ins.operation, mem) {
        case None => ResultsTell(program[1..], mem, i - 1);
        case Some(values) =>
          var mem' := mem[ins.result := Calc(values)];
          ResultsTell(program[1..], mem', i - 1);
          assert mem'.Keys == mem.Keys + {ins.result};
          assert mem'.Keys + Ran(program[1..][..i - 1], mem'.Keys) == mem.Keys + Ran(program[..i], mem.Keys);
      }
    }
  }

  /**
   The mock succeeds exactly when the program is defined on the ids in memory, which is when no
   instruction would be skipped, and then computes the same memory.
   */
  lemma {:induction false} MockAgainstDirect(program: Program, mem: Memory)
    ensures MockExecuted(program, mem).outcome.Ok? <==> Defined(program, mem.Keys)
    ensures MockExecuted(program, mem).outcome.Ok? <==> AllOk(DirectRun(program, mem).results)
    ensures MockExecuted(program, mem).outcome.Ok? ==>
      MockExecuted(program, mem).storage == DirectRun(program, mem).memory
  {
    if program != [] {
      var ins := program[0];
      FetchDefined(ins.operation, mem);
      match Fetch(ins.operation, mem) {
        case None => assert DirectRun(program, mem).results[0].Err?;
        case Some(values) =>
          var mem' := mem[ins.result := Calc(values)];
          assert mem'.Keys == mem.Keys + {ins.result};
          MockAgainstDirect(program[1..], mem');
          var all, rest := DirectRun(program, mem).results, DirectRun(program[1..], mem').results;
          assert all == [Ok(ins.result)] + rest;
          assert forall i :: 0 <= i < |rest| ==> rest[i] == all[i + 1];
      }
    }
  }

  /**
   What skipping adds to what stopping leaves: the ids of `Late`, and nothing else.  So the two
   processors leave the same memory if `Late` is empty, and different ones, whatever the values,
   if it has an id that is neither in memory nor assigned before the first missing operand.
   */
  lemma {:induction false} SkippingAddsLate(program: Program, mem: Memory)
    ensures var mock, direct := MockExecuted(program, mem).storage, DirectRun(program, mem).memory;
      && mock.Keys == mem.Keys + Early(program, mem.Keys)
      && direct.Keys == mock.Keys + Late(program, mem.Keys)
      && (forall id :: id in mock && id !in Late(program, mem.Keys) ==> direct[id] == mock[id])
      && (Late(program, mem.Keys) == {} ==> direct == mock)
      && (!(Late(program, mem.Keys) <= mem.Keys + Early(program, mem.Keys)) ==> direct != mock)
  {
    if program != [] {
      var ins := program[0];
      FetchDefined(ins.operation, mem);
      match Fetch(ins.operation, mem) {
        case None => DirectRunAssigns(program[1..], mem);
        case Some(values) =>
          assert mem[ins.result := Calc(values)].Keys == mem.Keys + {ins.result};
          SkippingAddsLate(program[1..], mem[ins.result := Calc(values)]);
      }
    }
    SameOutside(MockExecuted(program, mem).storage, DirectRun(program, mem).memory, Late(program, mem.Keys));
  }

  lemma SameOutside(a: Memory, b: Memory, ids: set<Vid>)
    ensures b.Keys == a.Keys + ids && (forall id :: id in a && id !in ids ==> b[id] == a[id]) && ids == {} ==> a == b
    ensures b.Keys == a.Keys + ids && !(ids <= a.Keys) ==> a != b
  {
    if b.Keys == a.Keys + ids && !(ids <= a.Keys) {
      var id :| id in ids && id !in a.Keys;
      assert id in b.Keys;
    }
  }

  lemma {:induction false} MockStopsAtFirstMissing(program: Program, mem: Memory) returns (t: nat)
    requires MockExecuted(program, mem).outcome.Err?
    ensures t < |program|
    ensures DirectRun(program, mem).results[t].Err? && AllOk(DirectRun(program[..t], mem).results)
    ensures MockExecuted(program, mem).storage == DirectRun(program[..t], mem).memory
  {
    var ins := program[0];
    match Fetch(ins.operation, mem) {
      case None => t := 0;
      case Some(values) =>
        var t' := MockStopsAtFirstMissing(program[1..], mem[ins.result := Calc(values)]);
        t := t' + 1;
        assert program[..t][0] == ins && program[..t][1..] == program[1..][..t'];
    }
  }

  // ---------- the shard processor ----------

  function Needed(program: Program): set<Vid> {
    if program == [] then {} else (set id | id in program[0].operation.Args()) + Needed(program[1..])
  }

  /** `prepare_context`: the operands of the program that are present. */
  function Prefetched(program: Program, mem: Memory): Memory {
    map id | id in mem && id in Needed(program) :: mem[id]
  }

  /** `context` is what will be prefetched, but for the ids `left`. */
  ghost predicate FetchedBut(context: Memory, program: Program, mem: Memory, left: set<Vid>) {
    context == map id | id in mem && id in Needed(program) - left :: mem[id]
  }

  lemma FetchedOne(context: Memory, program: Program, mem: Memory, left: set<Vid>, id: Vid)
    requires FetchedBut(context, program, mem, left) && left <= Needed(program) && id in left
    ensures FetchedBut(if id in mem then context[id := mem[id]] else context, program, mem, left - {id})
  {
  }

  datatype ContextRun = ContextRun(context: Memory, results: Results)

  /** Operands come from the context first and from memory otherwise; the output goes to the context. */
  function ContextStep(ins: Instruction, context: Memory, mem: Memory): (Memory, Result<Vid, Error>) {
    match Fetch(ins.operation, mem + context)
    case None => (context, Err(NoShardsAssigned))
    case Some(values) => (context[ins.result := Calc(values)], Ok(ins.result))
  }

  function RunInContext(program: Program, context: Memory, mem: Memory): ContextRun {
    if program == [] then
      ContextRun(context, [])
    else
      var (context', result) := ContextStep(program[0], context, mem);
      var rest := RunInContext(program[1..], context', mem);
      rest.(results := [result] + rest.results)
  }

  type Writes = seq<(Vid, Bytes)>

  function ApplyWrites(mem: Memory, writes: Writes): Memory {
    if writes == [] then
      mem
    else
      var (id, value) := writes[|writes| - 1];
      ApplyWrites(mem, writes[..|writes| - 1])[id := value]
  }

  lemma {:induction false} ApplyAppend(mem: Memory, a: Writes, b: Writes)
    ensures ApplyWrites(mem, a + b) == ApplyWrites(ApplyWrites(mem, a), b)
  {
    if b == [] {
      assert a + b == a;
    } else {
      assert (a + b)[..|a + b| - 1] == a + b[..|b| - 1];
      ApplyAppend(mem, a, b[..|b| - 1]);
    }
  }

  function WrittenIds(writes: Writes): set<Vid> {
    if writes == [] then {} else WrittenIds(writes[..|writes| - 1]) + {writes[|writes| - 1].0}
  }

  ghost predicate DrawnFrom(writes: Writes, context: Memory) {
    forall i :: 0 <= i < |writes| ==> writes[i].0 in context && context[writes[i].0] == writes[i].1
  }

  /** `writes` lists the entries of `context` once each, in some order. */
  ghost predicate Enumerates(writes: Writes, context: Memory) {
    WrittenIds(writes) == context.Keys && |writes| == |context| && DrawnFrom(writes, context)
  }

  lemma {:induction false} ApplyFrom(mem: Memory, writes: Writes, context: Memory)
    requires DrawnFrom(writes, context)
    ensures ApplyWrites(mem, writes).Keys == mem.Keys + WrittenIds(writes)
    ensures forall id :: id in WrittenIds(writes) ==> id in context && ApplyWrites(mem, writes)[id] == context[id]
    ensures forall id :: id in mem && id !in WrittenIds(writes) ==> ApplyWrites(mem, writes)[id] == mem[id]
  {
    if writes != [] {
      ApplyFrom(mem, writes[..|writes| - 1], context);
    }
  }

  /** The order in which the context map is iterated does not matter. */
  lemma ApplyEnumeration(mem: Memory, writes: Writes, context: Memory)
    requires Enumerates(writes, context)
    ensures ApplyWrites(mem, writes) == mem + context
  {
    ApplyFrom(mem, writes, context);
  }

  lemma {:induction false} ContextTracksMemory(program: Program, context: Memory, mem: Memory)
    ensures mem + RunInContext(program, context, mem).context == DirectRun(program, mem + context).memory
    ensures RunInContext(program, context, mem).results == DirectRun(program, mem + context).results
    decreases program
  {
    if program != [] {
      var ins := program[0];
      match Fetch(ins.operation, mem + context) {
        case None => ContextTracksMemory(program[1..], context, mem);
        case Some(values) =>
          var context' := context[ins.result := Calc(values)];
          assert mem + context' == (mem + context)[ins.result := Calc(values)];
          ContextTracksMemory(program[1..], context', mem);
      }
    }
  }

  /** Everything `execute` writes back when memory does not change while it runs. */
  function WriteBack(program: Program, mem: Memory): ContextRun {
    RunInContext(program, Prefetched(program, mem), mem)
  }

  lemma PrefetchedIsMemory(program: Program, mem: Memory)
    ensures mem + Prefetched(program, mem) == mem
  {}

  /**
   Prefetching, running in the context and writing the whole context back, in any order, leaves
   the memory and the results of the direct interpreter.
   */
  lemma CacheRefinement(program: Program, mem: Memory, writes: Writes)
    requires Enumerates(writes, WriteBack(program, mem).context)
    ensures ApplyWrites(mem, writes) == DirectRun(program, mem).memory
    ensures WriteBack(program, mem).results == DirectRun(program, mem).results
  {
    var context := Prefetched(program, mem);
    PrefetchedIsMemory(program, mem);
    ContextTracksMemory(program, context, mem);
    ApplyEnumeration(mem, writes, RunInContext(program, context, mem).context);
  }

  // ---------- updates that arrive while a program runs ----------

  /** The ids written back: operands that were present, and assigned results. */
  function Kept(program: Program, keys: set<Vid>): set<Vid> {
    Needed(program) * keys + Ran(program, keys)
  }

  lemma {:induction false} ContextKeys(program: Program, context: Memory, mem: Memory)
    ensures RunInContext(program, context, mem).context.Keys == context.Keys + Ran(program, mem.Keys + context.Keys)
    decreases program
  {
    if program != [] {
      var ins := program[0];
      FetchDefined(ins.operation, mem + context);
      match Fetch(ins.operation, mem + context) {
        case None => ContextKeys(program[1..], context, mem);
        case Some(values) =>
          var context' := context[ins.result := Calc(values)];
          assert mem.Keys + context'.Keys == mem.Keys + context.Keys + {ins.result};
          ContextKeys(program[1..], context', mem);
      }
    }
  }

  lemma WriteBackKeys(program: Program, mem: Memory)
    ensures WriteBack(program, mem).context.Keys == Kept(program, mem.Keys)
    ensures Defined(program, mem.Keys) ==> Kept(program, mem.Keys) == Needed(program) + ResultIds(program)
  {
    var context := Prefetched(program, mem);
    assert context.Keys == Needed(program) * mem.Keys;
    assert mem.Keys + context.Keys == mem.Keys;
    ContextKeys(program, context, mem);
    RanAll(program, mem.Keys);
    if Defined(program, mem.Keys) {
      NeededDefined(program, mem.Keys);
    }
  }

  lemma {:induction false} NeededDefined(program: Program, keys: set<Vid>)
    requires Defined(program, keys)
    ensures Needed(program) <= keys + ResultIds(program)
  {
    if program != [] {
      ResultIdsFirst(program);
      NeededDefined(program[1..], keys + {program[0].result});
    }
  }

  /** Updates that come in while the operands are fetched, before each instruction, and afterwards. */
  datatype Updates = Updates(first: Memory, during: seq<Memory>, last: Memory) {
    function All(): Memory { Joined(first, during) + last }
  }

  function Joined(mem: Memory, more: seq<Memory>): Memory
    decreases more
  {
    if more == [] then mem else Joined(mem + more[0], more[1..])
  }

  /** Each operand was fetched before or after the first updates. */
  ghost predicate FetchedAmid(program: Program, mem: Memory, first: Memory, context: Memory) {
    forall id :: if id in Needed(program)
                 then Lookup(context, id) == Lookup(mem, id) || Lookup(context, id) == Lookup(mem + first, id)
                 else id !in context
  }

  /** `RunInContext` when memory changes: an operand that is not in the context is read as it is by then. */
  function RunAmid(program: Program, context: Memory, mem: Memory, during: seq<Memory>): ContextRun
    requires |during| == |program|
  {
    if program == [] then
      ContextRun(context, [])
    else
      var (context', result) := ContextStep(program[0], context, mem + during[0]);
      var rest := RunAmid(program[1..], context', mem + during[0], during[1..]);
      rest.(results := [result] + rest.results)
  }

  predicate Touches(updates: Updates, ids: set<Vid>) {
    !(updates.All().Keys !! ids)
  }

  /** The run with the updates is the program on the old memory, and then the updates. */
  ghost predicate SameAsBefore(program: Program, mem: Memory, updates: Updates, run: ContextRun, writes: Writes) {
    && run.results == DirectRun(program, mem).results
    && ApplyWrites(mem + updates.All(), writes) == DirectRun(program, mem).memory + updates.All()
  }

  /** Nothing is lost, whatever was fetched when and in whatever order the context is written back. */
  ghost predicate Undisturbed(program: Program, mem: Memory, updates: Updates)
    requires |updates.during| == |program|
  {
    forall context, writes ::
      var run := RunAmid(program, context, mem + updates.first, updates.during);
      FetchedAmid(program, mem, updates.first, context) && Enumerates(writes, run.context) ==>
        SameAsBefore(program, mem, updates, run, writes)
  }

  lemma {:induction false} JoinedKeys(mem: Memory, more: seq<Memory>)
    ensures mem.Keys <= Joined(mem, more).Keys
    ensures forall i :: 0 <= i < |more| ==> more[i].Keys <= Joined(mem, more).Keys
    decreases more
  {
    if more != [] {
      JoinedKeys(mem + more[0], more[1..]);
      forall i | 0 <= i < |more|
        ensures more[i].Keys <= Joined(mem, more).Keys
      {
        assert i > 0 ==> more[i] == more[1..][i - 1];
      }
    }
  }

  /** Memory that differs only on ids the program does not read gives the same context. */
  lemma {:induction false} AmidIsCalm(program: Program, context: Memory, mem: Memory, old': Memory, during: seq<Memory>)
    requires |during| == |program|
    requires forall id :: id in Needed(program) ==> Lookup(mem, id) == Lookup(old', id)
    requires forall i :: 0 <= i < |during| ==> during[i].Keys !! Needed(program)
    ensures RunAmid(program, context, mem, during) == RunInContext(program, context, old')
    decreases program
  {
    if program != [] {
      var ins := program[0];
      var mem' := mem + during[0];
      forall id | id in ins.operation.Args()
        ensures Lookup(mem' + context, id) == Lookup(old' + context, id)
      {
        assert id in Needed(program) && id !in during[0];
      }
      FetchSame(ins.operation, mem' + context, old' + context);
      var (context', _) := ContextStep(ins, context, mem');
      assert during[0].Keys !! Needed(program);
      forall i | 0 <= i < |during[1..]|
        ensures during[1..][i].Keys !! Needed(program[1..])
      {
        assert during[1..][i] == during[i + 1];
      }
      AmidIsCalm(program[1..], context', mem', old', during[1..]);
    }
  }

  lemma FetchSame(op: Operation<Vid>, a: Memory, b: Memory)
    requires forall id :: id in op.Args() ==> Lookup(a, id) == Lookup(b, id)
    ensures Fetch(op, a) == Fetch(op, b)
  {
    assert op.Args()[0] in op.Args();
    assert !op.Inv? ==> op.Args()[1] in op.Args();
  }

  lemma CalmIsUndisturbed(program: Program, mem: Memory, updates: Updates)
    requires |updates.during| == |program| && !Touches(updates, Needed(program) + Ran(program, mem.Keys))
    ensures Undisturbed(program, mem, updates)
  {
    JoinedKeys(updates.first, updates.during);
    forall context, writes |
      FetchedAmid(program, mem, updates.first, context) &&
      Enumerates(writes, RunAmid(program, context, mem + updates.first, updates.during).context)
      ensures SameAsBefore(program, mem, updates, RunAmid(program, context, mem + updates.first, updates.during), writes)
    {
      CalmContext(program, mem, updates.first, context);
      AmidIsCalm(program, context, mem + updates.first, mem, updates.during);
      WriteBackKeys(program, mem);
      UpdatesSurvive(program, mem, updates.All(), writes);
    }
  }

  lemma CalmContext(program: Program, mem: Memory, first: Memory, context: Memory)
    requires FetchedAmid(program, mem, first, context) && first.Keys !! Needed(program)
    ensures context == Prefetched(program, mem)
  {
    forall id
      ensures Lookup(context, id) == Lookup(Prefetched(program, mem), id)
    {
      assert id in Needed(program) ==> Lookup(mem + first, id) == Lookup(mem, id);
    }
    SameLookups(context, Prefetched(program, mem));
  }

  lemma SameLookups(a: Memory, b: Memory)
    requires forall id :: Lookup(a, id) == Lookup(b, id)
    ensures a == b
  {
    forall id
      ensures id in a <==> id in b
      ensures id in a ==> a[id] == b[id]
    {
      assert Lookup(a, id) == Lookup(b, id);
    }
  }

  lemma UpdatesSurvive(program: Program, mem: Memory, updates: Memory, writes: Writes)
    requires Enumerates(writes, WriteBack(program, mem).context)
    requires updates.Keys !! WriteBack(program, mem).context.Keys
    ensures WriteBack(program, mem).results == DirectRun(program, mem).results
    ensures ApplyWrites(mem + updates, writes) == DirectRun(program, mem).memory + updates
  {
    var context := WriteBack(program, mem).context;
    ApplyEnumeration(mem + updates, writes, context);
    ApplyEnumeration(mem, writes, context);
    CacheRefinement(program, mem, writes);
    DisjointOrder(mem, updates, context);
  }

  lemma DisjointOrder(mem: Memory, a: Memory, b: Memory)
    requires a.Keys !! b.Keys
    ensures mem + a + b == mem + b + a
  {
  }

  /**
   An update that arrives after the last instruction, of an id that is written back, is overwritten;
   the id may itself have come in only while the operands were fetched.
   */
  lemma LateUpdateIsLost(program: Program, mem: Memory, first: Memory, id: Vid, value: Bytes) returns (updates: Updates)
    requires first.Keys <= {id} && id in WriteBack(program, mem + first).context
    requires value != WriteBack(program, mem + first).context[id]
    ensures updates.first == first && updates.last == updates.All() == map[id := value]
    ensures |updates.during| == |program| && forall i :: 0 <= i < |program| ==> updates.during[i] == map[]
    ensures !Undisturbed(program, mem, updates)
  {
    var now := mem + first;
    var context := WriteBack(program, now).context;
    updates := Updates(first, seq(|program|, _ => map[]), map[id := value]);
    NothingJoined(first, updates.during);
    assert updates.All() == map[id := value];
    AmidIsCalm(program, Prefetched(program, now), now, now, updates.during);
    var writes := SomeEnumeration(context);
    ApplyEnumeration(mem + updates.All(), writes, context);
    assert ApplyWrites(mem + updates.All(), writes)[id] == context[id];
    assert (DirectRun(program, mem).memory + updates.All())[id] == value;
    assert FetchedAmid(program, mem, updates.first, Prefetched(program, now));
  }

  lemma {:induction false} NothingJoined(mem: Memory, more: seq<Memory>)
    requires forall i :: 0 <= i < |more| ==> more[i] == map[]
    ensures Joined(mem, more) == mem
    decreases more
  {
    if more != [] {
      assert mem + more[0] == mem;
      NothingJoined(mem, more[1..]);
    }
  }

  /** All updates bring values of `n` bytes. */
  ghost predicate SizedUpdates(updates: Updates, n: nat) {
    && Sized(updates.first, n) && Sized(updates.last, n)
    && forall i :: 0 <= i < |updates.during| ==> Sized(updates.during[i], n)
  }

  ghost predicate AlwaysUndisturbed(program: Program, mem: Memory, ids: set<Vid>, n: nat) {
    forall updates: Updates ::
      |updates.during| == |program| && updates.All().Keys <= ids && SizedUpdates(updates, n) ==>
      Undisturbed(program, mem, updates)
  }

  /**
   The context also writes back operands it only read, and an operand it lacks is read while the
   program runs.  Updates of `ids` are safe, whatever their values and whenever they arrive, exactly
   when none of them is an operand of the program or assigned by an instruction that is not skipped.
   */
  lemma StaleWriteBack(program: Program, mem: Memory, ids: set<Vid>, n: nat)
    requires 0 < n
    ensures AlwaysUndisturbed(program, mem, ids, n) <==> ids !! Needed(program) + Ran(program, mem.Keys)
    ensures Defined(program, mem.Keys) ==> Ran(program, mem.Keys) == ResultIds(program)
  {
    RanAll(program, mem.Keys);
    if ids !! Needed(program) + Ran(program, mem.Keys) {
      forall updates: Updates | |updates.during| == |program| && updates.All().Keys <= ids && SizedUpdates(updates, n)
        ensures Undisturbed(program, mem, updates)
      {
        CalmIsUndisturbed(program, mem, updates);
      }
    } else {
      var id :| id in ids && id in Needed(program) + Ran(program, mem.Keys);
      var updates := SomeUpdateIsLost(program, mem, id, n);
      assert updates.All().Keys <= ids;
    }
  }

  /** A value of `n` bytes other than `v`. */
  function Another(v: Bytes, n: nat): (w: Bytes)
    requires 0 < n
    ensures |w| == n && w != v
  {
    var zeros: Bytes, ones: Bytes := seq(n, _ => 0), seq(n, _ => 1);
    assert zeros[0] != ones[0];
    if v == zeros then ones else zeros
  }

  lemma SomeUpdateIsLost(program: Program, mem: Memory, id: Vid, n: nat) returns (updates: Updates)
    requires id in Needed(program) + Ran(program, mem.Keys) && 0 < n
    ensures |updates.during| == |program| && updates.All().Keys == {id} && SizedUpdates(updates, n)
    ensures !Undisturbed(program, mem, updates)
  {
    var first: Memory := if id in Needed(program) then map[id := Another([], n)] else map[];
    IsWrittenBack(program, mem, first, id);
    var value := Another(WriteBack(program, mem + first).context[id], n);
    updates := LateUpdateIsLost(program, mem, first, id, value);
  }

  lemma IsWrittenBack(program: Program, mem: Memory, first: Memory, id: Vid)
    requires if id in Needed(program) then first.Keys == {id} else id in Ran(program, mem.Keys) && first == map[]
    ensures id in WriteBack(program, mem + first).context
  {
    WriteBackKeys(program, mem + first);
    assert first == map[] ==> mem + first == mem;
  }

  /** Only before instruction `k` does anything come in. */
  function OnceAt(n: nat, k: nat, update: Memory): (during: seq<Memory>)
    ensures |during| == n
  {
    seq(n, i => if i == k then update else map[])
  }

  /**
   What comes in while the program runs is used from then on, for whatever the context lacks: the
   first part of the program ran on the memory before it, the rest runs on the memory after it, in
   the context that the first part has left.
   */
  lemma {:induction false} UpdateIsUsed(before: Program, after: Program, context: Memory, mem: Memory, update: Memory)
    requires after != []
    ensures var first := RunInContext(before, context, mem);
      var rest := RunInContext(after, first.context, mem + update);
      RunAmid(before + after, context, mem, OnceAt(|before + after|, |before|, update)) ==
      ContextRun(rest.context, first.results + rest.results)
    decreases before
  {
    if before == [] {
      assert before + after == after;
      UpdateComesFirst(after, context, mem, update, OnceAt(|after|, 0, update));
    } else {
      var all, during := before + after, OnceAt(|before + after|, |before|, update);
      assert all[1..] == before[1..] + after && mem + during[0] == mem;
      assert during[1..] == OnceAt(|before[1..] + after|, |before[1..]|, update);
      var (context', result) := ContextStep(before[0], context, mem);
      UpdateIsUsed(before[1..], after, context', mem, update);
      var first := RunInContext(before[1..], context', mem);
      Regroup([result], first.results, RunInContext(after, first.context, mem + update).results);
    }
  }

  lemma UpdateComesFirst(program: Program, context: Memory, mem: Memory, update: Memory, during: seq<Memory>)
    requires program != [] && |during| == |program| && during[0] == update
    requires forall i :: 0 < i < |during| ==> during[i] == map[]
    ensures RunAmid(program, context, mem, during) == RunInContext(program, context, mem + update)
  {
    var (context', _) := ContextStep(program[0], context, mem + update);
    AmidIsCalm(program[1..], context', mem + update, mem + update, during[1..]);
  }

  /** An operand that arrives only while the program runs is used by it. */
  lemma OperandArrivesMidway(value: Bytes)
    ensures var program, during := [Instruction(Inv(0), 1)], [map[0 := value]];
      && DirectRun(program, map[]).results == [Err(NoShardsAssigned)]
      && RunAmid(program, Prefetched(program, map[]), map[], during) == ContextRun(map[1 := value], [Ok(1)])
  {
    var program, during := [Instruction(Inv(0), 1)], [map[0 := value]];
    assert program[1..] == [] && during[1..] == [];
    var mem: Memory := map[];
    assert Prefetched(program, mem) == map[];
    assert Fetch(Inv(0), mem + during[0] + mem) == Some(Inv(value));
    assert Calc(Inv(value)) == value;
  }

  lemma EnumerateStep(writes: Writes, id: Vid, context: Memory)
    requires DrawnFrom(writes, context) && id in context
    ensures DrawnFrom(writes + [(id, context[id])], context)
    ensures WrittenIds(writes + [(id, context[id])]) == WrittenIds(writes) + {id}
  {
    assert (writes + [(id, context[id])])[..|writes|] == writes;
  }

  lemma {:induction false} SomeEnumeration(context: Memory) returns (writes: Writes)
    ensures Enumerates(writes, context)
    decreases |context|
  {
    if context.Keys == {} {
      writes := [];
    } else {
      var id :| id in context.Keys;
      var rest := context - {id};
      assert rest.Keys == context.Keys - {id};
      var before := SomeEnumeration(rest);
      EnumerateStep(before, id, context);
      writes := before + [(id, context[id])];
    }
  }

  /** What is left of a run, after `done` has been reported. */
  ghost predicate ContinuesTo(rest: Program, context: Memory, done: Results, mem: Memory, all: ContextRun) {
    var run := RunInContext(rest, context, mem);
    run.context == all.context && done + run.results == all.results
  }

  lemma ContinueStep(rest: Program, context: Memory, done: Results, mem: Memory, all: ContextRun)
    requires rest != [] && ContinuesTo(rest, context, done, mem, all)
    ensures ContinuesTo(rest[1..], ContextStep(rest[0], context, mem).0,
      done + [ContextStep(rest[0], context, mem).1], mem, all)
  {
    var (context', result) := ContextStep(rest[0], context, mem);
    var run := RunInContext(rest[1..], context', mem);
    assert done + ([result] + run.results) == (done + [result]) + run.results;
  }

  /** The processor's end of the memory bus: reads are answered from `storage`, writes are queued. */
  class MemoryBus {
    var storage: Memory
    var writes: Writes

    constructor (storage: Memory)
      ensures this.storage == storage && writes == []
    {
      this.storage := storage;
      writes := [];
    }

    method RetrieveLocalShard(id: Vid) returns (r: Option<Bytes>)
      ensures r == Lookup(storage, id)
    {
      r := Lookup(storage, id);
    }

    method StoreLocalShard(id: Vid, shard: Bytes)
      modifies this`writes
      ensures writes == old(writes) + [(id, shard)]
    {
      writes := writes + [(id, shard)];
    }
  }

  class ShardProcessor {
    const memoryAccess: MemoryBus

    constructor (bus: MemoryBus)
      ensures memoryAccess == bus
    {
      memoryAccess := bus;
    }

    static method Calculate(op: Operation<Bytes>) returns (r: Bytes)
      requires SameLength(op)
      ensures r == Calc(op)
      ensures op.Plus? || op.Sub? ==> forall t :: 0 <= t < |r| ==> r[t] == op.first[t] ^ op.second[t]
      ensures op.Inv? ==> r == op.operand
      ensures op.Nand? ==> forall t :: 0 <= t < |r| ==> r[t] == if op.first[t] != 0 && op.second[t] != 0 then 0 else 1
      ensures op.Nor? ==> forall t :: 0 <= t < |r| ==> r[t] == if op.first[t] != 0 || op.second[t] != 0 then 0 else 1
      ensures |r| == |op.Args()[0]|
    {
      match op {
        case Sub(a, b) => r := MapZip(a, b, (x, y) => Add(x, y));
        case Plus(a, b) => r := MapZip(a, b, (x, y) => Add(x, y));
        case Inv(a) => r := a;
        case Nand(a, b) => r := MapZip(a, b, (x, y) => if !(x != 0 && y != 0) then 1 else 0);
        case Nor(a, b) => r := MapZip(a, b, (x, y) => if !(x != 0 || y != 0) then 1 else 0);
      }
    }

    method RetrieveOperand(id: Vid, context: Memory) returns (r: Option<Bytes>)
      ensures r == Lookup(memoryAccess.storage + context, id)
    {
      if id in context {
        return Some(context[id]);
      }
      r := memoryAccess.RetrieveLocalShard(id);
    }

    method RetrieveOperands(op: Operation<Vid>, context: Memory) returns (r: Result<Operation<Bytes>, Error>)
      ensures r == match Fetch(op, memoryAccess.storage + context)
                   case None => Err(NoShardsAssigned)
                   case Some(values) => Ok(values)
    {
      var first := RetrieveOperand(op.Args()[0], context);
      var second := first;
      if !op.Inv? {
        second := RetrieveOperand(op.Args()[1], context);
      }
      if first.None? || second.None? {
        return Err(NoShardsAssigned);
      }
      var a, b := first.value, second.value;
      match op {
        case Sub(_, _) => r := Ok(Sub(a, b));
        case Plus(_, _) => r := Ok(Plus(a, b));
        case Inv(_) => r := Ok(Inv(a));
        case Nand(_, _) => r := Ok(Nand(a, b));
        case Nor(_, _) => r := Ok(Nor(a, b));
      }
    }

    method PrepareContext(program: Program) returns (context: Memory)
      ensures context == Prefetched(program, memoryAccess.storage)
    {
      context := map[];
      var left := Needed(program);
      while left != {}
        invariant left <= Needed(program)
        invariant FetchedBut(context, program, memoryAccess.storage, left)
        decreases |left|
      {
        var id :| id in left;
        var val := RetrieveOperand(id, map[]);
        FetchedOne(context, program, memoryAccess.storage, left, id);
        left := left - {id};
        if val.Some? {
          context := context[id := val.value];
        }
      }
    }

    method ExecuteOne(ins: Instruction, context: Memory, ghost n: nat)
        returns (context': Memory, result: Result<Vid, Error>)
      requires Sized(memoryAccess.storage, n) && Sized(context, n)
      ensures (context', result) == ContextStep(ins, context, memoryAccess.storage)
      ensures Sized(context', n)
    {
      var operation := RetrieveOperands(ins.operation, context);
      match operation {
        case Err(e) =>
          return context, Err(e);
        case Ok(values) =>
          FetchSized(ins.operation, memoryAccess.storage + context, n);
          var output := Calculate(values);
          return context[ins.result := output], Ok(ins.result);
      }
    }

    method RunInstructions(program: Program, start: Memory, ghost n: nat) returns (context: Memory, results: Results)
      requires Sized(memoryAccess.storage, n) && Sized(start, n)
      ensures ContextRun(context, results) == RunInContext(program, start, memoryAccess.storage)
    {
      context, results := start, [];
      ghost var all := RunInContext(program, start, memoryAccess.storage);
      for i := 0 to |program|
        invariant Sized(context, n)
        invariant ContinuesTo(program[i..], context, results, memoryAccess.storage, all)
      {
        ContinueStep(program[i..], context, results, memoryAccess.storage, all);
        var result;
        context, result := ExecuteOne(program[i], context, n);
        results := results + [result];
        assert program[i..][1..] == program[i + 1..];
      }
    }

    method SaveContext(context: Memory)
      modifies memoryAccess`writes
      ensures old(memoryAccess.writes) <= memoryAccess.writes
      ensures Enumerates(memoryAccess.writes[|old(memoryAccess.writes)|..], context)
    {
      var left := context.Keys;
      ghost var w: Writes := [];
      while left != {}
        invariant left <= context.Keys
        invariant memoryAccess.writes == old(memoryAccess.writes) + w
        invariant |w| == |context| - |left|
        invariant WrittenIds(w) == context.Keys - left
        invariant DrawnFrom(w, context)
        decreases |left|
      {
        var id :| id in left;
        left := left - {id};
        memoryAccess.StoreLocalShard(id, context[id]);
        EnumerateStep(w, id, context);
        w := w + [(id, context[id])];
      }
      assert memoryAccess.writes[|old(memoryAccess.writes)|..] == w;
    }

    /** `execute`: the bus gains the write-back of the program's context and nothing else changes. */
    method Execute(program: Program, ghost n: nat) returns (results: Results)
      requires Sized(memoryAccess.storage, n)
      modifies memoryAccess`writes
      ensures results == DirectRun(program, memoryAccess.storage).results
      ensures old(memoryAccess.writes) <= memoryAccess.writes
      ensures Enumerates(memoryAccess.writes[|old(memoryAccess.writes)|..], WriteBack(program, memoryAccess.storage).context)
      ensures ApplyWrites(memoryAccess.storage, memoryAccess.writes[|old(memoryAccess.writes)|..])
           == DirectRun(program, memoryAccess.storage).memory
    {
      var context := PrepareContext(program);
      context, results := RunInstructions(program, context, n);
      SaveContext(context);
      CacheRefinement(program, memoryAccess.storage, memoryAccess.writes[|old(memoryAccess.writes)|..]);
    }
  }
}
