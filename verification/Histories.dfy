/**
 Commands in the order in which they are carried out: data put into the computer, and programs.
 A peer that sees them in another order, or stores a put after a program that came later, has
 another history.  This module says what a history amounts to, and when two amount to the same.
 */
module Histories {
  import opened Types
  import opened ReedSolomon
  import opened Instructions
  import opened Processor
  import opened CodedComputation
  import opened Provenance

  datatype Command<+D> = Put(id: Vid, data: D) | Execute(program: Program)

  type History = seq<Command<Bytes>>

  /** A history with the data left open: each put only names where its data comes from. */
  type Plan = seq<Command<Origin>>

  // ---------- what a history amounts to ----------

  function Applied(mem: Memory, command: Command<Bytes>): Memory {
    match command
    case Put(id, data) => mem[id := data]
    case Execute(program) => DirectRun(program, mem).memory
  }

  /** Memory after the commands, instructions with missing operands being skipped. */
  function Outcome(h: History): Memory {
    if h == [] then map[] else Applied(Outcome(h[..|h| - 1]), h[|h| - 1])
  }

  /** The mock processor's memory after the commands. */
  function MockState(h: History): Memory {
    if h == [] then
      map[]
    else
      var before := MockState(h[..|h| - 1]);
      match h[|h| - 1]
      case Put(id, data) => before[id := data]
      case Execute(program) => MockExecuted(program, before).storage
  }

  /** The ids in memory after the commands, told without running them. */
  function KeysAfter<D>(h: seq<Command<D>>): set<Vid> {
    if h == [] then
      {}
    else
      var before := KeysAfter(h[..|h| - 1]);
      match h[|h| - 1]
      case Put(id, _) => before + {id}
      case Execute(program) => before + Ran(program, before)
  }

  /** No program meets a missing operand. */
  predicate OperandsExist<D>(h: seq<Command<D>>) {
    forall n :: 0 <= n < |h| && h[n].Execute? ==> Defined(h[n].program, KeysAfter(h[..n]))
  }

  lemma {:induction false} OutcomeKeys(h: History)
    ensures Outcome(h).Keys == KeysAfter(h)
  {
    if h != [] {
      var n := |h| - 1;
      OutcomeKeys(h[..n]);
      if h[n].Execute? {
        DirectRunAssigns(h[n].program, Outcome(h[..n]));
      }
    }
  }

  lemma OperandsExistBefore<D>(h: seq<Command<D>>, n: nat)
    requires OperandsExist(h) && n <= |h|
    ensures OperandsExist(h[..n])
  {
    forall i | 0 <= i < n && h[i].Execute?
      ensures Defined(h[..n][i].program, KeysAfter(h[..n][..i]))
    {
      assert h[..n][..i] == h[..i];
    }
  }

  /** With all operands there, skipping never happens and the mock computes the same. */
  lemma {:induction false} MockIsOutcome(h: History)
    requires OperandsExist(h)
    ensures MockState(h) == Outcome(h)
  {
    if h != [] {
      var n := |h| - 1;
      OperandsExistBefore(h, n);
      MockIsOutcome(h[..n]);
      OutcomeKeys(h[..n]);
      if h[n].Execute? {
        MockAgainstDirect(h[n].program, MockState(h[..n]));
      }
    }
  }

  // ---------- rows of the encoded outcome ----------

  /** Data of the right size. */
  predicate Fitting(code: Code, command: Command<Bytes>) {
    command.Put? ==> code.IsData(command.data)
  }

  ghost predicate AllFitting(code: Code, h: History) {
    forall i :: 0 <= i < |h| ==> Fitting(code, h[i])
  }

  lemma {:induction false} OutcomeIsData(code: Code, h: History)
    requires AllFitting(code, h)
    ensures IsDataMemory(code, Outcome(h))
  {
    if h != [] {
      var n := |h| - 1;
      OutcomeIsData(code, h[..n]);
      assert Fitting(code, h[n]);
      if h[n].Execute? {
        DirectRunSized(h[n].program, Outcome(h[..n]), K * code.shardLen);
      }
    }
  }

  /** Shard `sid` of everything in memory after the commands. */
  ghost function Row(code: Code, h: History, sid: Sid): Memory
    requires AllFitting(code, h) && sid < code.Total()
  {
    OutcomeIsData(code, h);
    EncodedMemory(code, sid, Outcome(h))
  }

  lemma RowValue(code: Code, h: History, sid: Sid, id: Vid)
    requires AllFitting(code, h) && sid < code.Total()
    ensures id in Row(code, h, sid) <==> id in Outcome(h)
    ensures id in Outcome(h) ==>
      code.IsData(Outcome(h)[id]) && Row(code, h, sid)[id] == code.ShardOf(sid, Outcome(h)[id])
  {
    OutcomeIsData(code, h);
  }

  lemma OneMore(code: Code, h: History, command: Command<Bytes>)
    requires AllFitting(code, h) && Fitting(code, command)
    ensures AllFitting(code, h + [command])
    ensures Outcome(h + [command]) == Applied(Outcome(h), command)
  {
    assert (h + [command])[..|h|] == h;
  }

  /** One program on one row, through the context and the write-back, is one more command. */
  lemma ProgramOnRow(code: Code, sid: Sid, h: History, program: Program, writes: Writes)
    requires code.Valid() && sid < code.Total() && AllFitting(code, h) && SupportsAll(sid, program)
    requires Enumerates(writes, WriteBack(program, Row(code, h, sid)).context)
    ensures AllFitting(code, h + [Execute(program)])
    ensures ApplyWrites(Row(code, h, sid), writes) == Row(code, h + [Execute(program)], sid)
  {
    OneMore(code, h, Execute(program));
    OutcomeIsData(code, h);
    CacheRefinement(program, Row(code, h, sid), writes);
    Homomorphism(code, sid, program, Outcome(h));
  }

  // ---------- what a peer holds ----------

  /** One command on what peer `sid` holds, whatever its operations. */
  ghost function HeldAfter(code: Code, sid: Sid, held: Memory, command: Command<Bytes>): Memory
    requires sid < code.Total() && Fitting(code, command)
  {
    match command
    case Put(id, data) => held[id := code.ShardOf(sid, data)]
    case Execute(program) => DirectRun(program, held).memory
  }

  /** What peer `sid` holds when it has carried out the commands. */
  ghost function Held(code: Code, h: History, sid: Sid): Memory
    requires AllFitting(code, h) && sid < code.Total()
  {
    if h == [] then map[] else HeldAfter(code, sid, Held(code, h[..|h| - 1], sid), h[|h| - 1])
  }

  lemma HeldOneMore(code: Code, h: History, sid: Sid, command: Command<Bytes>)
    requires AllFitting(code, h) && Fitting(code, command) && sid < code.Total()
    ensures AllFitting(code, h + [command])
    ensures Held(code, h + [command], sid) == HeldAfter(code, sid, Held(code, h, sid), command)
  {
    assert (h + [command])[..|h|] == h;
  }

  /** Shard `sid` supports all programs of the history. */
  predicate Supported(sid: Sid, h: History) {
    forall i :: 0 <= i < |h| && h[i].Execute? ==> SupportsAll(sid, h[i].program)
  }

  lemma SupportedIf(sid: Sid, h: History)
    requires sid < K || forall i :: 0 <= i < |h| && h[i].Execute? ==> IsLinear(h[i].program)
    ensures Supported(sid, h)
  {
    forall i | 0 <= i < |h| && h[i].Execute?
      ensures SupportsAll(sid, h[i].program)
    {
      SupportsIf(sid, h[i].program);
    }
  }

  /** A peer whose shard supports all programs holds its row of the encoded outcome. */
  lemma {:induction false} HeldIsRow(code: Code, h: History, sid: Sid)
    requires code.Valid() && AllFitting(code, h) && sid < code.Total() && Supported(sid, h)
    ensures Held(code, h, sid) == Row(code, h, sid)
  {
    if h != [] {
      var n := |h| - 1;
      HeldIsRow(code, h[..n], sid);
      OutcomeIsData(code, h[..n]);
      OutcomeIsData(code, h);
      assert Fitting(code, h[n]);
      if h[n].Execute? {
        Homomorphism(code, sid, h[n].program, Outcome(h[..n]));
      }
    }
  }

  /** The shard of `id` that peer `sid` holds, if any, is that of `d`. */
  ghost predicate HeldAgrees(code: Code, h: History, sid: Sid, id: Vid, d: Bytes)
    requires code.IsData(d)
  {
    && AllFitting(code, h) && sid < code.Total()
    && (id in Held(code, h, sid) ==> Held(code, h, sid)[id] == code.ShardOf(sid, d))
  }

  /** So it is if the shard supports all programs and `d` is what the history amounts to. */
  lemma SupportedAgrees(code: Code, h: History, sid: Sid, id: Vid)
    requires code.Valid() && AllFitting(code, h) && sid < code.Total() && Supported(sid, h) && id in Outcome(h)
    ensures code.IsData(Outcome(h)[id]) && HeldAgrees(code, h, sid, id, Outcome(h)[id])
    ensures Lookup(Held(code, h, sid), id) == Some(code.ShardOf(sid, Outcome(h)[id]))
  {
    HeldIsRow(code, h, sid);
    RowValue(code, h, sid, id);
  }

  /** And so it stays, on any peer and under any operations, while no command assigns to the id. */
  lemma HeldStays(code: Code, h: History, sid: Sid, command: Command<Bytes>, id: Vid, d: Bytes)
    requires code.IsData(d) && HeldAgrees(code, h, sid, id, d) && Fitting(code, command) && id !in Assigns(command)
    ensures HeldAgrees(code, h + [command], sid, id, d)
  {
    HeldOneMore(code, h, sid, command);
    if command.Execute? {
      DirectRunAssigns(command.program, Held(code, h, sid));
      RanAll(command.program, Held(code, h, sid).Keys);
    }
  }

  // ---------- commands that may change places ----------

  function Assigns<D>(command: Command<D>): set<Vid> {
    match command
    case Put(id, _) => {id}
    case Execute(program) => ResultIds(program)
  }

  function Touched<D>(command: Command<D>): set<Vid> {
    match command
    case Put(id, _) => {id}
    case Execute(program) => Needed(program) + ResultIds(program)
  }

  predicate Independent<D>(a: Command<D>, b: Command<D>) {
    Assigns(a) !! Touched(b) && Assigns(b) !! Touched(a)
  }

  ghost predicate AgreeOn(a: Memory, b: Memory, ids: set<Vid>) {
    forall id :: id in ids ==> Lookup(a, id) == Lookup(b, id)
  }

  /** A program depends only on what it reads. */
  lemma {:induction false} RunDependsOn(program: Program, a: Memory, b: Memory, ids: set<Vid>)
    requires Needed(program) <= ids && AgreeOn(a, b, ids)
    ensures Ran(program, a.Keys) == Ran(program, b.Keys)
    ensures AgreeOn(DirectRun(program, a).memory, DirectRun(program, b).memory, ids + Ran(program, a.Keys))
    decreases program
  {
    if program != [] {
      var ins := program[0];
      forall id | id in ins.operation.Args()
        ensures Lookup(a, id) == Lookup(b, id)
      {
        assert id in Needed(program);
      }
      FetchSame(ins.operation, a, b);
      FetchDefined(ins.operation, a);
      FetchDefined(ins.operation, b);
      match Fetch(ins.operation, a) {
        case None => RunDependsOn(program[1..], a, b, ids);
        case Some(values) =>
          var a', b' := a[ins.result := Calc(values)], b[ins.result := Calc(values)];
          assert a'.Keys == a.Keys + {ins.result} && b'.Keys == b.Keys + {ins.result};
          RunDependsOn(program[1..], a', b', ids + {ins.result});
      }
    }
  }

  /** What a command leaves on `ids`, when it finds the same on what it reads. */
  lemma AppliedDependsOn(command: Command<Bytes>, a: Memory, b: Memory)
    requires AgreeOn(a, b, Touched(command))
    ensures AgreeOn(Applied(a, command), Applied(b, command), Assigns(command))
  {
    if command.Execute? {
      var program := command.program;
      RunDependsOn(program, a, b, Touched(command));
    }
  }

  lemma AppliedElsewhere(command: Command<Bytes>, mem: Memory, id: Vid)
    requires id !in Assigns(command)
    ensures Lookup(Applied(mem, command), id) == Lookup(mem, id)
  {
    if command.Execute? {
      DirectRunAssigns(command.program, mem);
      RanAll(command.program, mem.Keys);
    }
  }

  /** Independent commands may be carried out in either order. */
  lemma IndependentCommute(mem: Memory, a: Command<Bytes>, b: Command<Bytes>)
    requires Independent(a, b)
    ensures Applied(Applied(mem, a), b) == Applied(Applied(mem, b), a)
  {
    var ab, ba := Applied(Applied(mem, a), b), Applied(Applied(mem, b), a);
    forall id | id in Touched(b)
      ensures Lookup(Applied(mem, a), id) == Lookup(mem, id)
    {
      AppliedElsewhere(a, mem, id);
    }
    forall id | id in Touched(a)
      ensures Lookup(Applied(mem, b), id) == Lookup(mem, id)
    {
      AppliedElsewhere(b, mem, id);
    }
    AppliedDependsOn(a, mem, Applied(mem, b));
    AppliedDependsOn(b, mem, Applied(mem, a));
    forall id
      ensures Lookup(ab, id) == Lookup(ba, id)
    {
      OneSide(mem, a, b, id);
      OneSide(mem, b, a, id);
    }
    SameLookups(ab, ba);
  }

  lemma OneSide(mem: Memory, a: Command<Bytes>, b: Command<Bytes>, id: Vid)
    ensures id !in Assigns(b) ==> Lookup(Applied(Applied(mem, a), b), id) == Lookup(Applied(mem, a), id)
    ensures id !in Assigns(b) ==> Lookup(Applied(mem, b), id) == Lookup(mem, id)
  {
    if id !in Assigns(b) {
      AppliedElsewhere(b, Applied(mem, a), id);
      AppliedElsewhere(b, mem, id);
    }
  }

  lemma {:induction false} OutcomeAppend(h: History, h': History, more: History)
    requires Outcome(h) == Outcome(h')
    ensures Outcome(h + more) == Outcome(h' + more)
  {
    if more == [] {
      assert h + more == h && h' + more == h';
    } else {
      var n := |more| - 1;
      assert (h + more)[..|h + more| - 1] == h + more[..n] && (h' + more)[..|h' + more| - 1] == h' + more[..n];
      OutcomeAppend(h, h', more[..n]);
    }
  }

  /** Swapping independent neighbours anywhere in a history changes nothing in the end. */
  lemma SwapIndependent(before: History, a: Command<Bytes>, b: Command<Bytes>, after: History)
    requires Independent(a, b)
    ensures Outcome(before + [a, b] + after) == Outcome(before + [b, a] + after)
  {
    OutcomeTwo(before, a, b);
    OutcomeTwo(before, b, a);
    IndependentCommute(Outcome(before), a, b);
    OutcomeAppend(before + [a, b], before + [b, a], after);
  }

  lemma OutcomeTwo(h: History, a: Command<Bytes>, b: Command<Bytes>)
    ensures Outcome(h + [a, b]) == Applied(Applied(Outcome(h), a), b)
  {
    assert (h + [a, b])[..|h| + 1] == h + [a];
    assert (h + [a])[..|h|] == h;
  }

  /** A value stays as long as no command assigns to its id. */
  lemma {:induction false} ValueStays(h: History, more: History, id: Vid)
    requires forall i :: 0 <= i < |more| ==> id !in Assigns(more[i])
    ensures Lookup(Outcome(h + more), id) == Lookup(Outcome(h), id)
  {
    if more == [] {
      assert h + more == h;
    } else {
      var n := |more| - 1;
      assert (h + more)[..|h + more| - 1] == h + more[..n];
      ValueStays(h, more[..n], id);
      AppliedElsewhere(more[n], Outcome(h + more[..n]), id);
    }
  }

  // ---------- plans: histories for all data ----------

  function FilledOne(command: Command<Origin>, v: Values): Command<Bytes> {
    match command
    case Put(id, x) => Put(id, v(x))
    case Execute(program) => Execute(program)
  }

  function Filled(plan: Plan, v: Values): (h: History)
    ensures |h| == |plan|
  {
    seq(|plan|, i requires 0 <= i < |plan| => FilledOne(plan[i], v))
  }

  function TraceOfPlan(plan: Plan): Trace {
    if plan == [] then
      map[]
    else
      var before := TraceOfPlan(plan[..|plan| - 1]);
      match plan[|plan| - 1]
      case Put(id, x) => before[id := {x}]
      case Execute(program) => Traced(program, before)
  }

  predicate LinearPlan(plan: Plan) {
    forall i :: 0 <= i < |plan| && plan[i].Execute? ==> IsLinear(plan[i].program)
  }

  lemma FilledFits(code: Code, plan: Plan, v: Values)
    requires LinearPlan(plan) && AllSized(v, K * code.shardLen)
    ensures AllFitting(code, Filled(plan, v))
  {
    forall i | 0 <= i < |plan|
      ensures Fitting(code, Filled(plan, v)[i])
    {
      assert plan[i].Put? ==> |v(plan[i].data)| == K * code.shardLen;
    }
  }

  /** The trace of a plan tells, for any data, what the filled plan amounts to. */
  lemma {:induction false} PlanIsTraced(plan: Plan, v: Values, n: nat)
    requires LinearPlan(plan) && AllSized(v, n)
    ensures Outcome(Filled(plan, v)) == Evaluated(TraceOfPlan(plan), v, n)
  {
    if plan != [] {
      var m := |plan| - 1;
      PlanIsTraced(plan[..m], v, n);
      assert Filled(plan, v)[..m] == Filled(plan[..m], v);
      var t := TraceOfPlan(plan[..m]);
      match plan[m]
      case Put(id, x) =>
        assert |v(x)| == n;
        SumOne(x, v, n);
        EvaluatedUpdate(t, id, {x}, v, n);
      case Execute(program) =>
        TracedIsComputed(program, t, v, n);
    }
  }

  /** Two plans give `id` the same value for all data exactly when their traces are equal on `id`. */
  lemma PlansAgreeIff(a: Plan, b: Plan, id: Vid, n: nat)
    requires LinearPlan(a) && LinearPlan(b) && 0 < n
    ensures (forall v: Values :: AllSized(v, n) ==>
      Lookup(Outcome(Filled(a, v)), id) == Lookup(Outcome(Filled(b, v)), id))
      <==> Lookup(TraceOfPlan(a), id) == Lookup(TraceOfPlan(b), id)
  {
    SameForAllValuesIff(TraceOfPlan(a), TraceOfPlan(b), id, n);
    forall v: Values | AllSized(v, n)
      ensures Outcome(Filled(a, v)) == Evaluated(TraceOfPlan(a), v, n)
      ensures Outcome(Filled(b, v)) == Evaluated(TraceOfPlan(b), v, n)
    {
      PlanIsTraced(a, v, n);
      PlanIsTraced(b, v, n);
    }
  }

  // ---------- plans on shards ----------

  /** Data that shard `sid` tells from zeros. */
  lemma TellingData(code: Code, sid: Sid) returns (w: Bytes)
    requires code.Valid() && sid < code.Total()
    ensures code.IsData(w) && code.ShardOf(sid, w) != code.ShardOf(sid, Zeros(K * code.shardLen))
  {
    var n := code.shardLen;
    var x: Byte, y: Byte := if sid == 1 then 0 else 1, if sid == 1 then 1 else 0;
    w := seq(K * n, t => if t < n then x else y);
    var (a, b) := code.rows[sid];
    if K <= sid {
      ParityRowNonZero(code, sid);
    }
    code.field.One(a);
    code.field.One(b);
    code.field.Zero(a);
    code.field.Zero(b);
    assert code.ShardOf(sid, w)[0] == code.RowByte(sid, x, y);
    assert code.ShardOf(sid, Zeros(K * n))[0] == code.RowByte(sid, 0, 0);
  }

  /** What peer `sid` has for `id` after a plan, in one filling. */
  ghost function ShardAfter(code: Code, plan: Plan, v: Values, sid: Sid, id: Vid): Option<Bytes>
    requires LinearPlan(plan) && AllSized(v, K * code.shardLen) && sid < code.Total()
  {
    FilledFits(code, plan, v);
    Lookup(Row(code, Filled(plan, v), sid), id)
  }

  lemma ShardAfterIs(code: Code, plan: Plan, v: Values, sid: Sid, id: Vid)
    requires LinearPlan(plan) && AllSized(v, K * code.shardLen) && sid < code.Total()
    ensures ShardAfter(code, plan, v, sid, id) ==
      if id in TraceOfPlan(plan) then Some(code.ShardOf(sid, Sum(TraceOfPlan(plan)[id], v, K * code.shardLen))) else None
  {
    FilledFits(code, plan, v);
    RowValue(code, Filled(plan, v), sid, id);
    PlanIsTraced(plan, v, K * code.shardLen);
  }

  /**
   A peer that carried out plan `a` instead of plan `b` has the shard of `id` it should have, for
   all data, exactly when the traces of the plans are equal on `id`.
   */
  lemma ShardKeptIff(code: Code, sid: Sid, a: Plan, b: Plan, id: Vid)
    requires code.Valid() && sid < code.Total() && LinearPlan(a) && LinearPlan(b)
    ensures (forall v: Values :: AllSized(v, K * code.shardLen) ==>
      ShardAfter(code, a, v, sid, id) == ShardAfter(code, b, v, sid, id))
      <==> Lookup(TraceOfPlan(a), id) == Lookup(TraceOfPlan(b), id)
  {
    var n := K * code.shardLen;
    if Lookup(TraceOfPlan(a), id) == Lookup(TraceOfPlan(b), id) {
      forall v: Values | AllSized(v, n)
        ensures ShardAfter(code, a, v, sid, id) == ShardAfter(code, b, v, sid, id)
      {
        ShardAfterIs(code, a, v, sid, id);
        ShardAfterIs(code, b, v, sid, id);
      }
    } else {
      var v := ShardDiffers(code, sid, a, b, id);
    }
  }

  lemma ShardDiffers(code: Code, sid: Sid, a: Plan, b: Plan, id: Vid) returns (v: Values)
    requires code.Valid() && sid < code.Total() && LinearPlan(a) && LinearPlan(b)
    requires Lookup(TraceOfPlan(a), id) != Lookup(TraceOfPlan(b), id)
    ensures AllSized(v, K * code.shardLen) && ShardAfter(code, a, v, sid, id) != ShardAfter(code, b, v, sid, id)
  {
    var w := TellingData(code, sid);
    var x := 0;
    if id in TraceOfPlan(a) && id in TraceOfPlan(b) {
      x := Distinguishing(TraceOfPlan(a)[id], TraceOfPlan(b)[id], w);
    }
    v := Only(x, w);
    assert AllSized(v, |w|);
    ShardAfterIs(code, a, v, sid, id);
    ShardAfterIs(code, b, v, sid, id);
  }

  // ---------- shards of different histories ----------

  /** The shards of `id` from peers that carried out different plans. */
  ghost function Mixed(code: Code, plans: map<Sid, Plan>, v: Values, id: Vid): map<Sid, Bytes>
    requires AllSized(v, K * code.shardLen)
    requires forall sid :: sid in plans ==>
      sid < code.Total() && LinearPlan(plans[sid]) && id in TraceOfPlan(plans[sid])
  {
    map sid | sid in plans :: ShardHeld(code, plans[sid], v, sid, id)
  }

  ghost function ShardHeld(code: Code, plan: Plan, v: Values, sid: Sid, id: Vid): Bytes
    requires LinearPlan(plan) && AllSized(v, K * code.shardLen) && sid < code.Total() && id in TraceOfPlan(plan)
  {
    ShardAfterIs(code, plan, v, sid, id);
    ShardAfter(code, plan, v, sid, id).value
  }

  lemma MixedDecodes(code: Code, plans: map<Sid, Plan>, agreed: Plan, v: Values, id: Vid)
    requires code.Valid() && |plans| == K && LinearPlan(agreed) && id in TraceOfPlan(agreed)
    requires forall sid :: sid in plans ==>
      sid < code.Total() && LinearPlan(plans[sid]) && id in TraceOfPlan(plans[sid])
    requires AllSized(v, K * code.shardLen)
    ensures id in Outcome(Filled(agreed, v))
    ensures code.Decoded(Mixed(code, plans, v, id)) == Ok(Outcome(Filled(agreed, v))[id]) <==>
      forall sid :: sid in plans ==> ShardAfter(code, plans[sid], v, sid, id) == ShardAfter(code, agreed, v, sid, id)
  {
    var n := K * code.shardLen;
    PlanIsTraced(agreed, v, n);
    var d := Outcome(Filled(agreed, v))[id];
    var m := Mixed(code, plans, v, id);
    assert m.Keys == plans.Keys;
    assert |m| == |m.Keys| == |plans.Keys| == |plans|;
    code.DecodesToIff(m, d);
    forall sid | sid in plans
      ensures m[sid] == ShardHeld(code, plans[sid], v, sid, id)
      ensures ShardAfter(code, agreed, v, sid, id) == Some(code.ShardOf(sid, d))
      ensures ShardAfter(code, plans[sid], v, sid, id) == Some(m[sid])
    {
      ShardAfterIs(code, agreed, v, sid, id);
      ShardAfterIs(code, plans[sid], v, sid, id);
    }
  }

  /**
   Shards of `id` from peers at different points, or with different orders, decode to the value the
   agreed plan gives it, for all data, exactly when each peer's plan has the same trace of `id`.
   */
  lemma MixedDecodeIff(code: Code, plans: map<Sid, Plan>, agreed: Plan, id: Vid)
    requires code.Valid() && |plans| == K && LinearPlan(agreed) && id in TraceOfPlan(agreed)
    requires forall sid :: sid in plans ==>
      sid < code.Total() && LinearPlan(plans[sid]) && id in TraceOfPlan(plans[sid])
    ensures (forall v: Values :: AllSized(v, K * code.shardLen) ==>
        id in Outcome(Filled(agreed, v)) && code.Decoded(Mixed(code, plans, v, id)) == Ok(Outcome(Filled(agreed, v))[id]))
      <==> forall sid :: sid in plans ==> TraceOfPlan(plans[sid])[id] == TraceOfPlan(agreed)[id]
  {
    var n := K * code.shardLen;
    if forall sid :: sid in plans ==> TraceOfPlan(plans[sid])[id] == TraceOfPlan(agreed)[id] {
      forall v: Values | AllSized(v, n)
        ensures id in Outcome(Filled(agreed, v))
        ensures code.Decoded(Mixed(code, plans, v, id)) == Ok(Outcome(Filled(agreed, v))[id])
      {
        forall sid | sid in plans
          ensures ShardAfter(code, plans[sid], v, sid, id) == ShardAfter(code, agreed, v, sid, id)
        {
          ShardAfterIs(code, agreed, v, sid, id);
          ShardAfterIs(code, plans[sid], v, sid, id);
        }
        MixedDecodes(code, plans, agreed, v, id);
      }
    } else {
      var sid :| sid in plans && TraceOfPlan(plans[sid])[id] != TraceOfPlan(agreed)[id];
      var v := ShardDiffers(code, sid, plans[sid], agreed, id);
      MixedDecodes(code, plans, agreed, v, id);
    }
  }
}
