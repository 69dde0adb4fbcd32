/**
 Where values come from.  `Plus` and `Sub` are XOR and `Inv` copies, so whatever a linear program
 computes is the XOR of some of the values it started from.  Which ones can be read off the
 program: a trace says so for every id.  Two computations agree for all values exactly when their
 traces do.
 */
module Provenance {
  import opened Types
  import opened Galois
  import opened Instructions
  import opened Processor

  /** The name of a value that a computation starts from. */
  type Origin = nat

  type Trace = map<Vid, set<Origin>>

  type Values = Origin -> Bytes

  ghost predicate AllSized(v: Values, n: nat) {
    forall x :: |v(x)| == n
  }

  // ---------- tracing a program ----------

  /** Equal values cancel out. */
  function Combine(a: set<Origin>, b: set<Origin>): set<Origin> {
    (a - b) + (b - a)
  }

  function TraceOf(op: Operation<Vid>, t: Trace): set<Origin>
    requires Present(op, t.Keys)
  {
    assert op.Args()[0] in op.Args();
    assert !op.Inv? ==> op.Args()[1] in op.Args();
    if op.Inv? then t[op.operand] else Combine(t[op.first], t[op.second])
  }

  /** What the shard processor leaves: an instruction with a missing operand is skipped. */
  function Traced(program: Program, t: Trace): Trace {
    if program == [] then
      t
    else if Present(program[0].operation, t.Keys) then
      Traced(program[1..], t[program[0].result := TraceOf(program[0].operation, t)])
    else
      Traced(program[1..], t)
  }

  /** What the mock leaves: it stops there. */
  function MockTraced(program: Program, t: Trace): Trace {
    if program == [] || !Present(program[0].operation, t.Keys) then
      t
    else
      MockTraced(program[1..], t[program[0].result := TraceOf(program[0].operation, t)])
  }

  // ---------- the values behind a trace ----------

  function Zeros(n: nat): (r: Bytes)
    ensures |r| == n
  {
    seq(n, _ => 0)
  }

  /** Byte `t` of the XOR of the values of those of `s` that are below `k`. */
  function SumByte(s: set<Origin>, v: Values, k: nat, t: nat): Byte {
    if k == 0 then 0 else Add(SumByte(s, v, k - 1, t), Picked(k - 1 in s, Nth(v(k - 1), t)))
  }

  ghost function Above(s: set<Origin>): (k: nat)
    ensures forall x :: x in s ==> x < k
  {
    if s == {} then 0 else
    var x :| x in s;
    assert forall y :: y in s ==> y == x || y in s - {x};
    var rest := Above(s - {x});
    if x < rest then rest else x + 1
  }

  ghost function Sum(s: set<Origin>, v: Values, n: nat): (r: Bytes)
    ensures |r| == n
  {
    seq(n, t requires 0 <= t < n => SumByte(s, v, Above(s), t))
  }

  ghost function Evaluated(t: Trace, v: Values, n: nat): Memory {
    map id | id in t :: Sum(t[id], v, n)
  }

  /** Any bound above all of `s` gives the same sum. */
  lemma {:induction false} SumBeyond(s: set<Origin>, v: Values, k: nat, j: nat, t: nat)
    requires j <= k && forall x :: x in s ==> x < j
    ensures SumByte(s, v, k, t) == SumByte(s, v, j, t)
  {
    if j < k {
      SumBeyond(s, v, k - 1, j, t);
      AddZero(SumByte(s, v, k - 1, t));
    }
  }

  lemma {:induction false} SumCombined(a: set<Origin>, b: set<Origin>, v: Values, k: nat, t: nat)
    ensures SumByte(Combine(a, b), v, k, t) == Add(SumByte(a, v, k, t), SumByte(b, v, k, t))
  {
    if k > 0 {
      SumCombined(a, b, v, k - 1, t);
      var x := Nth(v(k - 1), t);
      var p, q := Picked(k - 1 in a, x), Picked(k - 1 in b, x);
      AddSwap(SumByte(a, v, k - 1, t), SumByte(b, v, k - 1, t), p, q);
      PickedOnce(k - 1 in a, k - 1 in b, x);
    }
  }

  function Picked(pick: bool, x: Byte): Byte {
    if pick then x else 0
  }

  lemma PickedOnce(p: bool, q: bool, x: Byte)
    ensures Picked(p != q, x) == Add(Picked(p, x), Picked(q, x))
  {
    AddZero(x);
    AddZero(0);
  }

  lemma CombinedByte(a: set<Origin>, b: set<Origin>, v: Values, n: nat, t: nat)
    requires t < n
    ensures Sum(Combine(a, b), v, n)[t] == Add(Sum(a, v, n)[t], Sum(b, v, n)[t])
  {
    var k := Above(a + b);
    assert (forall x :: x in a ==> x in a + b) && (forall x :: x in b ==> x in a + b);
    assert forall x :: x in Combine(a, b) ==> x in a + b;
    SameSum(a, v, k, t);
    SameSum(b, v, k, t);
    SameSum(Combine(a, b), v, k, t);
    SumCombined(a, b, v, k, t);
  }

  lemma SameSum(s: set<Origin>, v: Values, k: nat, t: nat)
    requires forall x :: x in s ==> x < k
    ensures SumByte(s, v, Above(s), t) == SumByte(s, v, k, t)
  {
    if Above(s) <= k {
      SumBeyond(s, v, k, Above(s), t);
    } else {
      SumBeyond(s, v, Above(s), k, t);
    }
  }

  lemma SumOne(x: Origin, v: Values, n: nat)
    requires |v(x)| == n
    ensures Sum({x}, v, n) == v(x)
  {
    forall t | 0 <= t < n
      ensures Sum({x}, v, n)[t] == v(x)[t]
    {
      SameSum({x}, v, x + 1, t);
      SumBelow({x}, v, x, t);
      AddZero(v(x)[t]);
    }
  }

  lemma {:induction false} SumBelow(s: set<Origin>, v: Values, k: nat, t: nat)
    requires forall x :: x in s ==> k <= x
    ensures SumByte(s, v, k, t) == 0
  {
    if k > 0 {
      SumBelow(s, v, k - 1, t);
      AddZero(0);
    }
  }

  // ---------- traces tell the truth ----------

  lemma TraceOfOp(op: Operation<Vid>, t: Trace, v: Values, n: nat)
    requires op.Linear() && Present(op, t.Keys)
    ensures Fetch(op, Evaluated(t, v, n)).Some?
    ensures Calc(Fetch(op, Evaluated(t, v, n)).value) == Sum(TraceOf(op, t), v, n)
  {
    var mem := Evaluated(t, v, n);
    assert mem.Keys == t.Keys;
    FetchDefined(op, mem);
    assert op.Args()[0] in op.Args();
    assert !op.Inv? ==> op.Args()[1] in op.Args();
    var values := Fetch(op, mem).value;
    forall i | 0 <= i < n
      ensures CalcByte(values, i) == Sum(TraceOf(op, t), v, n)[i]
    {
      if !op.Inv? {
        CombinedByte(t[op.first], t[op.second], v, n, i);
      }
    }
    assert Calc(values) == Sum(TraceOf(op, t), v, n);
  }

  lemma EvaluatedUpdate(t: Trace, id: Vid, s: set<Origin>, v: Values, n: nat)
    ensures Evaluated(t[id := s], v, n) == Evaluated(t, v, n)[id := Sum(s, v, n)]
  {
  }

  /** A linear program on traced values leaves the values its trace says. */
  lemma {:induction false} TracedIsComputed(program: Program, t: Trace, v: Values, n: nat)
    requires IsLinear(program)
    ensures DirectRun(program, Evaluated(t, v, n)).memory == Evaluated(Traced(program, t), v, n)
    ensures MockExecuted(program, Evaluated(t, v, n)).storage == Evaluated(MockTraced(program, t), v, n)
    decreases program
  {
    if program != [] {
      var ins := program[0];
      var mem := Evaluated(t, v, n);
      assert mem.Keys == t.Keys;
      FetchDefined(ins.operation, mem);
      if Present(ins.operation, t.Keys) {
        TraceOfOp(ins.operation, t, v, n);
        EvaluatedUpdate(t, ins.result, TraceOf(ins.operation, t), v, n);
        TracedIsComputed(program[1..], t[ins.result := TraceOf(ins.operation, t)], v, n);
      } else {
        TracedIsComputed(program[1..], t, v, n);
      }
    }
  }

  // ---------- different traces can be told apart ----------

  /** `w` for one origin and zeros for all others. */
  function Only(x: Origin, w: Bytes): Values {
    (k: Origin) => OnlyAt(x, w, k)
  }

  function OnlyAt(x: Origin, w: Bytes, k: Origin): (r: Bytes)
    ensures |r| == |w|
  {
    if k == x then w else Zeros(|w|)
  }

  lemma {:induction false} SumOnlyByte(s: set<Origin>, x: Origin, w: Bytes, k: nat, t: nat)
    requires t < |w|
    ensures SumByte(s, Only(x, w), k, t) == if x in s && x < k then w[t] else 0
  {
    if k > 0 {
      SumOnlyByte(s, x, w, k - 1, t);
      AddZero(SumByte(s, Only(x, w), k - 1, t));
      AddZero(w[t]);
      assert Nth(Only(x, w)(k - 1), t) == if k - 1 == x then w[t] else 0;
    }
  }

  lemma SumOnly(s: set<Origin>, x: Origin, w: Bytes)
    ensures Sum(s, Only(x, w), |w|) == if x in s then w else Zeros(|w|)
  {
    forall t | 0 <= t < |w|
      ensures Sum(s, Only(x, w), |w|)[t] == if x in s then w[t] else 0
    {
      SumOnlyByte(s, x, w, Above(s), t);
    }
    assert Sum(s, Only(x, w), |w|) == if x in s then w else Zeros(|w|);
  }

  lemma CombineSame(a: set<Origin>, b: set<Origin>)
    ensures Combine(a, b) == {} ==> a == b
  {
    assert a == (a - Combine(a, b)) + (a - b) && b == (b - Combine(a, b)) + (b - a);
  }

  /** An origin that one trace of `id` has and the other lacks. */
  lemma Distinguishing(a: set<Origin>, b: set<Origin>, w: Bytes) returns (x: Origin)
    requires a != b
    ensures {Sum(a, Only(x, w), |w|), Sum(b, Only(x, w), |w|)} == {w, Zeros(|w|)}
  {
    CombineSame(a, b);
    x :| x in Combine(a, b);
    SumOnly(a, x, w);
    SumOnly(b, x, w);
  }

  lemma OnesDiffer(n: nat)
    requires 0 < n
    ensures seq<Byte>(n, _ => 1) != Zeros(n)
  {
    assert seq<Byte>(n, _ => 1)[0] != Zeros(n)[0];
  }

  /** Two traces give `id` the same value for all values of the origins exactly when they are equal on `id`. */
  lemma SameForAllValuesIff(a: Trace, b: Trace, id: Vid, n: nat)
    requires 0 < n
    ensures (forall v: Values :: AllSized(v, n) ==>
      Lookup(Evaluated(a, v, n), id) == Lookup(Evaluated(b, v, n), id)) <==>
      Lookup(a, id) == Lookup(b, id)
  {
    if Lookup(a, id) != Lookup(b, id) {
      var w := seq<Byte>(n, _ => 1);
      OnesDiffer(n);
      var x := 0;
      if id in a && id in b {
        x := Distinguishing(a[id], b[id], w);
      }
      var v := Only(x, w);
      assert AllSized(v, n);
      assert Lookup(Evaluated(a, v, n), id) != Lookup(Evaluated(b, v, n), id);
    }
  }

  // ---------- the two processors after a missing operand ----------

  function Untouched(keys: set<Vid>): Trace {
    map id | id in keys :: {id}
  }

  function ValuesIn(mem: Memory, n: nat): Values {
    (id: Vid) => if id in mem then mem[id] else Zeros(n)
  }

  lemma UntouchedIs(mem: Memory, n: nat)
    requires Sized(mem, n)
    ensures AllSized(ValuesIn(mem, n), n) && Evaluated(Untouched(mem.Keys), ValuesIn(mem, n), n) == mem
  {
    var v := ValuesIn(mem, n);
    forall id | id in mem
      ensures Sum({id}, v, n) == mem[id]
    {
      SumOne(id, v, n);
    }
  }

  /**
   Skipping and stopping at a missing operand leave the same memory, whatever the values of the ids
   in memory, exactly when the traces of both are equal.
   */
  lemma SkippingIsHarmlessIff(program: Program, keys: set<Vid>, n: nat)
    requires IsLinear(program) && 0 < n
    ensures (forall mem: Memory :: mem.Keys == keys && Sized(mem, n) ==>
      MockExecuted(program, mem).storage == DirectRun(program, mem).memory)
      <==> MockTraced(program, Untouched(keys)) == Traced(program, Untouched(keys))
  {
    var mock, direct := MockTraced(program, Untouched(keys)), Traced(program, Untouched(keys));
    if mock == direct {
      forall mem: Memory | mem.Keys == keys && Sized(mem, n)
        ensures MockExecuted(program, mem).storage == DirectRun(program, mem).memory
      {
        UntouchedIs(mem, n);
        TracedIsComputed(program, Untouched(keys), ValuesIn(mem, n), n);
      }
    } else {
      var id := TracesDiffer(mock, direct);
      SameForAllValuesIff(mock, direct, id, n);
      var v: Values :| AllSized(v, n) && Lookup(Evaluated(mock, v, n), id) != Lookup(Evaluated(direct, v, n), id);
      var mem := Evaluated(Untouched(keys), v, n);
      TracedIsComputed(program, Untouched(keys), v, n);
      assert mem.Keys == keys && Sized(mem, n);
    }
  }

  lemma TracesDiffer(a: Trace, b: Trace) returns (id: Vid)
    requires a != b
    ensures Lookup(a, id) != Lookup(b, id)
  {
    SameTraces(a, b);
    id :| Lookup(a, id) != Lookup(b, id);
  }

  lemma SameTraces(a: Trace, b: Trace)
    ensures (forall id :: Lookup(a, id) == Lookup(b, id)) ==> a == b
  {
    if forall id :: Lookup(a, id) == Lookup(b, id) {
      forall id
        ensures id in a <==> id in b
        ensures id in a ==> a[id] == b[id]
      {
        assert Lookup(a, id) == Lookup(b, id);
      }
    }
  }
}
