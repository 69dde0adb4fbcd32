/**
 Two ways in which peers come apart, each as a run of the machine together with the exact condition
 for it to do harm: a collection that meets peers at different points, and a program that overtakes
 a put on its way to one of the peers.
 */
module Departures {
  import opened Types
  import opened ReedSolomon
  import opened Instructions
  import opened Processor
  import opened CodedComputation
  import opened Provenance
  import opened Histories
  import opened EndToEnd
  import opened Reachability
  import opened CollectionRuns
  import D = DataMemory

  // ---------- a collection amid a program ----------

  /** All peers are at `h` but `ahead`, which has already run the program. */
  lemma OneAhead(setup: Setup, author: PeerId, h: History, program: Program, asker: PeerId, ahead: PeerId, id: Vid)
      returns (c: Cluster)
    requires setup.Valid() && AllFitting(setup.code, h)
    requires author in setup.distribution && asker in setup.distribution && ahead in setup.distribution
    requires setup.distribution[asker] != setup.distribution[ahead]
    ensures Reached(setup, c) && asker in c.nodes && ahead in c.nodes
    ensures AtPoint(c.nodes[asker], h) && AtPoint(c.nodes[ahead], h + [Execute(program)])
    ensures D.Starts(c.nodes[asker].memory, id)
    ensures D.At(c.nodes[asker].memory.locations, id) ==
      map[setup.distribution[asker] := asker, setup.distribution[ahead] := ahead]
  {
    var all := AllReach(setup, author, h);
    var mid := LearnTwo(setup, all, asker, id, asker, ahead, h);
    ReachedThen(setup, all, mid);
    c := RunOne(setup, mid, ahead, program);
    ReachedThen(setup, mid, c);
  }

  /** The value of `id` before and after the program. */
  lemma BothValues(code: Code, h: History, program: Program, id: Vid)
    requires AllFitting(code, h) && id in Outcome(h)
    ensures id in Outcome(h + [Execute(program)])
    ensures code.IsData(Outcome(h)[id]) && code.IsData(Outcome(h + [Execute(program)])[id])
  {
    OneMore(code, h, Execute(program));
    DirectRunAssigns(program, Outcome(h));
    OutcomeIsData(code, h);
    OutcomeIsData(code, h + [Execute(program)]);
  }

  /** Two shards of different data decode to the one data that both belong to. */
  lemma TwoShards(code: Code, a: Sid, va: Bytes, b: Sid, vb: Bytes, m: map<Sid, Bytes>) returns (x: Bytes)
    requires code.Valid() && code.IsData(va) && code.IsData(vb) && a != b && a < code.Total() && b < code.Total()
    requires m == map[a := code.ShardOf(a, va), b := code.ShardOf(b, vb)]
    ensures code.Decoded(m) == Ok(x)
    ensures x == va <==> code.ShardOf(b, va) == code.ShardOf(b, vb)
    ensures x == vb <==> code.ShardOf(a, va) == code.ShardOf(a, vb)
  {
    TwoDecode(code, a, code.ShardOf(a, va), b, code.ShardOf(b, vb), m);
    x := code.Decoded(m).value;
    code.DecodesToIff(m, va);
    code.DecodesToIff(m, vb);
  }

  lemma TwoDecode(code: Code, a: Sid, sa: Bytes, b: Sid, sb: Bytes, m: map<Sid, Bytes>)
    requires code.Valid() && a != b && a < code.Total() && b < code.Total() && code.IsShard(sa) && code.IsShard(sb)
    requires m == map[a := sa, b := sb]
    ensures |m| == K && code.ValidIds(m) && code.Decoded(m).Ok?
  {
    assert m.Keys == {a, b};
    assert |m| == |m.Keys| == K;
    code.DecodeFails(m);
  }

  lemma ExactlyTwo(m: map<Sid, Bytes>, a: Sid, sa: Bytes, b: Sid, sb: Bytes)
    requires |m| == K && a != b
    requires forall sid :: sid in m ==> (sid == a && m[sid] == sa) || (sid == b && m[sid] == sb)
    ensures m == map[a := sa, b := sb]
  {
    assert m.Keys <= {a, b};
    SubsetEqual(m.Keys, {a, b});
  }

  /**
   For all histories, programs and ids, with operations that both shards support, there is a run from
   the start in which `asker` collects `id` when only `ahead` has run the program.  The response is the
   value before the program exactly when the shard of `ahead` is the same in both values, and the
   value after it exactly when the shard of `asker` is.
   */
  lemma TornAnswer(setup: Setup, author: PeerId, h: History, program: Program, asker: PeerId, ahead: PeerId, id: Vid)
      returns (c: Cluster, x: Bytes)
    requires setup.Valid() && AllFitting(setup.code, h) && id in Outcome(h)
    requires author in setup.distribution && asker in setup.distribution && ahead in setup.distribution
    requires setup.distribution[asker] != setup.distribution[ahead]
    requires Supported(setup.distribution[asker], h)
    requires Supported(setup.distribution[ahead], h + [Execute(program)])
    ensures Reached(setup, c) && LastIs(c, asker, D.RecollectResponse(Ok((id, x))))
    ensures id in Outcome(h + [Execute(program)])
    ensures var code, a, b := setup.code, setup.distribution[asker], setup.distribution[ahead];
      var before, after := Outcome(h)[id], Outcome(h + [Execute(program)])[id];
      && a < code.Total() && b < code.Total() && code.IsData(before) && code.IsData(after)
      && (x == before <==> code.ShardOf(b, before) == code.ShardOf(b, after))
      && (x == after <==> code.ShardOf(a, before) == code.ShardOf(a, after))
  {
    var mid := OneAhead(setup, author, h, program, asker, ahead, id);
    ReachedKeeps(setup, mid);
    BothValues(setup.code, h, program, id);
    c, x := TornAt(setup, mid, asker, h, ahead, h + [Execute(program)], id);
    ReachedThen(setup, mid, c);
  }

  /** A collection that meets peers at two points. */
  lemma TornAt(setup: Setup, c: Cluster, asker: PeerId, h: History, ahead: PeerId, h': History, id: Vid)
      returns (c': Cluster, x: Bytes)
    requires Invariant(setup, c) && asker in c.nodes && ahead in c.nodes
    requires AtPoint(c.nodes[asker], h) && AtPoint(c.nodes[ahead], h') && id in Outcome(h) && id in Outcome(h')
    requires asker in setup.distribution && ahead in setup.distribution
    requires setup.distribution[asker] != setup.distribution[ahead] && D.Starts(c.nodes[asker].memory, id)
    requires D.At(c.nodes[asker].memory.locations, id) ==
      map[setup.distribution[asker] := asker, setup.distribution[ahead] := ahead]
    requires Supported(setup.distribution[asker], h) && Supported(setup.distribution[ahead], h')
    ensures Leads(setup, c, c') && LastIs(c', asker, D.RecollectResponse(Ok((id, x))))
    ensures var code, a, b := setup.code, setup.distribution[asker], setup.distribution[ahead];
      && a < code.Total() && b < code.Total() && code.IsData(Outcome(h)[id]) && code.IsData(Outcome(h')[id])
      && (x == Outcome(h)[id] <==> code.ShardOf(b, Outcome(h)[id]) == code.ShardOf(b, Outcome(h')[id]))
      && (x == Outcome(h')[id] <==> code.ShardOf(a, Outcome(h)[id]) == code.ShardOf(a, Outcome(h')[id]))
  {
    KeepsValue(setup, c, asker, h, id);
    KeepsValue(setup, c, ahead, h', id);
    StoresOwnOnly(setup, c, asker);
    var a, b := setup.distribution[asker], setup.distribution[ahead];
    var before, after := Outcome(h)[id], Outcome(h')[id];
    var m;
    c', m := CollectsTwo(setup, c, asker, id, a, setup.code.ShardOf(a, before), b, ahead, setup.code.ShardOf(b, after));
    x := TwoShards(setup.code, a, before, b, after, m);
    DecodedIsLast(setup, c', asker, id, m, x);
  }

  lemma CollectsTwo(setup: Setup, c: Cluster, asker: PeerId, id: Vid, a: Sid, sa: Bytes, b: Sid, ahead: PeerId, sb: Bytes)
      returns (c': Cluster, m: map<Sid, Bytes>)
    requires setup.code.Valid() && asker in c.nodes && D.OwnOnly(setup.Of(asker), c.nodes[asker].memory)
    requires D.Starts(c.nodes[asker].memory, id) && a != b && asker != ahead
    requires Keeps(c, asker, D.Full(id, a), sa) && Keeps(c, ahead, D.Full(id, b), sb)
    requires D.At(c.nodes[asker].memory.locations, id) == map[a := asker, b := ahead]
    ensures Leads(setup, c, c') && HasDecoded(setup, c', asker, id, m) && m == map[a := sa, b := sb]
  {
    assert Helps(c, asker, id, a, asker, sa) && Helps(c, asker, id, b, ahead, sb) by {
      var known := D.At(c.nodes[asker].memory.locations, id);
      assert known[a] == asker && known[b] == ahead;
    }
    c', m := Collects(setup, c, asker, id, a, asker, sa, b, ahead, sb);
    forall sid | sid in m
      ensures (sid == a && m[sid] == sa) || (sid == b && m[sid] == sb)
    {
      if Helps(c, asker, id, sid, asker, m[sid]) {
        OwnIsKnown(c, asker, id, sid, m[sid], a, sa, b, ahead);
      }
    }
    ExactlyTwo(m, a, sa, b, sb);
  }

  lemma OwnIsKnown(c: Cluster, asker: PeerId, id: Vid, sid: Sid, shard: Bytes, a: Sid, sa: Bytes, b: Sid, ahead: PeerId)
    requires Helps(c, asker, id, sid, asker, shard) && Keeps(c, asker, D.Full(id, a), sa) && asker != ahead
    requires D.At(c.nodes[asker].memory.locations, id) == map[a := asker, b := ahead]
    ensures sid == a && shard == sa
  {
    assert D.At(c.nodes[asker].memory.locations, id)[sid] == asker;
  }

  function Ones(n: nat): (r: Bytes)
    ensures |r| == n
  {
    seq(n, _ => 1)
  }

  /** Doubling, which is adding a value to itself, leaves zeros. */
  lemma Doubled(code: Code)
    ensures var h := [Put(0, Ones(K * code.shardLen))];
      && AllFitting(code, h) && IsLinear(DOUBLING) && OperandsExist(h + [Execute(DOUBLING)]) && OperandsExist(h)
      && Outcome(h) == map[0 := Ones(K * code.shardLen)]
      && Outcome(h + [Execute(DOUBLING)]) == map[0 := Zeros(K * code.shardLen)]
  {
    var n := K * code.shardLen;
    var h: History := [Put(0, Ones(n))];
    assert h[..0] == [];
    assert Outcome(h) == map[0 := Ones(n)];
    assert (h + [Execute(DOUBLING)])[..1] == h;
    var mem: Memory := map[0 := Ones(n)];
    assert Fetch(DOUBLING[0].operation, mem) == Some(Plus(Ones(n), Ones(n)));
    assert Calc(Plus(Ones(n), Ones(n))) == Zeros(n);
    assert DirectRun(DOUBLING, mem).memory == DirectRun(DOUBLING[1..], mem[0 := Zeros(n)]).memory;
    assert mem[0 := Zeros(n)] == map[0 := Zeros(n)];
    assert KeysAfter(h) == {0};
  }

  /**
   A run from the start that ends with a response which is neither the value before the program nor
   the value after it, nor any other value the mock ever has.
   */
  lemma WrongAnswer(setup: Setup, asker: PeerId, ahead: PeerId) returns (c: Cluster, x: Bytes)
    requires setup.Valid() && asker in setup.distribution && ahead in setup.distribution
    requires setup.distribution[asker] == 0 && setup.distribution[ahead] == 1
    ensures Reached(setup, c) && LastIs(c, asker, D.RecollectResponse(Ok((0, x))))
    ensures var h := [Put(0, Ones(K * setup.code.shardLen)), Execute(DOUBLING)];
      OperandsExist(h) && forall n :: 0 <= n <= |h| ==> Lookup(MockState(h[..n]), 0) != Some(x)
  {
    var code, n := setup.code, K * setup.code.shardLen;
    var first: History := [Put(0, Ones(n))];
    Doubled(code);
    SupportedIf(0, first);
    SupportedIf(1, first + [Execute(DOUBLING)]);
    c, x := TornAnswer(setup, asker, first, DOUBLING, asker, ahead, 0);
    ShardsTell(code, 0);
    ShardsTell(code, 1);
    var h: History := [Put(0, Ones(n)), Execute(DOUBLING)];
    assert h == first + [Execute(DOUBLING)];
    NeverMock(code, x);
  }

  lemma NeverMock(code: Code, x: Bytes)
    requires x != Ones(K * code.shardLen) && x != Zeros(K * code.shardLen)
    ensures var h := [Put(0, Ones(K * code.shardLen)), Execute(DOUBLING)];
      OperandsExist(h) && forall n :: 0 <= n <= |h| ==> Lookup(MockState(h[..n]), 0) != Some(x)
  {
    Doubled(code);
    var first: History := [Put(0, Ones(K * code.shardLen))];
    var h: History := [Put(0, Ones(K * code.shardLen)), Execute(DOUBLING)];
    assert h == first + [Execute(DOUBLING)];
    MockIsOutcome(h);
    MockIsOutcome(first);
    assert h[..0] == [] && h[..1] == first && h[..2] == h;
  }

  lemma ShardsTell(code: Code, sid: Sid)
    requires code.Valid() && sid < K
    ensures sid < code.Total()
    ensures code.ShardOf(sid, Ones(K * code.shardLen)) != code.ShardOf(sid, Zeros(K * code.shardLen))
  {
    var n := code.shardLen;
    code.Systematic(Ones(n), Ones(n));
    code.Systematic(Zeros(n), Zeros(n));
    assert Ones(K * n)[..n] == Ones(n) && Ones(K * n)[n..] == Ones(n);
    assert Zeros(K * n)[..n] == Zeros(n) && Zeros(K * n)[n..] == Zeros(n);
    assert Ones(n)[0] != Zeros(n)[0];
  }

  // ---------- a program that overtakes a put ----------

  /**
   For all histories, data and programs, a run in which `late` runs the program before its shard of
   the put reaches it, while all other peers carry out the put first.  `late` then stores the row
   of the two commands in the other order.
   */
  lemma OvertakenPut(setup: Setup, author: PeerId, late: PeerId, h: History, id: Vid, data: Bytes, program: Program)
      returns (c: Cluster)
    requires setup.Valid() && AllFitting(setup.code, h) && setup.code.IsData(data)
    requires author in setup.distribution && late in setup.distribution && author != late
    ensures Reached(setup, c) && c.nodes.Keys == setup.distribution.Keys
    ensures forall peer :: peer in c.nodes && peer != late ==>
      AtPoint(c.nodes[peer], h + [Put(id, data), Execute(program)])
    ensures AtPoint(c.nodes[late], h + [Execute(program), Put(id, data)])
  {
    var all := AllReach(setup, author, h);
    c := Overtake(setup, all, author, late, h, id, data, program);
    ReachedThen(setup, all, c);
  }

  lemma Overtake(setup: Setup, c: Cluster, author: PeerId, late: PeerId, h: History, id: Vid, data: Bytes, program: Program)
      returns (c': Cluster)
    requires setup.Valid() && setup.code.IsData(data) && AllAt(c, c.nodes.Keys, h)
    requires c.nodes.Keys == setup.distribution.Keys && author in c.nodes && late in c.nodes && author != late
    ensures Leads(setup, c, c') && c'.nodes.Keys == c.nodes.Keys
    ensures AllAt(c', c.nodes.Keys - {late}, h + [Put(id, data), Execute(program)])
    ensures AtPoint(c'.nodes[late], h + [Execute(program), Put(id, data)])
  {
    var others := c.nodes.Keys - {late};
    assert others - {author} + {author} == others;
    var ready := PutButLate(setup, c, others - {author}, author, late, h, id, data);
    c' := RunInBothOrders(setup, ready, others, late, h, id, data, program);
    Then(setup, c, ready, c');
  }

  lemma RunInBothOrders(
      setup: Setup, c: Cluster, others: set<PeerId>, late: PeerId, h: History, id: Vid, data: Bytes, program: Program)
      returns (c': Cluster)
    requires setup.code.Valid() && late !in others && late in c.nodes && AtPoint(c.nodes[late], h)
    requires AllAt(c, others, h + [Put(id, data)]) && Supplied(setup, c, late, id, data)
    ensures Leads(setup, c, c') && c'.nodes.Keys == c.nodes.Keys
    ensures AllAt(c', others, h + [Put(id, data), Execute(program)])
    ensures AtPoint(c'.nodes[late], h + [Execute(program), Put(id, data)])
  {
    assert h + [Put(id, data)] + [Execute(program)] == h + [Put(id, data), Execute(program)];
    var run := RunAt(setup, c, others, h + [Put(id, data)], program);
    c' := RunThenStore(setup, run, late, h, id, data, program);
    Then(setup, c, run, c');
  }

  /** The put reaches all but `late`, whose shard is on its way. */
  lemma PutButLate(
      setup: Setup, c: Cluster, todo: set<PeerId>, author: PeerId, late: PeerId, h: History, id: Vid, data: Bytes)
      returns (c': Cluster)
    requires setup.Valid() && todo <= setup.distribution.Keys && author !in todo && author in setup.distribution
    requires late in c.nodes && late in setup.distribution && late !in todo + {author}
    requires setup.code.IsData(data) && AllAt(c, todo + {author}, h)
    ensures Leads(setup, c, c') && c'.nodes.Keys == c.nodes.Keys && Supplied(setup, c', late, id, data)
    ensures AllAt(c', todo + {author}, h + [Put(id, data)]) && c'.nodes[late] == c.nodes[late]
  {
    var put := PutAt(setup, c, todo, author, h, id, data);
    c' := ServeOne(setup, put, author, late, id, data);
    Then(setup, c, put, c');
  }

  lemma RunThenStore(setup: Setup, c: Cluster, late: PeerId, h: History, id: Vid, data: Bytes, program: Program)
      returns (c': Cluster)
    requires setup.code.Valid() && late in c.nodes && AtPoint(c.nodes[late], h)
    requires Supplied(setup, c, late, id, data)
    ensures Leads(setup, c, c') && Reachability.OnlyAt(c, c', late) &&
      AtPoint(c'.nodes[late], h + [Execute(program), Put(id, data)])
  {
    var mid := RunOne(setup, c, late, program);
    c' := StoreOne(setup, mid, late, id, data);
    Then(setup, c, mid, c');
    assert h + [Execute(program)] + [Put(id, data)] == h + [Execute(program), Put(id, data)];
  }

  function InOrder(plan: Plan, id: Vid, x: Origin, program: Program): Plan {
    plan + [Put(id, x), Execute(program)]
  }

  function Overtaken(plan: Plan, id: Vid, x: Origin, program: Program): Plan {
    plan + [Execute(program), Put(id, x)]
  }

  /** Shard `sid` of `of` is the same after both plans, for all data. */
  ghost predicate SameShard(code: Code, sid: Sid, a: Plan, b: Plan, of: Vid)
    requires sid < code.Total() && LinearPlan(a) && LinearPlan(b)
  {
    forall v: Values :: AllSized(v, K * code.shardLen) ==>
      ShardAfter(code, a, v, sid, of) == ShardAfter(code, b, v, sid, of)
  }

  lemma SameRowIff(code: Code, sid: Sid, a: Plan, b: Plan)
    requires code.Valid() && sid < code.Total() && LinearPlan(a) && LinearPlan(b)
    ensures (forall of :: SameShard(code, sid, a, b, of)) <==> TraceOfPlan(a) == TraceOfPlan(b)
  {
    forall of: Vid
      ensures SameShard(code, sid, a, b, of) <==> Lookup(TraceOfPlan(a), of) == Lookup(TraceOfPlan(b), of)
    {
      ShardKeptIff(code, sid, a, b, of);
    }
    SameTraces(TraceOfPlan(a), TraceOfPlan(b));
  }

  /**
   The late peer has the shards it should have, for all data, exactly when tracing the program
   from the put on gives what tracing it without the put gives, with the put added at the end.
   */
  lemma OvertakingIsHarmlessIff(code: Code, sid: Sid, plan: Plan, id: Vid, x: Origin, program: Program)
    requires code.Valid() && sid < code.Total() && LinearPlan(plan) && IsLinear(program)
    ensures LinearPlan(InOrder(plan, id, x, program)) && LinearPlan(Overtaken(plan, id, x, program))
    ensures (forall of :: SameShard(code, sid, Overtaken(plan, id, x, program), InOrder(plan, id, x, program), of))
      <==> Traced(program, TraceOfPlan(plan))[id := {x}] == Traced(program, TraceOfPlan(plan)[id := {x}])
  {
    var a, b := Overtaken(plan, id, x, program), InOrder(plan, id, x, program);
    TraceOneMore(plan, Put(id, x));
    TraceOneMore(plan, Execute(program));
    TraceOneMore(plan + [Put(id, x)], Execute(program));
    TraceOneMore(plan + [Execute(program)], Put(id, x));
    assert a == plan + [Execute(program)] + [Put(id, x)] && b == plan + [Put(id, x)] + [Execute(program)];
    SameRowIff(code, sid, a, b);
  }

  lemma TraceOneMore(plan: Plan, command: Command<Origin>)
    ensures command.Put? ==> TraceOfPlan(plan + [command]) == TraceOfPlan(plan)[command.id := {command.data}]
    ensures command.Execute? ==> TraceOfPlan(plan + [command]) == Traced(command.program, TraceOfPlan(plan))
  {
    assert (plan + [command])[..|plan|] == plan;
  }

  /** In particular the row is kept, for the data at hand, when the program neither reads nor assigns the id. */
  lemma UntouchedPutIsHarmless(h: History, id: Vid, data: Bytes, program: Program)
    requires id !in Needed(program) + ResultIds(program)
    ensures Outcome(h + [Execute(program), Put(id, data)]) == Outcome(h + [Put(id, data), Execute(program)])
  {
    SwapIndependent(h, Execute(program), Put(id, data), []);
    assert h + [Execute(program), Put(id, data)] + [] == h + [Execute(program), Put(id, data)];
    assert h + [Put(id, data), Execute(program)] + [] == h + [Put(id, data), Execute(program)];
  }

  /** A run whose late peer, for any data, never gets its shard of what the program computes. */
  lemma LostResult(setup: Setup, author: PeerId, late: PeerId, data: Bytes) returns (c: Cluster)
    requires setup.Valid() && setup.code.IsData(data)
    requires author in setup.distribution && late in setup.distribution && author != late
    ensures Reached(setup, c) && late in c.nodes && Idle(c.nodes[late])
    ensures 1 !in D.OwnShards(setup.Of(late), c.nodes[late].memory)
    ensures 1 in MockState([Put(0, data), Execute(COPYING)])
  {
    var none: History := [];
    c := OvertakenPut(setup, author, late, none, 0, data, COPYING);
    CopiedNothing(data);
    LateIsSupported(setup.distribution[late], data);
    ShardsMatchHistory(setup, c, late, 1, None);
  }

  lemma LateIsSupported(sid: Sid, data: Bytes)
    ensures Supported(sid, [] + [Execute(COPYING), Put(0, data)])
  {
    SupportedIf(sid, [] + [Execute(COPYING), Put(0, data)]);
  }

  lemma CopiedNothing(data: Bytes)
    ensures Outcome([] + [Execute(COPYING), Put(0, data)]) == map[0 := data]
    ensures 1 in MockState([Put(0, data), Execute(COPYING)])
  {
    var late: History := [] + [Execute(COPYING), Put(0, data)];
    assert late[..1] == [Execute(COPYING)] && late[..1][..0] == [];
    FetchDefined(COPYING[0].operation, map[]);
    assert 0 in COPYING[0].operation.Args();
    assert Outcome(late[..1]) == DirectRun(COPYING, map[]).memory == DirectRun(COPYING[1..], map[]).memory == map[];
    var good: History := [Put(0, data), Execute(COPYING)];
    assert good[..1] == [Put(0, data)] && good[..1][..0] == [];
    assert MockState(good[..1]) == map[0 := data];
    var mem: Memory := map[0 := data];
    assert Fetch(COPYING[0].operation, mem).Some?;
    assert MockState(good) == MockExecuted(COPYING, mem).storage;
    assert MockExecuted(COPYING[1..], mem[1 := Calc(Fetch(COPYING[0].operation, mem).value)]).storage.Keys == {0, 1};
  }
}
