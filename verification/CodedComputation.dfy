/**
 Computing on shards instead of data.  Each peer runs the same program on its own row of the
 encoded memory; these lemmas say when the result is its row of the encoded result.
 */
module CodedComputation {
  import opened Types
  import opened Galois
  import opened ReedSolomon
  import opened Instructions
  import opened Processor

  ghost predicate IsDataMemory(code: Code, mem: Memory) {
    Sized(mem, K * code.shardLen)
  }

  /** Shard `i` of every data value in memory. */
  ghost function EncodedMemory(code: Code, i: Sid, mem: Memory): Memory
    requires i < code.Total() && IsDataMemory(code, mem)
  {
    map id | id in mem :: code.ShardOf(i, mem[id])
  }

  ghost predicate IsDataOp(code: Code, op: Operation<Bytes>) {
    forall d :: d in op.Args() ==> code.IsData(d)
  }

  ghost function ShardOfOp(code: Code, i: Sid, op: Operation<Bytes>): Operation<Bytes>
    requires i < code.Total() && IsDataOp(code, op)
  {
    assert op.Args()[0] in op.Args();
    assert !op.Inv? ==> op.Args()[1] in op.Args();
    match op
    case Sub(a, b) => Sub(code.ShardOf(i, a), code.ShardOf(i, b))
    case Plus(a, b) => Plus(code.ShardOf(i, a), code.ShardOf(i, b))
    case Inv(a) => Inv(code.ShardOf(i, a))
    case Nand(a, b) => Nand(code.ShardOf(i, a), code.ShardOf(i, b))
    case Nor(a, b) => Nor(code.ShardOf(i, a), code.ShardOf(i, b))
  }

  /** Calculating on shard `i` gives shard `i` of what is calculated on the data. */
  ghost predicate Commutes(code: Code, i: Sid, op: Operation<Bytes>)
    requires i < code.Total() && IsDataOp(code, op)
  {
    |Calc(op)| == K * code.shardLen && Calc(ShardOfOp(code, i, op)) == code.ShardOf(i, Calc(op))
  }

  /** Shards 0 and 1 are the data, so they support everything; the others support what is linear. */
  predicate Supports<T>(i: Sid, op: Operation<T>) {
    i < K || op.Linear()
  }

  /** Shard `i` supports every operation of the program. */
  predicate SupportsAll(i: Sid, program: Program) {
    forall p :: 0 <= p < |program| ==> Supports(i, program[p].operation)
  }

  /** Data shards support every program, and every shard supports linear ones. */
  lemma SupportsIf(i: Sid, program: Program)
    requires i < K || IsLinear(program)
    ensures SupportsAll(i, program)
  {
  }

  lemma RowIsLinear(code: Code, i: Sid, x: Byte, y: Byte, x': Byte, y': Byte)
    requires code.field.Valid() && i < code.Total()
    ensures code.RowByte(i, Add(x, x'), Add(y, y')) == Add(code.RowByte(i, x, y), code.RowByte(i, x', y'))
  {
    var (a, b) := code.rows[i];
    code.field.Distr(a, x, x');
    code.field.Distr(b, y, y');
    AddSwap(code.field.mul(a, x), code.field.mul(a, x'), code.field.mul(b, y), code.field.mul(b, y'));
  }

  lemma CommutesByte(code: Code, i: Sid, op: Operation<Bytes>, t: nat)
    requires code.Valid() && i < code.Total() && IsDataOp(code, op) && Supports(i, op) && t < code.shardLen
    ensures CalcByte(ShardOfOp(code, i, op), t) == code.RowByte(i, CalcByte(op, t), CalcByte(op, code.shardLen + t))
  {
    if op.Linear() {
      LinearCommutesByte(code, i, op, t);
    } else {
      UnitCommutesByte(code, i, op, t);
    }
  }

  lemma ShardByte(code: Code, i: Sid, d: Bytes, t: nat)
    requires i < code.Total() && code.IsData(d) && t < code.shardLen
    ensures Nth(code.ShardOf(i, d), t) == code.RowByte(i, Nth(d, t), Nth(d, code.shardLen + t))
  {
  }

  lemma SumCommutes(code: Code, i: Sid, a: Bytes, b: Bytes, t: nat)
    requires code.field.Valid() && i < code.Total() && code.IsData(a) && code.IsData(b) && t < code.shardLen
    ensures var n := code.shardLen;
      Add(Nth(code.ShardOf(i, a), t), Nth(code.ShardOf(i, b), t)) ==
      code.RowByte(i, Add(Nth(a, t), Nth(b, t)), Add(Nth(a, n + t), Nth(b, n + t)))
  {
    var n := code.shardLen;
    ShardByte(code, i, a, t);
    ShardByte(code, i, b, t);
    RowIsLinear(code, i, Nth(a, t), Nth(a, n + t), Nth(b, t), Nth(b, n + t));
  }

  lemma LinearCommutesByte(code: Code, i: Sid, op: Operation<Bytes>, t: nat)
    requires code.Valid() && i < code.Total() && IsDataOp(code, op) && op.Linear() && t < code.shardLen
    ensures CalcByte(ShardOfOp(code, i, op), t) == code.RowByte(i, CalcByte(op, t), CalcByte(op, code.shardLen + t))
  {
    assert op.Args()[0] in op.Args();
    assert !op.Inv? ==> op.Args()[1] in op.Args();
    match op
    case Inv(a) => ShardByte(code, i, a, t);
    case Sub(a, b) => SumCommutes(code, i, a, b, t);
    case Plus(a, b) => SumCommutes(code, i, a, b, t);
  }

  /** A byte of a data shard is a byte of the data. */
  lemma UnitByte(code: Code, i: Sid, d: Bytes, t: nat)
    requires code.Valid() && i < K && code.IsData(d) && t < code.shardLen
    ensures i < code.Total()
    ensures Nth(code.ShardOf(i, d), t) == if i == 0 then Nth(d, t) else Nth(d, code.shardLen + t)
  {
    ShardByte(code, i, d, t);
    UnitRow(code, i, Nth(d, t), Nth(d, code.shardLen + t));
  }

  lemma UnitCommutesByte(code: Code, i: Sid, op: Operation<Bytes>, t: nat)
    requires code.Valid() && i < K && IsDataOp(code, op) && !op.Linear() && t < code.shardLen
    ensures i < code.Total()
    ensures CalcByte(ShardOfOp(code, i, op), t) == code.RowByte(i, CalcByte(op, t), CalcByte(op, code.shardLen + t))
  {
    assert op.Args()[0] in op.Args() && op.Args()[1] in op.Args();
    UnitByte(code, i, op.first, t);
    UnitByte(code, i, op.second, t);
    UnitRow(code, i, CalcByte(op, t), CalcByte(op, code.shardLen + t));
  }

  lemma UnitRow(code: Code, i: Sid, x: Byte, y: Byte)
    requires code.Valid() && i < K
    ensures code.RowByte(i, x, y) == if i == 0 then x else y
  {
    if i == 0 {
      code.field.One(x);
      code.field.Zero(y);
      AddZero(x);
    } else {
      code.field.One(y);
      code.field.Zero(x);
      AddZero(y);
    }
  }

  lemma SupportedCommutes(code: Code, i: Sid, op: Operation<Bytes>)
    requires code.Valid() && i < code.Total() && IsDataOp(code, op) && Supports(i, op)
    ensures Commutes(code, i, op)
  {
    assert op.Args()[0] in op.Args();
    assert !op.Inv? ==> op.Args()[1] in op.Args();
    forall t | 0 <= t < code.shardLen
      ensures CalcByte(ShardOfOp(code, i, op), t) == code.RowByte(i, CalcByte(op, t), CalcByte(op, code.shardLen + t))
    {
      CommutesByte(code, i, op, t);
    }
    assert Calc(ShardOfOp(code, i, op)) == code.ShardOf(i, Calc(op));
  }

  lemma FetchEncoded(code: Code, i: Sid, op: Operation<Vid>, mem: Memory)
    requires i < code.Total() && IsDataMemory(code, mem)
    ensures Fetch(op, EncodedMemory(code, i, mem)).Some? <==> Fetch(op, mem).Some?
    ensures Fetch(op, mem).Some? ==>
      IsDataOp(code, Fetch(op, mem).value) &&
      Fetch(op, EncodedMemory(code, i, mem)).value == ShardOfOp(code, i, Fetch(op, mem).value)
  {}

  /**
   Homomorphism: a program of operations that shard `i` supports, run on shard `i` of the encoded
   memory, gives shard `i` of the encoding of what it computes on the data, instruction by
   instruction and whatever operands and results coincide.
   */
  lemma {:induction false} Homomorphism(code: Code, i: Sid, program: Program, mem: Memory)
    requires code.Valid() && i < code.Total() && IsDataMemory(code, mem)
    requires SupportsAll(i, program)
    ensures IsDataMemory(code, DirectRun(program, mem).memory)
    ensures DirectRun(program, EncodedMemory(code, i, mem)).memory == EncodedMemory(code, i, DirectRun(program, mem).memory)
    ensures DirectRun(program, EncodedMemory(code, i, mem)).results == DirectRun(program, mem).results
  {
    DirectRunSized(program, mem, K * code.shardLen);
    if program != [] {
      var ins := program[0];
      FetchEncoded(code, i, ins.operation, mem);
      match Fetch(ins.operation, mem) {
        case None =>
          Homomorphism(code, i, program[1..], mem);
        case Some(values) =>
          assert Supports(i, values);
          SupportedCommutes(code, i, values);
          var mem' := mem[ins.result := Calc(values)];
          assert EncodedMemory(code, i, mem') == EncodedMemory(code, i, mem)[ins.result := code.ShardOf(i, Calc(values))];
          Homomorphism(code, i, program[1..], mem');
      }
    }
  }

  /** The same against the mock processor, which succeeds exactly when no operand is missing. */
  lemma MatchesMock(code: Code, i: Sid, program: Program, mem: Memory)
    requires code.Valid() && i < code.Total() && IsDataMemory(code, mem)
    requires SupportsAll(i, program)
    ensures MockExecuted(program, mem).outcome.Ok? <==> AllOk(DirectRun(program, EncodedMemory(code, i, mem)).results)
    ensures MockExecuted(program, mem).outcome.Ok? ==>
      IsDataMemory(code, MockExecuted(program, mem).storage) &&
      DirectRun(program, EncodedMemory(code, i, mem)).memory == EncodedMemory(code, i, MockExecuted(program, mem).storage)
  {
    Homomorphism(code, i, program, mem);
    MockAgainstDirect(program, mem);
  }

  // ---------- the limits ----------

  /** Data whose first shard is all ones and whose second is all zeroes. */
  function Lopsided(n: nat): Bytes {
    seq(K * n, t => if t < n then 1 else 0)
  }

  /** In a valid code both coefficients of a parity row are nonzero. */
  lemma ParityRowNonZero(code: Code, i: Sid)
    requires code.Valid() && K <= i < code.Total()
    ensures code.rows[i].0 != 0 && code.rows[i].1 != 0
  {
    var (a, b) := code.rows[i];
    assert code.Det(0, i) != 0 && code.Det(1, i) != 0;
    code.field.One(a);
    code.field.One(b);
    code.field.Zero(a);
    code.field.Zero(b);
    code.field.Zero(1);
  }

  /** On every parity shard of every code, `Nand` and `Nor` of lopsided data are wrong, even of a value with itself. */
  lemma NonLinearFails(code: Code, i: Sid, nor: bool)
    requires code.Valid() && K <= i < code.Total()
    ensures var d := Lopsided(code.shardLen);
      var op := if nor then Nor(d, d) else Nand(d, d);
      IsDataOp(code, op) && !Commutes(code, i, op)
  {
    var n := code.shardLen;
    var d := Lopsided(n);
    var op := if nor then Nor(d, d) else Nand(d, d);
    ParityRowNonZero(code, i);
    var (a, b) := code.rows[i];
    code.field.One(a);
    code.field.One(b);
    code.field.Zero(a);
    code.field.Zero(b);
    assert code.ShardOf(i, d)[0] == a;
    assert Calc(ShardOfOp(code, i, op))[0] == 0;
    assert |Calc(op)| == 2 * n;
    assert Calc(op)[0] == 0 && Calc(op)[n] == 1;
    assert code.ShardOf(i, Calc(op))[0] == b;
  }

  /** An operation computes correctly on shard `i` for all data exactly when that shard supports it. */
  lemma CommutesExactly(code: Code, i: Sid, op: Operation<Vid>)
    requires code.Valid() && i < code.Total()
    ensures (forall mem :: IsDataMemory(code, mem) && Fetch(op, mem).Some? ==>
        IsDataOp(code, Fetch(op, mem).value) && Commutes(code, i, Fetch(op, mem).value))
      <==> Supports(i, op)
  {
    if Supports(i, op) {
      forall mem | IsDataMemory(code, mem) && Fetch(op, mem).Some?
        ensures IsDataOp(code, Fetch(op, mem).value) && Commutes(code, i, Fetch(op, mem).value)
      {
        FetchEncoded(code, i, op, mem);
        SupportedCommutes(code, i, Fetch(op, mem).value);
      }
    } else {
      var d := Lopsided(code.shardLen);
      var mem: Memory := map[op.first := d, op.second := d];
      NonLinearFails(code, i, op.Nor?);
      assert IsDataMemory(code, mem);
      assert Fetch(op, mem) == Some(if op.Nor? then Nor(d, d) else Nand(d, d));
    }
  }
}
