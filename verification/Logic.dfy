/**
 What `Nand` and `Nor` are for (src/processor/mock.rs, src/processor/single_threaded.rs): every byte
 is a truth value, zero for false and anything else for true, and a program is a Boolean circuit
 that is evaluated at each byte position on its own.
 */
module Logic {
  import opened Types
  import opened Galois
  import opened Instructions
  import opened Processor

  // ---------- single operations ----------

  /** The truth tables, byte by byte. */
  lemma NandNorBytes(a: Bytes, b: Bytes, t: nat)
    requires |a| == |b| && t < |a|
    ensures |Calc(Nand(a, b))| == |Calc(Nor(a, b))| == |a|
    ensures Calc(Nand(a, b))[t] == if a[t] != 0 && b[t] != 0 then 0 else 1
    ensures Calc(Nor(a, b))[t] == if a[t] != 0 || b[t] != 0 then 0 else 1
  {
  }

  lemma LinearBytes(a: Bytes, b: Bytes, t: nat)
    requires |a| == |b| && t < |a|
    ensures |Calc(Plus(a, b))| == |Calc(Sub(a, b))| == |a|
    ensures Calc(Plus(a, b))[t] == a[t] ^ b[t] && Calc(Sub(a, b))[t] == a[t] ^ b[t]
    ensures Calc(Inv(a)) == a
  {
    assert Calc(Inv(a)) == a;
  }

  function All(value: Byte, n: nat): (r: Bytes)
    ensures |r| == n
  {
    seq(n, _ => value)
  }

  /** The truth values of `r` are those of `x` negated. */
  ghost predicate Negates(r: Bytes, x: Bytes) {
    |r| == |x| && forall t :: 0 <= t < |x| ==> r[t] == if x[t] == 0 then 1 else 0
  }

  /** With a constant: `Nand` with zeroes is all ones, `Nor` with zeroes negates, and the other way round with ones. */
  lemma WithConstants(x: Bytes)
    ensures var zeroes, ones := All(0, |x|), All(1, |x|);
      && Calc(Nand(x, zeroes)) == ones && Calc(Nand(zeroes, x)) == ones
      && Negates(Calc(Nor(x, zeroes)), x) && Negates(Calc(Nor(zeroes, x)), x)
      && Negates(Calc(Nand(x, ones)), x) && Negates(Calc(Nand(ones, x)), x)
      && Calc(Nor(x, ones)) == zeroes && Calc(Nor(ones, x)) == zeroes
  {
    var zeroes, ones := All(0, |x|), All(1, |x|);
    forall t | 0 <= t < |x|
      ensures Calc(Nand(x, zeroes))[t] == 1 && Calc(Nand(zeroes, x))[t] == 1
      ensures Calc(Nor(x, ones))[t] == 0 && Calc(Nor(ones, x))[t] == 0
    {
      NandNorBytes(x, zeroes, t);
      NandNorBytes(zeroes, x, t);
      NandNorBytes(x, ones, t);
      NandNorBytes(ones, x, t);
    }
    assert Calc(Nand(x, zeroes)) == ones && Calc(Nand(zeroes, x)) == ones;
    assert Calc(Nor(x, ones)) == zeroes && Calc(Nor(ones, x)) == zeroes;
  }

  // ---------- programs as circuits ----------

  /** The truth values at byte `t`. */
  function TruthAt(mem: Memory, t: nat): map<Vid, bool> {
    map id | id in mem :: Nth(mem[id], t) != 0
  }

  /** One gate; nothing happens if an input is missing. */
  function Gate(ins: Instruction, wires: map<Vid, bool>): map<Vid, bool> {
    match ins.operation
    case Nand(a, b) => if a in wires && b in wires then wires[ins.result := !(wires[a] && wires[b])] else wires
    case Nor(a, b) => if a in wires && b in wires then wires[ins.result := !(wires[a] || wires[b])] else wires
    case Inv(a) => if a in wires then wires[ins.result := wires[a]] else wires
    case Plus(a, b) => if a in wires && b in wires then wires[ins.result := wires[a] != wires[b]] else wires
    case Sub(a, b) => if a in wires && b in wires then wires[ins.result := wires[a] != wires[b]] else wires
  }

  function Circuit(program: Program, wires: map<Vid, bool>): map<Vid, bool> {
    if program == [] then wires else Circuit(program[1..], Gate(program[0], wires))
  }

  /** Values whose bytes are 0 and 1. */
  ghost predicate AreBits(mem: Memory) {
    forall id, t :: id in mem && 0 <= t < |mem[id]| ==> mem[id][t] == 0 || mem[id][t] == 1
  }

  predicate Logical(program: Program) {
    forall i :: 0 <= i < |program| ==> !program[i].operation.Plus? && !program[i].operation.Sub?
  }

  /** One instruction on memory. */
  function Done(ins: Instruction, mem: Memory): Memory {
    match Fetch(ins.operation, mem)
    case None => mem
    case Some(values) => mem[ins.result := Calc(values)]
  }

  lemma TruthUpdate(mem: Memory, id: Vid, value: Bytes, t: nat)
    ensures TruthAt(mem[id := value], t) == TruthAt(mem, t)[id := Nth(value, t) != 0]
  {
  }

  /** Two values through one gate. */
  lemma GateBytes(a: Bytes, b: Bytes, n: nat, t: nat)
    requires |a| == |b| == n && t < n
    ensures Nth(Calc(Nand(a, b)), t) != 0 <==> !(a[t] != 0 && b[t] != 0)
    ensures Nth(Calc(Nor(a, b)), t) != 0 <==> !(a[t] != 0 || b[t] != 0)
    ensures (a[t] == 0 || a[t] == 1) && (b[t] == 0 || b[t] == 1) ==>
      (Nth(Calc(Plus(a, b)), t) != 0 <==> (a[t] != 0) != (b[t] != 0)) &&
      (Nth(Calc(Sub(a, b)), t) != 0 <==> (a[t] != 0) != (b[t] != 0))
  {
    NandNorBytes(a, b, t);
    LinearBytes(a, b, t);
    if (a[t] == 0 || a[t] == 1) && (b[t] == 0 || b[t] == 1) {
      BitsDiffer(a[t], b[t]);
    }
  }

  lemma GateOf(ins: Instruction, mem: Memory, n: nat, t: nat)
    requires Sized(mem, n) && t < n
    requires (!ins.operation.Plus? && !ins.operation.Sub?) || AreBits(mem)
    ensures Sized(Done(ins, mem), n) && TruthAt(Done(ins, mem), t) == Gate(ins, TruthAt(mem, t))
  {
    var op := ins.operation;
    FetchDefined(op, mem);
    assert op.Args()[0] in op.Args();
    assert !op.Inv? ==> op.Args()[1] in op.Args();
    if Fetch(op, mem).Some? {
      FetchSized(op, mem, n);
      TruthUpdate(mem, ins.result, Calc(Fetch(op, mem).value), t);
      if op.Inv? {
        LinearBytes(mem[op.operand], mem[op.operand], t);
      } else {
        GateBytes(mem[op.first], mem[op.second], n, t);
      }
    }
  }

  lemma BitsDiffer(x: Byte, y: Byte)
    requires (x == 0 || x == 1) && (y == 0 || y == 1)
    ensures x ^ y == if x != y then 1 else 0
  {
  }

  lemma BitsStay(ins: Instruction, mem: Memory, n: nat)
    requires Sized(mem, n) && AreBits(mem)
    ensures Sized(Done(ins, mem), n) && AreBits(Done(ins, mem))
  {
    var op := ins.operation;
    FetchDefined(op, mem);
    assert op.Args()[0] in op.Args();
    assert !op.Inv? ==> op.Args()[1] in op.Args();
    forall t | 0 <= t < n && Fetch(op, mem).Some?
      ensures var r := Calc(Fetch(op, mem).value); |r| == n && (r[t] == 0 || r[t] == 1)
    {
      if op.Inv? {
        LinearBytes(mem[op.operand], mem[op.operand], t);
      } else {
        NandNorBytes(mem[op.first], mem[op.second], t);
        LinearBytes(mem[op.first], mem[op.second], t);
        BitsDiffer(mem[op.first][t], mem[op.second][t]);
      }
    }
    if Fetch(op, mem).Some? {
      FetchSized(op, mem, n);
    }
  }

  /**
   A program of `Nand`, `Nor` and copying, on any values, and a program of all five operations on
   values made of 0 and 1, leaves at every byte the truth values that its Boolean circuit gives,
   an instruction with a missing operand being a gate left out.
   */
  lemma {:induction false} CircuitOf(program: Program, mem: Memory, n: nat, t: nat)
    requires Sized(mem, n) && t < n && (Logical(program) || AreBits(mem))
    ensures TruthAt(DirectRun(program, mem).memory, t) == Circuit(program, TruthAt(mem, t))
    ensures AreBits(mem) ==> AreBits(DirectRun(program, mem).memory)
    decreases program
  {
    if program != [] {
      var ins := program[0];
      GateOf(ins, mem, n, t);
      if AreBits(mem) {
        BitsStay(ins, mem, n);
      }
      assert DirectRun(program, mem).memory == DirectRun(program[1..], Done(ins, mem)).memory;
      CircuitOf(program[1..], Done(ins, mem), n, t);
    }
  }

  /** So does the mock, when every operand is there. */
  lemma MockCircuitOf(program: Program, mem: Memory, n: nat, t: nat)
    requires Sized(mem, n) && t < n && (Logical(program) || AreBits(mem)) && Defined(program, mem.Keys)
    ensures TruthAt(MockExecuted(program, mem).storage, t) == Circuit(program, TruthAt(mem, t))
  {
    MockAgainstDirect(program, mem);
    CircuitOf(program, mem, n, t);
  }

  /** Values that are nowhere both true and nowhere both false: `Nand` gives all ones and `Nor` all zeroes. */
  lemma Complementary(x: Bytes, y: Bytes)
    requires |x| == |y| && forall t :: 0 <= t < |x| ==> (x[t] == 0 <==> y[t] != 0)
    ensures Calc(Nand(x, y)) == All(1, |x|) && Calc(Nor(x, y)) == All(0, |x|)
  {
    forall t | 0 <= t < |x|
      ensures Calc(Nand(x, y))[t] == 1 && Calc(Nor(x, y))[t] == 0
    {
      NandNorBytes(x, y, t);
    }
    assert Calc(Nand(x, y)) == All(1, |x|) && Calc(Nor(x, y)) == All(0, |x|);
  }

  const CHECK: Program := [Instruction(Nand(1, 2), 3), Instruction(Nor(1, 2), 4)]

  /** The repository's own check of both operations, for all such values. */
  lemma ShefferPeirceCheck(mem: Memory)
    requires 1 in mem && 2 in mem && |mem[1]| == |mem[2]|
    requires forall t :: 0 <= t < |mem[1]| ==> (mem[1][t] == 0 <==> mem[2][t] != 0)
    ensures MockExecuted(CHECK, mem) ==
      MockRun(mem[3 := All(1, |mem[1]|)][4 := All(0, |mem[1]|)], Ok(()))
  {
    Complementary(mem[1], mem[2]);
    var next := mem[3 := All(1, |mem[1]|)];
    assert Fetch(CHECK[0].operation, mem) == Some(Nand(mem[1], mem[2]));
    assert Fetch(CHECK[1].operation, next) == Some(Nor(mem[1], mem[2]));
    assert CHECK[1..] == [CHECK[1]] && CHECK[1..][1..] == [];
    assert MockExecuted(CHECK, mem) == MockExecuted(CHECK[1..], next);
  }
}
