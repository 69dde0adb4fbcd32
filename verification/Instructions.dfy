/** Operations and instructions (src/processor/instruction.rs) and what one operation computes. */
module Instructions {
  import opened Types
  import opened Galois

  datatype Operation<+T> =
    | Sub(first: T, second: T)
    | Plus(first: T, second: T)
    | Inv(operand: T)
    | Nand(first: T, second: T)
    | Nor(first: T, second: T)
  {
    /** `args_as_list` */
    function Args(): seq<T> {
      if Inv? then [operand] else [first, second]
    }

    /** The operations that are linear over the field. */
    predicate Linear() {
      Sub? || Plus? || Inv?
    }
  }

  datatype Instruction = Instruction(operation: Operation<Vid>, result: Vid)

  type Program = seq<Instruction>

  function MapOperands<T, U>(op: Operation<T>, f: T -> U): Operation<U> {
    match op
    case Sub(a, b) => Sub(f(a), f(b))
    case Plus(a, b) => Plus(f(a), f(b))
    case Inv(a) => Inv(f(a))
    case Nand(a, b) => Nand(f(a), f(b))
    case Nor(a, b) => Nor(f(a), f(b))
  }

  function Transpose<T>(op: Operation<Option<T>>): Option<Operation<T>> {
    match op
    case Sub(Some(a), Some(b)) => Some(Sub(a, b))
    case Plus(Some(a), Some(b)) => Some(Plus(a, b))
    case Inv(Some(a)) => Some(Inv(a))
    case Nand(Some(a), Some(b)) => Some(Nand(a, b))
    case Nor(Some(a), Some(b)) => Some(Nor(a, b))
    case _ => None
  }

  predicate IsLinear(program: Program) {
    forall i :: 0 <= i < |program| ==> program[i].operation.Linear()
  }

  /** The ids a program assigns to. */
  function ResultIds(program: Program): set<Vid> {
    if program == [] then {} else ResultIds(program[..|program| - 1]) + {program[|program| - 1].result}
  }

  lemma {:induction false} ResultIdsFirst(program: Program)
    requires program != []
    ensures ResultIds(program) == {program[0].result} + ResultIds(program[1..])
  {
    if |program| > 1 {
      ResultIdsFirst(program[..|program| - 1]);
      assert program[1..][..|program| - 2] == program[..|program| - 1][1..];
    }
  }

  /** Two small programs: a value added to itself, and a value copied. */
  const DOUBLING: Program := [Instruction(Plus(0, 0), 0)]
  const COPYING: Program := [Instruction(Inv(0), 1)]

  // ---------- one operation ----------

  function NandByte(a: Byte, b: Byte): Byte { if a == 0 || b == 0 then 1 else 0 }

  function NorByte(a: Byte, b: Byte): Byte { if a == 0 && b == 0 then 1 else 0 }

  /** Byte arrays of one program all have the same length, so the default is never met there. */
  function Nth(s: Bytes, t: nat): Byte {
    if t < |s| then s[t] else 0
  }

  function CalcByte(op: Operation<Bytes>, t: nat): Byte {
    match op
    case Sub(a, b) => Add(Nth(a, t), Nth(b, t))
    case Plus(a, b) => Add(Nth(a, t), Nth(b, t))
    case Inv(a) => Nth(a, t)
    case Nand(a, b) => NandByte(Nth(a, t), Nth(b, t))
    case Nor(a, b) => NorByte(Nth(a, t), Nth(b, t))
  }

  /** The value both processors compute, byte by byte. */
  function Calc(op: Operation<Bytes>): Bytes {
    seq(|op.Args()[0]|, t requires 0 <= t < |op.Args()[0]| => CalcByte(op, t))
  }

  predicate SameLength(op: Operation<Bytes>) {
    op.Inv? || |op.first| == |op.second|
  }

  /** `map_zip`: both processors declare the same helper. */
  method MapZip(a: Bytes, b: Bytes, f: (Byte, Byte) -> Byte) returns (r: Bytes)
    requires |a| == |b|
    ensures |r| == |a|
    ensures forall t :: 0 <= t < |r| ==> r[t] == f(a[t], b[t])
  {
    var result := new Byte[|a|](i requires 0 <= i < |a| => a[i]);
    for i := 0 to result.Length
      invariant forall t :: 0 <= t < i ==> result[t] == f(a[t], b[t])
      invariant forall t :: i <= t < |a| ==> result[t] == a[t]
    {
      result[i] := f(result[i], b[i]);
    }
    r := result[..];
  }

  // ---------- memory seen as one value per data id ----------

  type Memory = map<Vid, Bytes>

  function Fetch(op: Operation<Vid>, mem: Memory): Option<Operation<Bytes>> {
    Transpose(MapOperands(op, id => Lookup(mem, id)))
  }

  ghost predicate Sized(mem: Memory, n: nat) {
    forall id :: id in mem ==> |mem[id]| == n
  }

  /** Fetching succeeds exactly when every operand is present. */
  lemma FetchDefined(op: Operation<Vid>, mem: Memory)
    ensures Fetch(op, mem).Some? <==> forall id :: id in op.Args() ==> id in mem
    ensures Fetch(op, mem).Some? ==> Fetch(op, mem).value == MapOperands(op, id => if id in mem then mem[id] else [])
  {
    assert op.Args()[0] in op.Args();
    if !op.Inv? {
      assert op.Args()[1] in op.Args();
    }
  }

  lemma FetchSized(op: Operation<Vid>, mem: Memory, n: nat)
    requires Sized(mem, n) && Fetch(op, mem).Some?
    ensures var v := Fetch(op, mem).value; SameLength(v) && |Calc(v)| == n
  {}
}
