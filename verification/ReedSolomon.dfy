/**
 The wrapper around the erasure-coding library (src/encoding/reed_solomon.rs) over a
 systematic linear code with two data shards.  The library itself is modelled: row `i` of
 a matrix gives shard `i`, the first two rows are the unit rows, and any two rows are
 linearly independent.  Reconstruction is then not assumed but solved by Cramer's rule.
 */
module ReedSolomon {
  import opened Types
  import opened Galois

  datatype Error = TooFewShardsPresent | IncorrectShardSize | WrongShardId

  /** `shardLen` is `SHARD_BYTES_NUMBER`; `rows` has one entry for each of the `data_shards_total` shards. */
  datatype Code = Code(field: Field, rows: seq<(Byte, Byte)>, shardLen: nat) {
    function Total(): nat { |rows| }

    function Det(i: Sid, j: Sid): Byte
      requires i < Total() && j < Total()
    {
      Add(field.mul(rows[i].0, rows[j].1), field.mul(rows[j].0, rows[i].1))
    }

    ghost predicate Independent() {
      forall i: Sid, j: Sid :: i < j < Total() ==> Det(i, j) != 0
    }

    ghost predicate Valid() {
      && field.Valid()
      && 0 < shardLen
      && K <= Total()
      && rows[0] == (1, 0)
      && rows[1] == (0, 1)
      && Independent()
    }

    predicate IsShard(s: Bytes) { |s| == shardLen }

    predicate IsData(d: Bytes) { |d| == K * shardLen }

    function RowByte(i: Sid, x: Byte, y: Byte): Byte
      requires i < Total()
    {
      Add(field.mul(rows[i].0, x), field.mul(rows[i].1, y))
    }

    /** Shard `i` of the code word whose data shards are `x` and `y`. */
    function RowShard(i: Sid, x: Bytes, y: Bytes): (s: Bytes)
      requires i < Total() && IsShard(x) && IsShard(y)
      ensures IsShard(s)
    {
      seq(shardLen, t requires 0 <= t < shardLen => RowByte(i, x[t], y[t]))
    }

    /** Shard `i` of the encoding of `d`. */
    function ShardOf(i: Sid, d: Bytes): (s: Bytes)
      requires i < Total() && IsData(d)
      ensures IsShard(s)
    {
      RowShard(i, d[..shardLen], d[shardLen..])
    }

    /** Cramer's rule for the data bytes behind byte `u` of row `i` and byte `v` of row `j`. */
    function SolveFirst(i: Sid, u: Byte, j: Sid, v: Byte): Byte
      requires i < Total() && j < Total()
    {
      field.mul(field.inv(Det(i, j)), Add(field.mul(rows[j].1, u), field.mul(rows[i].1, v)))
    }

    function SolveSecond(i: Sid, u: Byte, j: Sid, v: Byte): Byte
      requires i < Total() && j < Total()
    {
      field.mul(field.inv(Det(i, j)), Add(field.mul(rows[j].0, u), field.mul(rows[i].0, v)))
    }

    lemma Expand(p: Byte, a: Byte, x: Byte, b: Byte, y: Byte)
      requires field.Valid()
      ensures field.mul(p, Add(field.mul(a, x), field.mul(b, y)))
           == Add(field.mul(field.mul(p, a), x), field.mul(field.mul(p, b), y))
    {
      field.Distr(p, field.mul(a, x), field.mul(b, y));
      field.Assoc(p, a, x);
      field.Assoc(p, b, y);
    }

    /** Two linear combinations of the same pair, eliminated: p(ax+by) + q(cx+ey) with pb == qe. */
    lemma Eliminate(p: Byte, a: Byte, b: Byte, q: Byte, c: Byte, e: Byte, x: Byte, y: Byte)
      requires field.Valid() && field.mul(p, b) == field.mul(q, e)
      ensures Add(field.mul(p, Add(field.mul(a, x), field.mul(b, y))), field.mul(q, Add(field.mul(c, x), field.mul(e, y))))
           == field.mul(Add(field.mul(p, a), field.mul(q, c)), x)
    {
      Expand(p, a, x, b, y);
      Expand(q, c, x, e, y);
      field.Distr(x, field.mul(p, a), field.mul(q, c));
      AddCancel(field.mul(field.mul(p, a), x), field.mul(field.mul(q, c), x), field.mul(field.mul(p, b), y));
    }

    /** Solving the combinations ax+by and cx+ey for x, where the determinant ae+cb is not zero. */
    lemma SolveFor(a: Byte, b: Byte, c: Byte, e: Byte, x: Byte, y: Byte)
      requires field.Valid() && Add(field.mul(a, e), field.mul(c, b)) != 0
      ensures field.mul(field.inv(Add(field.mul(a, e), field.mul(c, b))),
                        Add(field.mul(e, Add(field.mul(a, x), field.mul(b, y))), field.mul(b, Add(field.mul(c, x), field.mul(e, y)))))
           == x
    {
      field.Comm(e, b);
      Eliminate(e, a, b, b, c, e, x, y);
      field.Comm(a, e);
      field.Comm(b, c);
      field.Cancel(Add(field.mul(a, e), field.mul(c, b)), x);
    }

    lemma DetSwap(i: Sid, j: Sid)
      requires field.Valid() && i < Total() && j < Total()
      ensures Det(i, j) == Add(field.mul(rows[i].1, rows[j].0), field.mul(rows[j].1, rows[i].0))
    {
      field.Comm(rows[i].1, rows[j].0);
      field.Comm(rows[j].1, rows[i].0);
      AddComm(field.mul(rows[i].0, rows[j].1), field.mul(rows[j].0, rows[i].1));
    }

    /** Solving two rows of one code word gives back its data bytes. */
    lemma SolveRows(i: Sid, j: Sid, x: Byte, y: Byte)
      requires field.Valid() && i < Total() && j < Total() && Det(i, j) != 0
      ensures SolveFirst(i, RowByte(i, x, y), j, RowByte(j, x, y)) == x
      ensures SolveSecond(i, RowByte(i, x, y), j, RowByte(j, x, y)) == y
    {
      SolveFor(rows[i].0, rows[i].1, rows[j].0, rows[j].1, x, y);
      DetSwap(i, j);
      AddComm(field.mul(rows[i].0, x), field.mul(rows[i].1, y));
      AddComm(field.mul(rows[j].0, x), field.mul(rows[j].1, y));
      SolveFor(rows[i].1, rows[i].0, rows[j].1, rows[j].0, y, x);
    }

    lemma SolvedFor(a: Byte, b: Byte, c: Byte, e: Byte, u: Byte, v: Byte)
      requires field.Valid() && Add(field.mul(a, e), field.mul(c, b)) != 0
      ensures Add(field.mul(a, field.mul(field.inv(Add(field.mul(a, e), field.mul(c, b))), Add(field.mul(e, u), field.mul(b, v)))),
                  field.mul(b, field.mul(field.inv(Add(field.mul(a, e), field.mul(c, b))), Add(field.mul(c, u), field.mul(a, v)))))
           == u
    {
      Apply(field.inv(Add(field.mul(a, e), field.mul(c, b))), a, b,
            Add(field.mul(e, u), field.mul(b, v)), Add(field.mul(c, u), field.mul(a, v)));
      field.Comm(a, e);
      SolveFor(e, b, c, a, u, v);
    }

    /** The solution of any two independent rows satisfies both of them. */
    lemma RowsSolved(i: Sid, u: Byte, j: Sid, v: Byte)
      requires field.Valid() && i < Total() && j < Total() && Det(i, j) != 0
      ensures RowByte(i, SolveFirst(i, u, j, v), SolveSecond(i, u, j, v)) == u
      ensures RowByte(j, SolveFirst(i, u, j, v), SolveSecond(i, u, j, v)) == v
    {
      SolvedFor(rows[i].0, rows[i].1, rows[j].0, rows[j].1, u, v);
      AddComm(field.mul(rows[i].0, rows[j].1), field.mul(rows[j].0, rows[i].1));
      AddComm(field.mul(rows[j].1, u), field.mul(rows[i].1, v));
      AddComm(field.mul(rows[j].0, u), field.mul(rows[i].0, v));
      SolvedFor(rows[j].0, rows[j].1, rows[i].0, rows[i].1, v, u);
    }

    /** A row applied to a scaled pair. */
    lemma Apply(d: Byte, a: Byte, b: Byte, p: Byte, q: Byte)
      requires field.Valid()
      ensures Add(field.mul(a, field.mul(d, p)), field.mul(b, field.mul(d, q)))
           == field.mul(d, Add(field.mul(a, p), field.mul(b, q)))
    {
      Expand(d, a, p, b, q);
      field.Assoc(a, d, p);
      field.Assoc(b, d, q);
      field.Comm(a, d);
      field.Comm(b, d);
    }

    /** The first two shards are the data itself. */
    lemma Systematic(x: Bytes, y: Bytes)
      requires Valid() && IsShard(x) && IsShard(y)
      ensures RowShard(0, x, y) == x && RowShard(1, x, y) == y
    {
      forall t | 0 <= t < shardLen
        ensures RowByte(0, x[t], y[t]) == x[t] && RowByte(1, x[t], y[t]) == y[t]
      {
        field.One(x[t]);
        field.One(y[t]);
        field.Zero(x[t]);
        field.Zero(y[t]);
      }
    }

    // ---------- encoding ----------

    function Encoded(d: Bytes): (m: map<Sid, Bytes>)
      requires IsData(d)
    {
      map i: Sid | 0 <= i < Total() :: ShardOf(i, d)
    }

    // ---------- decoding ----------

    predicate AreShards(m: map<Sid, Bytes>) {
      forall i :: i in m ==> IsShard(m[i])
    }

    predicate ValidIds(m: map<Sid, Bytes>) {
      forall i :: i in m ==> i < Total()
    }

    function Slots(m: map<Sid, Bytes>): (slots: seq<Option<Bytes>>)
      ensures |slots| == Total()
      ensures AreShards(m) ==> AreSlots(slots)
    {
      seq(Total(), i requires 0 <= i < Total() => if i in m then Some(m[i]) else None)
    }

    predicate AreSlots(slots: seq<Option<Bytes>>) {
      |slots| == Total() && forall i :: 0 <= i < |slots| && slots[i].Some? ==> IsShard(slots[i].value)
    }

    function Solve(p: Sid, u: Bytes, q: Sid, v: Bytes): (xy: (Bytes, Bytes))
      requires p < Total() && q < Total() && IsShard(u) && IsShard(v)
      ensures IsShard(xy.0) && IsShard(xy.1)
    {
      (seq(shardLen, t requires 0 <= t < shardLen => SolveFirst(p, u[t], q, v[t])),
       seq(shardLen, t requires 0 <= t < shardLen => SolveSecond(p, u[t], q, v[t])))
    }

    /** The library's `reconstruct`: solve the first two present rows, then fill every gap. */
    function Reconstruct(slots: seq<Option<Bytes>>): (r: Result<seq<Bytes>, Error>)
      requires AreSlots(slots)
      ensures r.Ok? ==> |r.value| == Total() && forall i :: 0 <= i < Total() ==> IsShard(r.value[i])
    {
      var p := FirstPresent(slots, 0);
      var q := if p < |slots| then FirstPresent(slots, p + 1) else p;
      if q == |slots| then
        Err(TooFewShardsPresent)
      else
        var (x, y) := Solve(p, slots[p].value, q, slots[q].value);
        Ok(seq(Total(), i requires 0 <= i < Total() => if slots[i].Some? then slots[i].value else RowShard(i, x, y)))
    }

    /** What `decode` returns, whatever order the map is read in.  The types rule out a wrong shard size. */
    function Decoded(m: map<Sid, Bytes>): (r: Result<Bytes, Error>)
      requires K <= Total()
      ensures r.Ok? ==> IsData(r.value)
    {
      if !ValidIds(m) then
        Err(WrongShardId)
      else if !AreShards(m) then
        Err(IncorrectShardSize)
      else
        match Reconstruct(Slots(m))
        case Err(e) => Err(e)
        case Ok(word) => Ok(word[0] + word[1])
    }

    /** The word rebuilt from any two or more shards of an encoding is that encoding. */
    lemma ReconstructEncoding(m: map<Sid, Bytes>, d: Bytes)
      requires Valid() && IsData(d) && AreShards(m) && ValidIds(m) && K <= |m|
      requires forall i :: i in m ==> m[i] == ShardOf(i, d)
      ensures Reconstruct(Slots(m)).Ok?
      ensures forall i :: 0 <= i < Total() ==> Reconstruct(Slots(m)).value[i] == ShardOf(i, d)
    {
      var slots := Slots(m);
      var p := FirstPresent(slots, 0);
      TwoPresent(m);
      var q := FirstPresent(slots, p + 1);
      SolveShards(p, q, d);
    }

    /** Solving any two shards of an encoding gives both halves of the data. */
    lemma SolveShards(p: Sid, q: Sid, d: Bytes)
      requires Valid() && IsData(d) && p < q < Total()
      ensures Solve(p, ShardOf(p, d), q, ShardOf(q, d)) == (d[..shardLen], d[shardLen..])
    {
      var (x, y) := Solve(p, ShardOf(p, d), q, ShardOf(q, d));
      forall t | 0 <= t < shardLen
        ensures x[t] == d[t] && y[t] == d[shardLen + t]
      {
        SolveRows(p, q, d[t], d[shardLen + t]);
      }
      assert x == d[..shardLen];
      assert y == d[shardLen..];
    }

    lemma TwoPresent(m: map<Sid, Bytes>)
      requires ValidIds(m)
      ensures var p := FirstPresent(Slots(m), 0);
              (K <= |m| <==> p < Total() && FirstPresent(Slots(m), p + 1) < Total())
    {
      var slots := Slots(m);
      var p := FirstPresent(slots, 0);
      assert forall i :: i in m ==> slots[i].Some?;
      if p == Total() {
        assert m.Keys == {};
      } else {
        var q := FirstPresent(Slots(m), p + 1);
        if q == Total() {
          assert m.Keys == {p};
        } else {
          assert {p, q} <= m.Keys;
          SubsetSize({p, q}, m.Keys);
        }
      }
    }

    /** Any two or more shards of an encoding, whatever their ids, decode to the encoded data. */
    lemma RoundTrip(d: Bytes, ids: set<Sid>)
      requires Valid() && IsData(d)
      requires (forall i :: i in ids ==> i < Total()) && K <= |ids|
      ensures Decoded(map i | i in ids :: Encoded(d)[i]) == Ok(d)
    {
      var m := map i | i in ids :: Encoded(d)[i];
      assert m.Keys == ids;
      DecodeConsistent(m, d);
    }

    lemma DecodeConsistent(m: map<Sid, Bytes>, d: Bytes)
      requires Valid() && IsData(d) && AreShards(m) && ValidIds(m) && K <= |m|
      requires forall i :: i in m ==> m[i] == ShardOf(i, d)
      ensures Decoded(m) == Ok(d)
    {
      ReconstructEncoding(m, d);
      Systematic(d[..shardLen], d[shardLen..]);
      assert d == d[..shardLen] + d[shardLen..];
    }

    /** `decode` fails exactly on an id outside the code or on fewer than two shards. */
    lemma DecodeFails(m: map<Sid, Bytes>)
      requires Valid()
      ensures Decoded(m).Ok? <==> ValidIds(m) && AreShards(m) && K <= |m|
      ensures Decoded(m) == Err(WrongShardId) <==> !ValidIds(m)
      ensures Decoded(m) == Err(IncorrectShardSize) <==> ValidIds(m) && !AreShards(m)
      ensures Decoded(m) == Err(TooFewShardsPresent) <==> ValidIds(m) && AreShards(m) && |m| < K
    {
      if ValidIds(m) {
        TwoPresent(m);
      }
    }

    /** Any two shards are the shards of the data they decode to. */
    lemma DecodeThenEncode(m: map<Sid, Bytes>)
      requires Valid() && AreShards(m) && ValidIds(m) && |m| == K
      ensures Decoded(m).Ok?
      ensures forall i :: i in m ==> ShardOf(i, Decoded(m).value) == m[i]
    {
      TwoPresent(m);
      var slots := Slots(m);
      var p := FirstPresent(slots, 0);
      var q := FirstPresent(slots, p + 1);
      assert {p, q} <= m.Keys;
      SubsetSize({p, q}, m.Keys);
      assert m.Keys == {p, q} by {
        SubsetEqual({p, q}, m.Keys);
      }
      var u, v := m[p], m[q];
      var (x, y) := Solve(p, u, q, v);
      forall t | 0 <= t < shardLen
        ensures RowByte(p, x[t], y[t]) == u[t] && RowByte(q, x[t], y[t]) == v[t]
      {
        RowsSolved(p, u[t], q, v[t]);
      }
      assert RowShard(p, x, y) == u && RowShard(q, x, y) == v;
      Systematic(x, y);
      var d := Decoded(m).value;
      assert d[..shardLen] == x && d[shardLen..] == y;
    }

    /** Two shards decode to `d` exactly when each of them is that shard of `d`. */
    lemma DecodesToIff(m: map<Sid, Bytes>, d: Bytes)
      requires Valid() && IsData(d) && |m| == K
      ensures Decoded(m) == Ok(d) <==> ValidIds(m) && forall i :: i in m ==> m[i] == ShardOf(i, d)
    {
      DecodeFails(m);
      if Decoded(m) == Ok(d) {
        DecodeThenEncode(m);
      } else if ValidIds(m) && forall i :: i in m ==> m[i] == ShardOf(i, d) {
        DecodeConsistent(m, d);
      }
    }
  }

  function FirstPresent(slots: seq<Option<Bytes>>, start: nat): (p: nat)
    requires start <= |slots|
    ensures start <= p <= |slots|
    ensures p < |slots| ==> slots[p].Some?
    ensures forall i :: start <= i < p ==> slots[i].None?
    decreases |slots| - start
  {
    if start == |slots| || slots[start].Some? then start else FirstPresent(slots, start + 1)
  }

  lemma SubsetSize<T>(a: set<T>, b: set<T>)
    requires a <= b
    ensures |a| <= |b|
  {
    assert b == a + (b - a);
  }

  lemma SubsetEqual<T>(a: set<T>, b: set<T>)
    requires a <= b && |a| == |b|
    ensures a == b
  {
    assert b == a + (b - a);
  }

  /** `encode`: split into chunks, append zeroed parity shards, let the library fill them in place. */
  method Encode(code: Code, data: Bytes) returns (m: map<Sid, Bytes>)
    requires code.Valid() && code.IsData(data)
    ensures m == code.Encoded(data)
  {
    var n := code.shardLen;
    var shards: seq<Bytes> := [];
    var i := 0;
    while i < |data|
      invariant i == 0 || i == n || i == 2 * n
      invariant shards == if i == 0 then [] else if i == n then [data[..n]] else [data[..n], data[n..]]
      decreases |data| - i
    {
      shards := shards + [data[i..i + n]];
      i := i + n;
      assert data[0..n] == data[..n] && data[n..2 * n] == data[n..];
    }
    var parity := seq(n, _ => 0 as Byte);
    shards := shards + seq(code.Total() - K, _ => parity);
    code.Systematic(data[..n], data[n..]);
    for p := K to code.Total()
      invariant |shards| == code.Total()
      invariant shards[0] == data[..n] && shards[1] == data[n..]
      invariant forall i :: 0 <= i < p ==> shards[i] == code.ShardOf(i, data)
    {
      shards := shards[p := code.RowShard(p, shards[0], shards[1])];
    }
    m := map i: Sid | 0 <= i < |shards| :: shards[i];
  }

  /** `decode`: place the shards by id, let the library rebuild the word, flatten the data part. */
  method Decode(code: Code, shards: map<Sid, Bytes>) returns (r: Result<Bytes, Error>)
    requires code.Valid()
    ensures r == code.Decoded(shards)
  {
    var slots := new Option<Bytes>[code.Total()](_ => None);
    var left := shards.Keys;
    while left != {}
      invariant left <= shards.Keys
      invariant forall i :: i in shards && i !in left ==> i < code.Total()
      invariant forall i :: 0 <= i < slots.Length ==>
        slots[i] == if i in shards && i !in left then Some(shards[i]) else None
      decreases |left|
    {
      var index :| index in left;
      left := left - {index};
      if slots.Length <= index {
        return Err(WrongShardId);
      }
      slots[index] := Some(shards[index]);
    }
    assert slots[..] == code.Slots(shards);
    if !code.AreShards(shards) {
      return Err(IncorrectShardSize);
    }
    match code.Reconstruct(slots[..]) {
      case Err(e) => r := Err(e);
      case Ok(word) => r := Ok(word[0] + word[1]);
    }
  }

  // ---------- the library's matrix ----------

  /** Rows of the Vandermonde matrix over `points`, normalised so that its top square is the unit matrix. */
  function VandermondeRows(points: seq<Byte>): seq<(Byte, Byte)> {
    seq(|points|, i requires 0 <= i < |points| => (Add(1, points[i]), points[i]))
  }

  /** Such a matrix over GF(2^8) with distinct evaluation points 0, 1, ... gives a valid code. */
  lemma VandermondeCode(points: seq<Byte>, shardLen: nat)
    requires 0 < shardLen && K <= |points| && points[0] == 0 && points[1] == 1
    requires forall i, j :: 0 <= i < j < |points| ==> points[i] != points[j]
    ensures Code(GF256, VandermondeRows(points), shardLen).Valid()
  {
    GF256IsField();
    var code := Code(GF256, VandermondeRows(points), shardLen);
    forall i: Sid, j: Sid | i < j < code.Total()
      ensures code.Det(i, j) != 0
    {
      VandermondeDet(code, points[i], points[j]);
    }
  }

  lemma VandermondeDet(code: Code, p: Byte, q: Byte)
    requires code.field.Valid() && p != q
    ensures Add(code.field.mul(Add(1, p), q), code.field.mul(Add(1, q), p)) != 0
  {
    var f := code.field;
    f.Distr(q, 1, p);
    f.Distr(p, 1, q);
    f.One(p);
    f.One(q);
    f.Comm(p, q);
    AddCancel(q, p, f.mul(p, q));
  }
}
