/**
 The arithmetic behind `reed_solomon_erasure::galois_8`.  The coding theorems hold over any
 field structure on bytes whose addition is XOR; the second half of the module shows that
 the field the library names, GF(2^8) generated by 2 modulo x^8 + x^4 + x^3 + x^2 + 1,
 is such a structure.
 */
module Galois {
  import opened Types

  /** `galois_8::add`, used for both `Plus` and `Sub`. */
  function Add(a: Byte, b: Byte): Byte { a ^ b }

  lemma AddComm(x: Byte, y: Byte)
    ensures Add(x, y) == Add(y, x)
  {
  }

  lemma AddCancel(x: Byte, y: Byte, z: Byte)
    ensures Add(Add(x, z), Add(y, z)) == Add(x, y)
  {
  }

  lemma AddZero(x: Byte)
    ensures Add(x, 0) == x && Add(0, x) == x && Add(x, x) == 0
  {
  }

  lemma AddSwap(x: Byte, x': Byte, y: Byte, y': Byte)
    ensures Add(Add(x, x'), Add(y, y')) == Add(Add(x, y), Add(x', y'))
  {
    assert (x ^ x') ^ (y ^ y') == (x ^ y) ^ (x' ^ y');
  }

  /** Names an instance of a law; the laws below fire only where it is mentioned. */
  predicate At(a: Byte, b: Byte, c: Byte) { true }

  datatype Field = Field(mul: (Byte, Byte) -> Byte, inv: Byte -> Byte) {
    ghost predicate Commutative() {
      forall a, b, c {:trigger At(a, b, c)} :: At(a, b, c) ==> mul(a, b) == mul(b, a)
    }

    ghost predicate Associative() {
      forall a, b, c {:trigger At(a, b, c)} :: At(a, b, c) ==> mul(mul(a, b), c) == mul(a, mul(b, c))
    }

    ghost predicate Distributive() {
      forall a, b, c {:trigger At(a, b, c)} :: At(a, b, c) ==> mul(a, Add(b, c)) == Add(mul(a, b), mul(a, c))
    }

    ghost predicate HasOne() {
      forall a, b, c {:trigger At(a, b, c)} :: At(a, b, c) ==> mul(1, a) == a
    }

    ghost predicate HasInverses() {
      forall a, b, c {:trigger At(a, b, c)} :: At(a, b, c) && a != 0 ==> mul(inv(a), a) == 1
    }

    /** The field laws; those of the additive group are the laws of XOR. */
    ghost predicate Valid() {
      Commutative() && Associative() && Distributive() && HasOne() && HasInverses()
    }

    lemma Comm(a: Byte, b: Byte)
      requires Valid()
      ensures mul(a, b) == mul(b, a)
    {
      assert At(a, b, 0);
    }

    lemma Assoc(a: Byte, b: Byte, c: Byte)
      requires Valid()
      ensures mul(mul(a, b), c) == mul(a, mul(b, c))
    {
      assert At(a, b, c);
    }

    lemma Distr(a: Byte, b: Byte, c: Byte)
      requires Valid()
      ensures mul(a, Add(b, c)) == Add(mul(a, b), mul(a, c))
      ensures mul(Add(b, c), a) == Add(mul(b, a), mul(c, a))
    {
      assert At(a, b, c);
      Comm(a, b);
      Comm(a, c);
      Comm(a, Add(b, c));
    }

    lemma Zero(a: Byte)
      requires Valid()
      ensures mul(a, 0) == 0 && mul(0, a) == 0
    {
      Distr(a, 0, 0);
      assert Add(0, 0) == 0;
    }

    lemma One(a: Byte)
      requires Valid()
      ensures mul(a, 1) == a && mul(1, a) == a
    {
      assert At(a, 1, 0);
    }

    /** Dividing by a nonzero factor. */
    lemma Cancel(d: Byte, x: Byte)
      requires Valid() && d != 0
      ensures mul(inv(d), mul(d, x)) == x
    {
      assert At(d, 0, 0);
      Assoc(inv(d), d, x);
      One(x);
    }
  }

  // ---------- GF(2^8) ----------

  /** Multiplication by the generator 2, reduced modulo 0x11D. */
  function Double(b: Byte): Byte {
    var h := b >> 7;
    (b << 1) ^ h ^ (h << 2) ^ (h << 3) ^ (h << 4)
  }

  function Doubled(n: nat, b: Byte): Byte {
    if n == 0 then b else Double(Doubled(n - 1, b))
  }

  lemma DoubleAdd(b: Byte, c: Byte)
    ensures Double(Add(b, c)) == Add(Double(b), Double(c))
  {}

  lemma {:induction false} DoubledAdd(n: nat, b: Byte, c: Byte)
    ensures Doubled(n, Add(b, c)) == Add(Doubled(n, b), Doubled(n, c))
  {
    if n > 0 {
      DoubledAdd(n - 1, b, c);
      DoubleAdd(Doubled(n - 1, b), Doubled(n - 1, c));
    }
  }

  lemma {:induction false} DoubledPlus(m: nat, n: nat, b: Byte)
    ensures Doubled(m + n, b) == Doubled(m, Doubled(n, b))
  {
    if m > 0 {
      DoubledPlus(m - 1, n, b);
    }
  }

  lemma {:induction false} DoubledZero(n: nat)
    ensures Doubled(n, 0) == 0
  {
    if n > 0 {
      DoubledZero(n - 1);
    }
  }

  /** The 15 nonzero elements of the subfield GF(2^4). */
  predicate InSubfield(x: Byte) {
    || x == 0x01
    || x == 0x98
    || x == 0x4E
    || x == 0x0A
    || x == 0x99
    || x == 0xD6
    || x == 0x44
    || x == 0x93
    || x == 0x4F
    || x == 0x92
    || x == 0xD7
    || x == 0xDC
    || x == 0xDD
    || x == 0x45
    || x == 0x0B
  }

  /** Within 16 doublings, a nonzero byte reaches the subfield. */
  predicate Reaches(a: Byte, n: nat)
    decreases n
  {
    InSubfield(a) || (n > 0 && Reaches(Double(a), n - 1))
  }

  lemma ReachesSubfield(a: Byte)
    requires a != 0
    ensures Reaches(a, 16)
  {
    var a1 := Double(a);
    var a2 := Double(a1);
    var a3 := Double(a2);
    var a4 := Double(a3);
    var a5 := Double(a4);
    var a6 := Double(a5);
    var a7 := Double(a6);
    var a8 := Double(a7);
    var a9 := Double(a8);
    var a10 := Double(a9);
    var a11 := Double(a10);
    var a12 := Double(a11);
    var a13 := Double(a12);
    var a14 := Double(a13);
    var a15 := Double(a14);
    var a16 := Double(a15);
    assert
      || InSubfield(a) || InSubfield(a1) || InSubfield(a2) || InSubfield(a3) || InSubfield(a4) || InSubfield(a5)
      || InSubfield(a6) || InSubfield(a7) || InSubfield(a8) || InSubfield(a9) || InSubfield(a10) || InSubfield(a11)
      || InSubfield(a12) || InSubfield(a13) || InSubfield(a14) || InSubfield(a15) || InSubfield(a16);
  }

  lemma {:induction false} ReachesDoubled(a: Byte, n: nat) returns (i: nat)
    requires Reaches(a, n)
    ensures i <= n && InSubfield(Doubled(i, a))
    decreases n
  {
    if InSubfield(a) {
      i := 0;
    } else {
      var j := ReachesDoubled(Double(a), n - 1);
      DoubledPlus(j, 1, a);
      i := j + 1;
    }
  }

  function Double4(b: Byte): Byte { Double(Double(Double(Double(b)))) }

  function Double17(b: Byte): Byte { Double(Double4(Double4(Double4(Double4(b))))) }

  lemma Doubled4(n: nat, b: Byte)
    ensures Doubled(n + 4, b) == Double4(Doubled(n, b))
  {
    assert Doubled(n + 2, b) == Double(Double(Doubled(n, b)));
  }

  lemma Doubled17(b: Byte)
    ensures Doubled(17, b) == Double17(b)
  {
    Doubled4(0, b);
    Doubled4(4, b);
    Doubled4(8, b);
    Doubled4(12, b);
    assert Doubled(17, b) == Double(Doubled(16, b));
  }

  /** One step of 17 doublings along the subfield. */
  lemma Giant(j: nat, x: Byte)
    requires Doubled(17 * j, 1) == x
    ensures Doubled(17 * (j + 1), 1) == Double17(x)
  {
    DoubledPlus(17, 17 * j, 1);
    Doubled17(x);
  }

  lemma SubfieldPowers()
    ensures forall x :: InSubfield(x) ==> exists n :: Doubled(n, 1) == x
    ensures Doubled(255, 1) == 1
  {
    Giant(0, 0x01);
    Giant(1, 0x98);
    Giant(2, 0x4E);
    Giant(3, 0x0A);
    Giant(4, 0x99);
    Giant(5, 0xD6);
    Giant(6, 0x44);
    Giant(7, 0x93);
    Giant(8, 0x4F);
    Giant(9, 0x92);
    Giant(10, 0xD7);
    Giant(11, 0xDC);
    Giant(12, 0xDD);
    Giant(13, 0x45);
    Giant(14, 0x0B);
  }

  lemma SubfieldPower(x: Byte) returns (m: nat)
    requires InSubfield(x)
    ensures Doubled(m, 1) == x
  {
    SubfieldPowers();
    m :| Doubled(m, 1) == x;
  }

  lemma {:induction false} PeriodMultiple(n: nat)
    ensures Doubled(255 * n, 1) == 1
  {
    if n > 0 {
      PeriodMultiple(n - 1);
      SubfieldPowers();
      DoubledPlus(255, 255 * (n - 1), 1);
    }
  }

  /** 2 generates the multiplicative group: every nonzero byte is a power of it. */
  lemma PrimitiveElement(a: Byte) returns (n: nat)
    requires a != 0
    ensures Doubled(n, 1) == a
  {
    ReachesSubfield(a);
    var i := ReachesDoubled(a, 16);
    var m := SubfieldPower(Doubled(i, a));
    n := m + 254 * i;
    PeriodMultiple(i);
    PeriodFixes(255 * i, a);
    DoubledPlus(254 * i, i, a);
    DoubledPlus(254 * i, m, 1);
  }

  lemma FixedSum(n: nat, x: Byte, y: Byte)
    requires Doubled(n, x) == x && Doubled(n, y) == y
    ensures Doubled(n, Add(x, y)) == Add(x, y)
  {
    DoubledAdd(n, x, y);
  }

  lemma FixedBit(n: nat, a: Byte, t: nat, m: Byte)
    requires Doubled(n, 1) == 1 && Doubled(t, 1) == m
    requires a & m == 0 || a & m == m
    ensures Doubled(n, a & m) == a & m
  {
    DoubledZero(n);
    DoubledPlus(n, t, 1);
    DoubledPlus(t, n, 1);
  }

  /** A period of 1 is a period of every byte, as each byte is a sum of powers of 2. */
  lemma PeriodFixes(n: nat, a: Byte)
    requires Doubled(n, 1) == 1
    ensures Doubled(n, a) == a
  {
    FixedBit(n, a, 0, 0x01);
    FixedBit(n, a, 1, 0x02);
    FixedSum(n, a & 0x01, a & 0x02);
    FixedBit(n, a, 2, 0x04);
    FixedSum(n, a & 0x03, a & 0x04);
    FixedBit(n, a, 3, 0x08);
    FixedSum(n, a & 0x07, a & 0x08);
    FixedBit(n, a, 4, 0x10);
    FixedSum(n, a & 0x0F, a & 0x10);
    FixedBit(n, a, 5, 0x20);
    FixedSum(n, a & 0x1F, a & 0x20);
    FixedBit(n, a, 6, 0x40);
    FixedSum(n, a & 0x3F, a & 0x40);
    FixedBit(n, a, 7, 0x80);
    FixedSum(n, a & 0x7F, a & 0x80);
  }

  ghost function Log(a: Byte): nat
    requires a != 0
    ensures Doubled(Log(a), 1) == a
  {
    assert exists n :: Doubled(n, 1) == a by { var n := PrimitiveElement(a); }
    var n :| Doubled(n, 1) == a;
    n
  }

  /** Multiplication in logarithmic form. */
  ghost function Mul(a: Byte, b: Byte): Byte {
    if a == 0 then 0 else Doubled(Log(a), b)
  }

  ghost function Inv(a: Byte): Byte {
    if a == 0 then 0 else Doubled(254 * Log(a), 1)
  }

  lemma MulComm(a: Byte, b: Byte)
    ensures Mul(a, b) == Mul(b, a)
  {
    if a != 0 && b != 0 {
      DoubledPlus(Log(a), Log(b), 1);
      DoubledPlus(Log(b), Log(a), 1);
    } else if a != 0 {
      DoubledZero(Log(a));
    } else if b != 0 {
      DoubledZero(Log(b));
    }
  }

  lemma MulAssoc(a: Byte, b: Byte, c: Byte)
    ensures Mul(Mul(a, b), c) == Mul(a, Mul(b, c))
  {
    MulComm(Mul(a, b), c);
    MulComm(b, c);
    if a != 0 && c != 0 {
      DoubledPlus(Log(c), Log(a), b);
      DoubledPlus(Log(a), Log(c), b);
    } else {
      MulComm(a, 0);
      MulComm(c, 0);
    }
  }

  lemma MulInv(a: Byte)
    requires a != 0
    ensures Mul(Inv(a), a) == 1
  {
    MulComm(Inv(a), a);
    DoubledPlus(Log(a), 254 * Log(a), 1);
    PeriodMultiple(Log(a));
  }

  lemma MulDistributes(a: Byte, b: Byte, c: Byte)
    ensures Mul(a, Add(b, c)) == Add(Mul(a, b), Mul(a, c))
  {
    if a != 0 {
      DoubledAdd(Log(a), b, c);
    }
  }

  lemma MulIdentity(a: Byte)
    ensures Mul(1, a) == a
  {
    MulComm(1, a);
  }

  ghost const GF256: Field := Field((a, b) => Mul(a, b), a => Inv(a))

  /** GF(2^8) satisfies the field laws. */
  lemma GF256IsField()
    ensures GF256.Valid()
  {
    forall a, b, c | At(a, b, c) ensures Mul(a, b) == Mul(b, a) { MulComm(a, b); }
    assert GF256.Commutative();
    forall a, b, c | At(a, b, c) ensures Mul(Mul(a, b), c) == Mul(a, Mul(b, c)) { MulAssoc(a, b, c); }
    assert GF256.Associative();
    forall a, b, c | At(a, b, c) ensures Mul(a, Add(b, c)) == Add(Mul(a, b), Mul(a, c)) { MulDistributes(a, b, c); }
    assert GF256.Distributive();
    forall a, b, c | At(a, b, c) ensures Mul(1, a) == a { MulIdentity(a); }
    assert GF256.HasOne();
    forall a, b, c | At(a, b, c) && a != 0 ensures Mul(Inv(a), a) == 1 { MulInv(a); }
    assert GF256.HasInverses();
  }
}
