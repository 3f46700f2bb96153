/** Unsigned 32-bit machine words and the facts about Euclidean division that
    the models of `unsigned` arithmetic rely on. */
module Arith {

  const TwoTo32: int := 0x1_0000_0000

  /** The values of a C++ `unsigned` (32 bits). */
  type U32 = x: int | 0 <= x < TwoTo32

  /** A C++ `int` (32 bits, two's complement). */
  type I32 = x: int | -0x8000_0000 <= x < 0x8000_0000

  /** A C++ `unsigned char`. */
  type U8 = x: int | 0 <= x < 0x100

  /** A C++ `unsigned long long` (64 bits). */
  type U64 = x: int | 0 <= x < 0x1_0000_0000_0000_0000

  /** Reduction of a mathematical integer to a 32-bit unsigned value, as every
      `unsigned` addition or multiplication does. */
  function Wrap(n: int): (r: U32)
    ensures 0 <= n < TwoTo32 ==> r == n
  {
    n % TwoTo32
  }

  /** The product of two naturals, as a natural. */
  function Product(a: nat, b: nat): nat
  {
    a * b
  }

  /** Distributing a product over a successor. */
  lemma MulSucc(a: int, b: int)
    ensures a * (b + 1) == a * b + a
  {
  }

  /** Multiplication distributes over addition. */
  lemma Distrib(a: int, b: int, c: int)
    ensures a * (b + c) == a * b + a * c
  {
  }

  /** Multiplication is associative. */
  lemma Assoc(a: int, b: int, c: int)
    ensures a * (b * c) == (a * b) * c
  {
  }

  /** Multiplying by a natural preserves `<=`. */
  lemma MulMonotone(a: nat, b: int, c: int)
    requires b <= c
    ensures a * b <= a * c
  {
    assert a * c - a * b == a * (c - b);
  }

  /** `d * k` strictly between `-d` and `d` forces `k == 0`. */
  lemma MulSmallIsZero(d: int, k: int)
    requires d >= 1
    requires -d < d * k < d
    ensures k == 0
  {
  }

  /** Quotient and remainder below `d` are unique: `r + d*q` determines both. */
  lemma DivUnique(d: int, r1: int, q1: int, r2: int, q2: int)
    requires d >= 1
    requires 0 <= r1 < d && 0 <= r2 < d
    requires r1 + d * q1 == r2 + d * q2
    ensures r1 == r2 && q1 == q2
  {
    assert d * (q1 - q2) == r2 - r1;
    MulSmallIsZero(d, q1 - q2);
  }

  /** Adding a multiple of 2^32 does not change the wrapped value. */
  lemma WrapShift(a: int, k: int)
    ensures Wrap(a + TwoTo32 * k) == Wrap(a)
  {
    var q := a / TwoTo32;
    assert a == a % TwoTo32 + TwoTo32 * q;
    var b := a + TwoTo32 * k;
    assert b == b % TwoTo32 + TwoTo32 * (b / TwoTo32);
    assert a % TwoTo32 + TwoTo32 * (q + k) == b;
    DivUnique(TwoTo32, b % TwoTo32, b / TwoTo32, a % TwoTo32, q + k);
  }

  /** Wrapping an operand of an addition early changes nothing. */
  lemma WrapAdd(a: int, b: int)
    ensures Wrap(Wrap(a) + b) == Wrap(a + b)
  {
    var q := a / TwoTo32;
    assert Wrap(a) + b + TwoTo32 * q == a + b;
    WrapShift(Wrap(a) + b, q);
  }

  /** Wrapping an operand of a multiplication early changes nothing. */
  lemma WrapMul(a: int, b: int)
    ensures Wrap(Wrap(a) * b) == Wrap(a * b)
  {
    var q := a / TwoTo32;
    assert a == Wrap(a) + TwoTo32 * q;
    assert a * b == Wrap(a) * b + TwoTo32 * (q * b);
    WrapShift(Wrap(a) * b, q * b);
  }

  /** `x + p + q*z` computed with a wrap after every operation equals the
      mathematical value wrapped once. */
  lemma WrapFormula(x: int, p: int, q: int, z: int)
    ensures Wrap(Wrap(x + Wrap(p)) + Wrap(Wrap(q) * z)) == Wrap(x + p + q * z)
  {
    var qz := q * z;
    var b := Wrap(q) * z;
    calc {
      Wrap(Wrap(x + Wrap(p)) + Wrap(b));
      { WrapAdd(x + Wrap(p), Wrap(b)); }
      Wrap(x + Wrap(p) + Wrap(b));
      { WrapAdd(p, x + Wrap(b)); }
      Wrap(x + p + Wrap(b));
      { WrapMul(q, z); WrapAdd(b, x + p); WrapAdd(qz, x + p); }
      Wrap(x + p + qz);
    }
  }
}
