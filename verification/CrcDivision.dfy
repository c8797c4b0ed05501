/**
The checksum as polynomial division over GF(2) (section 8 of RFC 1952).  A polynomial is
the number whose bit i is its coefficient of x^i.  Messages are read bit by bit, each byte
from its least significant bit, the first bit being the highest coefficient.
*/
module CrcDivision {
  import opened Bits
  import opened Bytes
  import opened Crc

  // ---- polynomials ----------------------------------------------------------------------------

  /** x^32 + x^26 + x^23 + x^22 + x^16 + x^12 + x^11 + x^10 + x^8 + x^7 + x^5 + x^4 + x^2 + x + 1 */
  const GENERATOR: nat :=
    Pow2(32) + Pow2(26) + Pow2(23) + Pow2(22) + Pow2(16) + Pow2(12) + Pow2(11) + Pow2(10)
    + Pow2(8) + Pow2(7) + Pow2(5) + Pow2(4) + Pow2(2) + Pow2(1) + Pow2(0)

  /** Product over GF(2). */
  function Mul(q: nat, p: nat): nat {
    if q == 0 then 0 else Xor(if q % 2 == 1 then p else 0, 2 * Mul(q / 2, p))
  }

  /** `r` is what remains of `a` when divided by `p` of degree 32. */
  ghost predicate Remainder(a: nat, p: nat, r: nat) {
    r < 0x1_0000_0000 && exists q :: a == Xor(Mul(q, p), r)
  }

  lemma {:induction false} MulZero(p: nat)
    ensures Mul(0, p) == 0
  {
  }

  /** Distribution over addition. */
  lemma {:induction false} MulAdds(a: nat, b: nat, p: nat)
    ensures Mul(Xor(a, b), p) == Xor(Mul(a, p), Mul(b, p))
    decreases a + b
  {
    if a == 0 {
      XorZero(b);
      XorZero(Mul(b, p));
    } else if b == 0 {
      XorZero(a);
      XorZero(Mul(a, p));
    } else {
      MulAdds(a / 2, b / 2, p);
      XorParts(a, b);
      var x, y := if a % 2 == 1 then p else 0, if b % 2 == 1 then p else 0;
      XorDouble(Mul(a / 2, p), Mul(b / 2, p));
      XorSwap(x, 2 * Mul(a / 2, p), y, 2 * Mul(b / 2, p));
      XorSelf(p);
      MulParts(Xor(a, b), p, Xor(x, y));
    }
  }

  lemma {:induction false} XorSelf(p: nat)
    ensures Xor(p, p) == 0 && Xor(p, 0) == p && Xor(0, p) == p && Xor(0, 0) == 0
  {
    XorVanishes(p, p);
    XorZero(p);
  }

  lemma {:induction false} MulParts(q: nat, p: nat, low: nat)
    requires low == if q % 2 == 1 then p else 0
    ensures Mul(q, p) == Xor(low, 2 * Mul(q / 2, p))
  {
    XorZero(0);
  }

  lemma {:induction false} MulPow(k: nat, p: nat)
    ensures Mul(Pow2(k), p) == Pow2(k) * p
  {
    if k == 0 {
      XorZero(p);
    } else {
      MulPow(k - 1, p);
      Pow2Times(k, p);
      XorZero(2 * (Pow2(k - 1) * p));
    }
  }

  // ---- reflection -----------------------------------------------------------------------------

  /** The `k` low bits of `v` in reverse. */
  function Reflect(k: nat, v: nat): nat {
    if k == 0 then 0 else (if v % 2 == 1 then Pow2(k - 1) else 0) + Reflect(k - 1, v / 2)
  }

  lemma {:induction false} ReflectBound(k: nat, v: nat)
    ensures Reflect(k, v) < Pow2(k)
  {
    if k > 0 {
      ReflectBound(k - 1, v / 2);
    }
  }

  lemma {:induction false} ReflectZero(k: nat)
    ensures Reflect(k, 0) == 0
  {
    if k > 0 {
      ReflectZero(k - 1);
    }
  }

  /** The lowest bit becomes the highest. */
  lemma {:induction false} ReflectTop(k: nat, v: nat, top: nat)
    requires k > 0 && top == if v % 2 == 1 then Pow2(k - 1) else 0
    ensures Reflect(k, v) == Xor(top, Reflect(k - 1, v / 2))
  {
    ReflectBound(k - 1, v / 2);
    XorAdds(Reflect(k - 1, v / 2), top, if v % 2 == 1 then 1 else 0, k - 1);
    XorComm(Reflect(k - 1, v / 2), top);
  }

  lemma {:induction false} ReflectAdds(k: nat, a: nat, b: nat)
    ensures Reflect(k, Xor(a, b)) == Xor(Reflect(k, a), Reflect(k, b))
  {
    if k == 0 {
      XorZero(0);
    } else {
      var x, y := if a % 2 == 1 then Pow2(k - 1) else 0, if b % 2 == 1 then Pow2(k - 1) else 0;
      XorParts(a, b);
      XorSelf(Pow2(k - 1));
      ReflectAdds(k - 1, a / 2, b / 2);
      ReflectTop(k, a, x);
      ReflectTop(k, b, y);
      ReflectTop(k, Xor(a, b), Xor(x, y));
      XorSwap(x, Reflect(k - 1, a / 2), y, Reflect(k - 1, b / 2));
    }
  }

  /** `b` in the low `k` bits and `x` above them. */
  lemma {:induction false} ReflectJoin(k: nat, m: nat, b: nat, x: nat, v: nat)
    requires b < Pow2(k) && v == b + Pow2(k) * x
    ensures Reflect(k + m, v) == Pow2(m) * Reflect(k, b) + Reflect(m, x)
  {
    if k > 0 {
      Pow2Times(k, x);
      ReflectJoin(k - 1, m, b / 2, x, v / 2);
      Pow2Add(m, k - 1);
      JoinStep(Pow2(m), if b % 2 == 1 then Pow2(k - 1) else 0, Reflect(k - 1, b / 2));
      if b % 2 == 0 {
        TimesZero(Pow2(m));
      }
    }
  }

  lemma {:induction false} JoinStep(h: nat, a: nat, r: nat)
    ensures h * (a + r) == h * a + h * r
  {
  }

  lemma {:induction false} TimesZero(h: nat)
    ensures h * 0 == 0
  {
  }

  lemma {:induction false} ReflectWide(k: nat, m: nat, v: nat)
    requires v < Pow2(k)
    ensures Reflect(k + m, v) == Pow2(m) * Reflect(k, v)
  {
    TimesZero(Pow2(k));
    ReflectJoin(k, m, v, 0, v);
    ReflectZero(m);
  }

  // ---- the generator --------------------------------------------------------------------------

  lemma {:induction false} Powers0()
    ensures Pow2(0) == 0x1 && Pow2(1) == 0x2 && Pow2(2) == 0x4 && Pow2(3) == 0x8
    ensures Pow2(4) == 0x10 && Pow2(5) == 0x20 && Pow2(6) == 0x40 && Pow2(7) == 0x80
  {
    assert Pow2(0) == 0x1;
    assert Pow2(1) == 0x2;
    assert Pow2(2) == 0x4;
    assert Pow2(3) == 0x8;
    assert Pow2(4) == 0x10;
    assert Pow2(5) == 0x20;
    assert Pow2(6) == 0x40;
    assert Pow2(7) == 0x80;
  }

  lemma {:induction false} Powers8()
    ensures Pow2(8) == 0x100 && Pow2(9) == 0x200 && Pow2(10) == 0x400 && Pow2(11) == 0x800
    ensures Pow2(12) == 0x1000 && Pow2(13) == 0x2000 && Pow2(14) == 0x4000 && Pow2(15) == 0x8000
  {
    Powers0();
    assert Pow2(8) == 0x100;
    assert Pow2(9) == 0x200;
    assert Pow2(10) == 0x400;
    assert Pow2(11) == 0x800;
    assert Pow2(12) == 0x1000;
    assert Pow2(13) == 0x2000;
    assert Pow2(14) == 0x4000;
    assert Pow2(15) == 0x8000;
  }

  lemma {:induction false} Powers16()
    ensures Pow2(16) == 0x10000 && Pow2(17) == 0x20000 && Pow2(18) == 0x40000 && Pow2(19) == 0x80000
    ensures Pow2(20) == 0x100000 && Pow2(21) == 0x200000 && Pow2(22) == 0x400000 && Pow2(23) == 0x800000
  {
    Powers8();
    assert Pow2(16) == 0x10000;
    assert Pow2(17) == 0x20000;
    assert Pow2(18) == 0x40000;
    assert Pow2(19) == 0x80000;
    assert Pow2(20) == 0x100000;
    assert Pow2(21) == 0x200000;
    assert Pow2(22) == 0x400000;
    assert Pow2(23) == 0x800000;
  }

  lemma {:induction false} Powers24()
    ensures Pow2(24) == 0x1000000 && Pow2(25) == 0x2000000 && Pow2(26) == 0x4000000 && Pow2(27) == 0x8000000
    ensures Pow2(28) == 0x10000000 && Pow2(29) == 0x20000000 && Pow2(30) == 0x40000000 && Pow2(31) == 0x80000000
    ensures Pow2(32) == 0x100000000
  {
    Powers16();
    assert Pow2(24) == 0x1000000;
    assert Pow2(25) == 0x2000000;
    assert Pow2(26) == 0x4000000;
    assert Pow2(27) == 0x8000000;
    assert Pow2(28) == 0x10000000;
    assert Pow2(29) == 0x20000000;
    assert Pow2(30) == 0x40000000;
    assert Pow2(31) == 0x80000000;
    assert Pow2(32) == 0x100000000;
  }

  lemma {:induction false} GeneratorValue()
    ensures GENERATOR == 0x1_04c1_1db7
  {
    Powers0();
    Powers8();
    Powers16();
    Powers24();
  }

  lemma {:induction false} ReflectNext(k: nat, v: nat, half: nat, r: nat, top: nat)
    requires k > 0 && half == v / 2 && Reflect(k - 1, half) == r && top == Pow2(k - 1)
    ensures Reflect(k, v) == r + if v % 2 == 1 then top else 0
  {
  }

  lemma {:induction false} Mirror8()
    ensures Reflect(8, 0xed) == 0xb7
  {
    Powers0();
    ReflectNext(1, 0x1, 0x0, 0x0, 0x1);
    ReflectNext(2, 0x3, 0x1, 0x1, 0x2);
    ReflectNext(3, 0x7, 0x3, 0x3, 0x4);
    ReflectNext(4, 0xe, 0x7, 0x7, 0x8);
    ReflectNext(5, 0x1d, 0xe, 0x7, 0x10);
    ReflectNext(6, 0x3b, 0x1d, 0x17, 0x20);
    ReflectNext(7, 0x76, 0x3b, 0x37, 0x40);
    ReflectNext(8, 0xed, 0x76, 0x37, 0x80);
  }

  lemma {:induction false} Mirror16()
    requires Reflect(8, 0xed) == 0xb7
    ensures Reflect(16, 0xedb8) == 0x1db7
  {
    Powers8();
    ReflectNext(9, 0x1db, 0xed, 0xb7, 0x100);
    ReflectNext(10, 0x3b6, 0x1db, 0x1b7, 0x200);
    ReflectNext(11, 0x76d, 0x3b6, 0x1b7, 0x400);
    ReflectNext(12, 0xedb, 0x76d, 0x5b7, 0x800);
    ReflectNext(13, 0x1db7, 0xedb, 0xdb7, 0x1000);
    ReflectNext(14, 0x3b6e, 0x1db7, 0x1db7, 0x2000);
    ReflectNext(15, 0x76dc, 0x3b6e, 0x1db7, 0x4000);
    ReflectNext(16, 0xedb8, 0x76dc, 0x1db7, 0x8000);
  }

  lemma {:induction false} Mirror24()
    requires Reflect(16, 0xedb8) == 0x1db7
    ensures Reflect(24, 0xedb883) == 0xc11db7
  {
    Powers16();
    ReflectNext(17, 0x1db71, 0xedb8, 0x1db7, 0x10000);
    ReflectNext(18, 0x3b6e2, 0x1db71, 0x11db7, 0x20000);
    ReflectNext(19, 0x76dc4, 0x3b6e2, 0x11db7, 0x40000);
    ReflectNext(20, 0xedb88, 0x76dc4, 0x11db7, 0x80000);
    ReflectNext(21, 0x1db710, 0xedb88, 0x11db7, 0x100000);
    ReflectNext(22, 0x3b6e20, 0x1db710, 0x11db7, 0x200000);
    ReflectNext(23, 0x76dc41, 0x3b6e20, 0x11db7, 0x400000);
    ReflectNext(24, 0xedb883, 0x76dc41, 0x411db7, 0x800000);
  }

  lemma {:induction false} Mirror32()
    requires Reflect(24, 0xedb883) == 0xc11db7
    ensures Reflect(32, 0xedb88320) == 0x4c11db7
  {
    Powers24();
    ReflectNext(25, 0x1db7106, 0xedb883, 0xc11db7, 0x1000000);
    ReflectNext(26, 0x3b6e20c, 0x1db7106, 0xc11db7, 0x2000000);
    ReflectNext(27, 0x76dc419, 0x3b6e20c, 0xc11db7, 0x4000000);
    ReflectNext(28, 0xedb8832, 0x76dc419, 0x4c11db7, 0x8000000);
    ReflectNext(29, 0x1db71064, 0xedb8832, 0x4c11db7, 0x10000000);
    ReflectNext(30, 0x3b6e20c8, 0x1db71064, 0x4c11db7, 0x20000000);
    ReflectNext(31, 0x76dc4190, 0x3b6e20c8, 0x4c11db7, 0x40000000);
    ReflectNext(32, 0xedb88320, 0x76dc4190, 0x4c11db7, 0x80000000);
  }

  /** `g` is the generator, seen from the constant of the loop. */
  predicate Generates(g: nat) {
    g == Xor(Pow2(32), Reflect(32, POLYNOMIAL)) && POLYNOMIAL < Pow2(32)
  }

  /** The constant of the loop is the generator without its leading term, reflected. */
  lemma {:induction false} PolynomialIsGenerator()
    ensures Generates(GENERATOR)
  {
    Mirror8();
    Mirror16();
    Mirror24();
    Mirror32();
    GeneratorValue();
    Powers24();
    XorAdds(0x04c1_1db7, Pow2(32), 1, 32);
    XorComm(0x04c1_1db7, Pow2(32));
  }

  // ---- the register divides -------------------------------------------------------------------

  lemma {:induction false} ShiftedSum(k: nat, g: nat, a: nat, b: nat, top: nat, low: nat)
    requires g == Xor(a, b) && top == Pow2(k) * a && low == Pow2(k) * b
    ensures Mul(Pow2(k), g) == Xor(top, low)
  {
    MulPow(k, g);
    XorShift(a, b, k, top, low);
  }

  /** The generator times x^k, its leading term apart. */
  lemma {:induction false} ShiftedGenerator(k: nat, g: nat, top: nat, low: nat)
    requires Generates(g) && top == Pow2(32 + k) && low == Reflect(32 + k, POLYNOMIAL)
    ensures Mul(Pow2(k), g) == Xor(top, low)
  {
    LeadingTerm(k);
    OtherTerms(k);
    ShiftedSum(k, g, Pow2(32), Reflect(32, POLYNOMIAL), top, low);
  }

  lemma {:induction false} LeadingTerm(k: nat)
    ensures Pow2(32 + k) == Pow2(k) * Pow2(32)
  {
    Pow2Add(k, 32);
  }

  lemma {:induction false} OtherTerms(k: nat)
    requires POLYNOMIAL < Pow2(32)
    ensures Reflect(32 + k, POLYNOMIAL) == Pow2(k) * Reflect(32, POLYNOMIAL)
  {
    ReflectWide(32, k, POLYNOMIAL);
  }

  lemma {:induction false} OddStep(k: nat, v: nat, r: nat, low: nat)
    requires v % 2 == 1 && r == Reflect(k, v / 2) && low == Reflect(k, POLYNOMIAL)
    ensures Reflect(k, Step(v)) == Xor(r, low)
  {
    ReflectAdds(k, v / 2, POLYNOMIAL);
  }

  /** One step subtracts a multiple of the generator, or nothing, and drops the leading bit. */
  lemma {:induction false} StepDivides(n: nat, v: nat, g: nat, q: nat)
    requires n > 0 && Generates(g) && q == if v % 2 == 1 then Pow2(n - 1) else 0
    ensures Reflect(31 + n, Step(v)) == Xor(Reflect(32 + n, v), Mul(q, g))
  {
    var r := Reflect(31 + n, v / 2);
    if v % 2 == 1 {
      var top, low := Pow2(31 + n), Reflect(31 + n, POLYNOMIAL);
      ReflectTop(32 + n, v, top);
      ShiftedGenerator(n - 1, g, top, low);
      OddStep(31 + n, v, r, low);
      Cancelled(top, r, low, Mul(q, g));
    } else {
      EvenStep(31 + n, v, r);
      XorZero(Reflect(32 + n, v));
      MulZero(g);
    }
  }

  lemma {:induction false} EvenStep(k: nat, v: nat, r: nat)
    requires v % 2 == 0 && r == Reflect(k, v / 2)
    ensures Reflect(k, Step(v)) == r && Reflect(k + 1, v) == r
  {
  }

  lemma {:induction false} Cancelled(top: nat, r: nat, p: nat, g: nat)
    requires g == Xor(top, p)
    ensures Xor(r, p) == Xor(Xor(top, r), g)
  {
    XorCancels(top, r, p);
  }

  /** `n` steps are long division by the generator. */
  lemma {:induction false} StepsDivide(n: nat, v: nat, g: nat) returns (q: nat)
    requires Generates(g)
    ensures Reflect(32, Steps(n, v)) == Xor(Reflect(32 + n, v), Mul(q, g))
    decreases n
  {
    if n == 0 {
      q := 0;
      XorZero(Reflect(32, v));
      MulZero(g);
    } else {
      var first := if v % 2 == 1 then Pow2(n - 1) else 0;
      StepDivides(n, v, g, first);
      var rest := StepsDivide(n - 1, Step(v), g);
      q := Xor(first, rest);
      Regrouped(Reflect(32 + n, v), first, rest, g, Reflect(31 + n, Step(v)), Reflect(32, Steps(n, v)));
    }
  }

  lemma {:induction false} Regrouped(a: nat, q: nat, t: nat, g: nat, b: nat, c: nat)
    requires b == Xor(a, Mul(q, g)) && c == Xor(b, Mul(t, g))
    ensures c == Xor(a, Mul(Xor(q, t), g))
  {
    MulAdds(q, t, g);
    XorAssoc(a, Mul(q, g), Mul(t, g));
  }

  // ---- the checksum ---------------------------------------------------------------------------

  /** The message, first bit first. */
  function MessagePoly(w: seq<Byte>): nat {
    if w == [] then 0 else Pow2(8 * |w[1..]|) * Reflect(8, w[0]) + MessagePoly(w[1..])
  }

  lemma {:induction false} MessageReflects(w: seq<Byte>)
    ensures MessagePoly(w) == Reflect(8 * |w|, Number(w))
  {
    if w != [] {
      MessageReflects(w[1..]);
      Powers8();
      ReflectJoin(8, 8 * |w[1..]|, w[0], Number(w[1..]), Number(w));
    }
  }

  /** What is divided: the message times x^32, with all ones added to its first 32 bits. */
  function Dividend(w: seq<Byte>): nat {
    Xor(0x1_0000_0000 * MessagePoly(w), Pow2(8 * |w|) * 0xffff_ffff)
  }

  lemma {:induction false} OnesReflect(k: nat)
    ensures Reflect(k, Pow2(k) - 1) == Pow2(k) - 1
  {
    if k > 0 {
      OnesReflect(k - 1);
      assert (Pow2(k) - 1) / 2 == Pow2(k - 1) - 1;
    }
  }

  lemma {:induction false} AllOnes()
    ensures Reflect(32, 0xffff_ffff) == 0xffff_ffff
  {
    OnesReflect(32);
    Powers24();
  }

  lemma {:induction false} DividendReflects(w: seq<Byte>)
    ensures Reflect(32 + 8 * |w|, Xor(0xffff_ffff, Number(w))) == Dividend(w)
  {
    var n := 8 * |w|;
    Powers24();
    NumberBound(w);
    MessageReflects(w);
    AllOnes();
    ReflectAdds(32 + n, 0xffff_ffff, Number(w));
    ReflectWide(32, n, 0xffff_ffff);
    ReflectWide(n, 32, Number(w));
    XorComm(Pow2(n) * 0xffff_ffff, 0x1_0000_0000 * MessagePoly(w));
  }

  /** The final complement, seen from the other end. */
  lemma {:induction false} ComplementReflects(c: nat)
    requires c < 0x1_0000_0000
    ensures Reflect(32, 0xffff_ffff - c) == Xor(0xffff_ffff, Reflect(32, c))
  {
    Powers24();
    Complement(c, 32);
    ReflectAdds(32, 0xffff_ffff, c);
    AllOnes();
  }

  lemma {:induction false} Complement(c: nat, k: nat)
    requires c < Pow2(k)
    ensures Xor(Pow2(k) - 1, c) == Pow2(k) - 1 - c
  {
    if k == 0 {
      XorZero(0);
    } else {
      Complement(c / 2, k - 1);
      ComplementStep(c, Pow2(k - 1));
    }
  }

  lemma {:induction false} ComplementStep(c: nat, h: nat)
    requires c < 2 * h && Xor(h - 1, c / 2) == h - 1 - c / 2
    ensures Xor(2 * h - 1, c) == 2 * h - 1 - c
  {
    XorParts(2 * h - 1, c);
    Halves(h, 0, 0);
    Halves(h, c / 2, c % 2);
    Combine(Xor(2 * h - 1, c), 2 * h - 1 - c);
  }

  lemma {:induction false} Halves(h: nat, a: nat, b: nat)
    requires a < h && b < 2
    ensures (2 * h - 1 - (2 * a + b)) / 2 == h - 1 - a && (2 * h - 1 - (2 * a + b)) % 2 == 1 - b
  {
  }

  lemma {:induction false} StateDivides(w: seq<Byte>, n: nat, v: nat, s: nat, g: nat) returns (q: nat)
    requires Generates(g) && n == 8 * |w| && v == Xor(0xffff_ffff, Number(w)) && s == State(0xffff_ffff, w)
    ensures Reflect(32, s) == Xor(Dividend(w), Mul(q, g))
  {
    StateIsOneShift(0xffff_ffff, w);
    DividendReflects(w);
    q := StepsDivide(n, v, g);
  }

  lemma {:induction false} ChecksumReflects(w: seq<Byte>, s: nat)
    requires s == State(0xffff_ffff, w)
    ensures s < 0x1_0000_0000 && Xor(0xffff_ffff, Reflect(32, Checksum(w))) == Reflect(32, s)
  {
    StateBound(0xffff_ffff, w);
    assert Checksum(w) == 0xffff_ffff - s;
    ComplementReflects(s);
    Doubled(0xffff_ffff, Reflect(32, s));
  }

  /** The checksum, reflected and complemented, is the remainder of the message times x^32
      plus the initial ones modulo the generator. */
  lemma {:induction false} ChecksumIsRemainder(w: seq<Byte>)
    ensures Remainder(Dividend(w), GENERATOR, Xor(0xffff_ffff, Reflect(32, Checksum(w))))
  {
    var s := State(0xffff_ffff, w);
    ChecksumReflects(w, s);
    PolynomialIsGenerator();
    var q := StateDivides(w, 8 * |w|, Xor(0xffff_ffff, Number(w)), s, GENERATOR);
    ReflectBound(32, s);
    Powers24();
    RemainderOf(Dividend(w), GENERATOR, Reflect(32, s), q);
  }

  lemma {:induction false} RemainderOf(a: nat, g: nat, r: nat, q: nat)
    requires r == Xor(a, Mul(q, g)) && r < 0x1_0000_0000
    ensures Remainder(a, g, r)
  {
    Moved(r, a, Mul(q, g));
  }

  lemma {:induction false} Doubled(a: nat, b: nat)
    ensures Xor(a, Xor(a, b)) == b
  {
    XorAssoc(a, a, b);
    XorVanishes(a, a);
    XorZero(b);
  }

  lemma {:induction false} Moved(r: nat, a: nat, m: nat)
    requires r == Xor(a, m)
    ensures a == Xor(m, r)
  {
    XorComm(a, m);
    Doubled(m, a);
  }

  // ---- remainders are unique ------------------------------------------------------------------

  /** A leading bit above everything else stays. */
  lemma {:induction false} LeadingStays(x: nat, y: nat, k: nat)
    requires x < Pow2(k) <= y < Pow2(k + 1)
    ensures Pow2(k) <= Xor(x, y) < Pow2(k + 1)
  {
    if k == 0 {
      XorZero(y);
    } else {
      LeadingStays(x / 2, y / 2, k - 1);
      XorParts(x, y);
    }
  }

  /** Degrees add up. */
  lemma {:induction false} MulDegree(q: nat, p: nat, k: nat)
    requires Pow2(k) <= q < Pow2(k + 1) && Pow2(32) <= p < Pow2(33)
    ensures Pow2(k + 32) <= Mul(q, p) < Pow2(k + 33)
  {
    if k == 0 {
      MulOne(q, p);
    } else {
      MulDegree(q / 2, p, k - 1);
      DegreeStep(q, p, Mul(q / 2, p), k);
    }
  }

  lemma {:induction false} MulOne(q: nat, p: nat)
    requires Pow2(0) <= q < Pow2(1)
    ensures Mul(q, p) == p
  {
    MulParts(q, p, p);
    MulZero(p);
    XorZero(p);
  }

  lemma {:induction false} DegreeStep(q: nat, p: nat, half: nat, k: nat)
    requires k > 0 && p < Pow2(33) && half == Mul(q / 2, p) && Pow2(k + 31) <= half < Pow2(k + 32)
    ensures Pow2(k + 32) <= Mul(q, p) < Pow2(k + 33)
  {
    var low := if q % 2 == 1 then p else 0;
    MulParts(q, p, low);
    Pow2Up(33, k + 32);
    LeadingStays(low, 2 * half, k + 32);
  }

  lemma {:induction false} Degree(q: nat) returns (k: nat)
    requires q > 0
    ensures Pow2(k) <= q < Pow2(k + 1)
  {
    if q == 1 {
      k := 0;
    } else {
      k := Degree(q / 2);
      k := k + 1;
    }
  }

  /** Division by a polynomial of degree 32 leaves one remainder only. */
  lemma {:induction false} RemainderUnique(a: nat, p: nat, r: nat, s: nat)
    requires Pow2(32) <= p < Pow2(33) && Remainder(a, p, r) && Remainder(a, p, s)
    ensures r == s
  {
    var t :| a == Xor(Mul(t, p), r);
    var u :| a == Xor(Mul(u, p), s);
    Powers24();
    XorBound(r, s, 32);
    XorVanishes(r, s);
    MulAdds(t, u, p);
    XorSwap(Mul(t, p), r, Mul(u, p), s);
    XorVanishes(a, a);
    XorVanishes(Mul(Xor(t, u), p), Xor(r, s));
    if Xor(t, u) > 0 {
      var k := Degree(Xor(t, u));
      MulDegree(Xor(t, u), p, k);
      Pow2Up(32, k + 32);
    } else {
      MulZero(p);
    }
  }

  /** So the checksum of a message is the one number of which that is true. */
  lemma {:induction false} ChecksumPinned(w: seq<Byte>, c: nat)
    requires c < 0x1_0000_0000 && Remainder(Dividend(w), GENERATOR, Xor(0xffff_ffff, Reflect(32, c)))
    ensures c == Checksum(w)
  {
    ChecksumIsRemainder(w);
    GeneratorValue();
    Powers24();
    assert Pow2(33) == 0x2_0000_0000;
    RemainderUnique(Dividend(w), GENERATOR, Xor(0xffff_ffff, Reflect(32, c)), Xor(0xffff_ffff, Reflect(32, Checksum(w))));
    Doubled(0xffff_ffff, Reflect(32, c));
    Doubled(0xffff_ffff, Reflect(32, Checksum(w)));
    ReflectTwice(32, c);
    ReflectTwice(32, Checksum(w));
  }

  /** Reflecting twice changes nothing. */
  lemma {:induction false} ReflectTwice(k: nat, v: nat)
    requires v < Pow2(k)
    ensures Reflect(k, Reflect(k, v)) == v
  {
    if k > 0 {
      var r, top := Reflect(k - 1, v / 2), v % 2;
      ReflectTwice(k - 1, v / 2);
      ReflectBound(k - 1, v / 2);
      TopBit(k, v, r, top);
      ReflectJoin(k - 1, 1, r, top, Reflect(k, v));
      OneBit(top);
    }
  }

  lemma {:induction false} TopBit(k: nat, v: nat, r: nat, top: nat)
    requires k > 0 && r == Reflect(k - 1, v / 2) && top == v % 2
    ensures Reflect(k, v) == r + Pow2(k - 1) * top
  {
    if top == 0 {
      TimesZero(Pow2(k - 1));
    }
  }

  lemma {:induction false} OneBit(b: nat)
    requires b < 2
    ensures Reflect(1, b) == b && Pow2(1) == 2
  {
    assert Reflect(0, b / 2) == 0;
  }

  // ---- the loop -----------------------------------------------------------------------------

  /** The bitwise loop: its result is the checksum, and so the complement of the reflected
      remainder of the message. */
  method Crc32(bytes: seq<Byte>) returns (r: nat)
    ensures r == Checksum(bytes)
    ensures Remainder(Dividend(bytes), GENERATOR, Xor(0xffff_ffff, Reflect(32, r)))
  {
    var crc: nat := TWO32 - 1;
    var i := 0;
    while i < |bytes|
      invariant i <= |bytes|
      invariant State(crc, bytes[i..]) == State(TWO32 - 1, bytes)
    {
      ghost var before := crc;
      crc := Xor(crc, bytes[i]);
      var bit := 0;
      while bit < 8
        invariant bit <= 8
        invariant Steps(8 - bit, crc) == Absorb(before, bytes[i])
      {
        crc := Step(crc);
        bit := bit + 1;
      }
      assert bytes[i..][1..] == bytes[i + 1..];
      i := i + 1;
    }
    StateBound(TWO32 - 1, bytes);
    r := TWO32 - 1 - crc;
    ChecksumIsRemainder(bytes);
  }
}
