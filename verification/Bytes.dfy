/** Bytes, and the little-endian reading of a byte string as one number. */
module Bytes {
  import opened Bits
  import opened Align

  type Byte = x: nat | x < 256

  /** A 64-bit word. */
  type Word = x: nat | x < TWO64

  const TWO32: nat := 0x1_0000_0000
  const TWO64: nat := 0x1_0000_0000_0000_0000

  lemma {:induction false} Pow2Values()
    ensures Pow2(8) == 256 && Pow2(16) == 0x1_0000 && Pow2(31) == 0x8000_0000
    ensures Pow2(32) == TWO32 && Pow2(64) == TWO64
  {
    assert Pow2(4) == 16;
    assert Pow2(12) == 4096;
    assert Pow2(20) == 0x10_0000;
    assert Pow2(28) == 0x1000_0000;
    Pow2Add(32, 32);
  }

  lemma {:induction false} Pow2Up(a: nat, b: nat)
    requires a <= b
    ensures Pow2(a) <= Pow2(b)
  {
    if a < b {
      Pow2Up(a, b - 1);
    }
  }

  /** A byte string as one little-endian number. */
  function Number(w: seq<Byte>): nat {
    if w == [] then 0 else w[0] + 256 * Number(w[1..])
  }

  /** Four bytes, least significant first. */
  function Weighted(a: nat, b: nat, c: nat, d: nat): nat {
    a + 0x100 * b + 0x1_0000 * c + 0x100_0000 * d
  }

  lemma {:induction false} TwoBytes(b: seq<Byte>)
    requires |b| == 2
    ensures Number(b) == Weighted(b[0], b[1], 0, 0)
  {
    assert Number(b) == b[0] + 256 * Number(b[1..]);
    assert b[1..][1..] == [] && Number(b[1..]) == b[1];
  }

  lemma {:induction false} FourBytes(b: seq<Byte>)
    requires |b| == 4
    ensures Number(b) == Weighted(b[0], b[1], b[2], b[3])
  {
    var c := b[1..];
    TwoBytes(b[2..4]);
    assert Number(b) == b[0] + 256 * Number(c);
    assert c[1..] == b[2..4] && Number(c) == b[1] + 256 * Number(b[2..4]);
  }

  lemma {:induction false} NumberBound(w: seq<Byte>)
    ensures Number(w) < Pow2(8 * |w|)
  {
    if w != [] {
      NumberBound(w[1..]);
      Pow2Add(8, 8 * |w[1..]|);
      Pow2Values();
    }
  }

  lemma {:induction false} Pow2Add(m: nat, n: nat)
    ensures Pow2(m + n) == Pow2(m) * Pow2(n)
  {
    if m > 0 {
      Pow2Add(m - 1, n);
    }
  }

  lemma {:induction false} NumberConcat(u: seq<Byte>, v: seq<Byte>)
    ensures Number(u + v) == Number(u) + Pow2(8 * |u|) * Number(v)
  {
    if u == [] {
      assert u + v == v;
    } else {
      assert (u + v)[1..] == u[1..] + v;
      NumberConcat(u[1..], v);
      Pow2Add(8, 8 * |u[1..]|);
      Pow2Values();
      Distribute(Number(u[1..]), Pow2(8 * |u[1..]|), Number(v));
    }
  }

  lemma {:induction false} Distribute(x: nat, h: nat, v: nat)
    ensures 256 * (x + h * v) == 256 * x + (256 * h) * v
  {
  }

  lemma {:induction false} NumberInjective(u: seq<Byte>, v: seq<Byte>)
    requires |u| == |v| && Number(u) == Number(v)
    ensures u == v
  {
    if u != [] {
      assert u[0] == v[0];
      NumberInjective(u[1..], v[1..]);
      assert u == [u[0]] + u[1..] && v == [v[0]] + v[1..];
    }
  }

  /** The `k` low bytes of `x`, least significant first. */
  function Le(k: nat, x: nat): (r: seq<Byte>)
    ensures |r| == k
  {
    if k == 0 then [] else [x % 256] + Le(k - 1, x / 256)
  }

  /** Writing then reading keeps what fits. */
  lemma {:induction false} ReadBack(k: nat, x: nat)
    requires x < Pow2(8 * k)
    ensures Number(Le(k, x)) == x
  {
    if k > 0 {
      Pow2Add(8, 8 * (k - 1));
      Pow2Values();
      ReadBack(k - 1, x / 256);
      assert Le(k, x)[1..] == Le(k - 1, x / 256);
    }
  }

  /** Writing cuts a number to its low bytes. */
  lemma {:induction false} ReadBackCut(k: nat, x: nat)
    ensures Number(Le(k, x)) == x % Pow2(8 * k)
  {
    if k > 0 {
      var h := Pow2(8 * (k - 1));
      Pow2Add(8, 8 * (k - 1));
      Pow2Values();
      ReadBackCut(k - 1, x / 256);
      assert Le(k, x)[1..] == Le(k - 1, x / 256);
      CutByte(x, h);
    }
  }

  lemma CutByte(x: nat, h: nat)
    requires h > 0
    ensures x % (256 * h) == x % 256 + 256 * (x / 256 % h)
  {
    var q := x / 256;
    DivMod(q, h);
    assert x == q / h * (256 * h) + (x % 256 + 256 * (q % h)) by {
      assert q / h * (256 * h) == 256 * (q / h * h);
    }
    Remainder(x, q / h, 256 * h, x % 256 + 256 * (q % h));
  }

  /** Byte `i` of an encoding is found by shifting. */
  lemma {:induction false} LeAt(k: nat, x: nat, i: nat)
    requires i < k
    ensures Le(k, x)[i] == x / Pow2(8 * i) % 256
  {
    if i > 0 {
      LeAt(k - 1, x / 256, i - 1);
      Pow2Add(8, 8 * (i - 1));
      Pow2Values();
      DivDiv(x, Pow2(8 * (i - 1)));
    }
  }

  lemma DivDiv(x: nat, h: nat)
    requires h > 0
    ensures x / 256 / h == x / (256 * h)
  {
    var q := x / 256;
    DivMod(q, h);
    assert x == q / h * (256 * h) + (x % 256 + 256 * (q % h)) by {
      assert q / h * (256 * h) == 256 * (q / h * h);
    }
    Remainder(x, q / h, 256 * h, x % 256 + 256 * (q % h));
  }

  /** A field of `|b|` bytes reads as `x` exactly when it is the encoding of `x`. */
  lemma ReadsAs(b: seq<Byte>, x: nat)
    requires x < Pow2(8 * |b|)
    ensures Number(b) == x <==> b == Le(|b|, x)
  {
    ReadBack(|b|, x);
    if Number(b) == x {
      NumberInjective(b, Le(|b|, x));
    }
  }
}
