/**
The bitwise CRC-32 of the image metadata (boot/kernel-image-metadata/src/lib.rs:209-219,
the CRC of section 8 of RFC 1952), over natural numbers below 2^32, and its algebra:
the loop computes one linear map of the message read as a single little-endian number,
and that map loses no difference confined to 32 consecutive bits.
*/
module Crc {
  import opened Bits
  import opened Bytes

  const POLYNOMIAL: nat := 0xedb8_8320

  // ---- exclusive or -------------------------------------------------------------------------

  function Xor(a: nat, b: nat): nat
    decreases a + b
  {
    if a == 0 && b == 0 then 0 else 2 * Xor(a / 2, b / 2) + if a % 2 != b % 2 then 1 else 0
  }

  lemma {:induction false} XorComm(a: nat, b: nat)
    ensures Xor(a, b) == Xor(b, a)
    decreases a + b
  {
    if a != 0 || b != 0 {
      XorComm(a / 2, b / 2);
    }
  }

  lemma {:induction false} XorAssoc(a: nat, b: nat, c: nat)
    ensures Xor(Xor(a, b), c) == Xor(a, Xor(b, c))
    decreases a + b + c
  {
    if a != 0 || b != 0 || c != 0 {
      XorAssoc(a / 2, b / 2, c / 2);
      XorParts(a, b);
      XorParts(b, c);
      XorParts(Xor(a, b), c);
      XorParts(a, Xor(b, c));
      Combine(Xor(Xor(a, b), c), Xor(a, Xor(b, c)));
    }
  }

  lemma {:induction false} XorParts(a: nat, b: nat)
    ensures Xor(a, b) / 2 == Xor(a / 2, b / 2)
    ensures Xor(a, b) % 2 == if a % 2 != b % 2 then 1 else 0
  {
  }

  lemma {:induction false} Combine(x: nat, y: nat)
    requires x / 2 == y / 2 && x % 2 == y % 2
    ensures x == y
  {
  }

  lemma {:induction false} XorZero(a: nat)
    ensures Xor(a, 0) == a && Xor(0, a) == a
  {
    if a != 0 {
      XorZero(a / 2);
    }
  }

  lemma {:induction false} XorVanishes(a: nat, b: nat)
    ensures Xor(a, b) == 0 <==> a == b
    decreases a + b
  {
    if a != 0 || b != 0 {
      XorVanishes(a / 2, b / 2);
    }
  }

  lemma {:induction false} XorBound(a: nat, b: nat, k: nat)
    requires a < Pow2(k) && b < Pow2(k)
    ensures Xor(a, b) < Pow2(k)
  {
    if k > 0 {
      XorBound(a / 2, b / 2, k - 1);
      XorParts(a, b);
    }
  }

  lemma {:induction false} XorSwap(a: nat, b: nat, c: nat, d: nat)
    ensures Xor(Xor(a, b), Xor(c, d)) == Xor(Xor(a, c), Xor(b, d))
  {
    XorAssoc(a, b, Xor(c, d));
    XorAssoc(b, c, d);
    XorComm(b, c);
    XorAssoc(c, b, d);
    XorAssoc(a, c, Xor(b, d));
  }

  /** Numbers that share no bit are combined by adding. */
  lemma {:induction false} XorAdds(b: nat, h: nat, m: nat, k: nat)
    requires b < Pow2(k) && h == Pow2(k) * m
    ensures Xor(b, h) == b + h
  {
    if k == 0 {
      XorZero(h);
    } else {
      Pow2Times(k, m);
      XorAdds(b / 2, h / 2, m, k - 1);
      XorAddsBit(b, h / 2);
    }
  }

  lemma {:induction false} XorAddsBit(b: nat, h: nat)
    requires Xor(b / 2, h) == b / 2 + h
    ensures Xor(b, 2 * h) == b + 2 * h
  {
    XorParts(b, 2 * h);
    Combine(Xor(b, 2 * h), b + 2 * h);
  }

  // ---- one bit, then many -------------------------------------------------------------------

  /** Shift right, folding the polynomial in when a one falls out. */
  function Step(c: nat): nat {
    if c % 2 == 1 then Xor(c / 2, POLYNOMIAL) else c / 2
  }

  function Steps(n: nat, c: nat): nat {
    if n == 0 then c else Steps(n - 1, Step(c))
  }

  lemma {:induction false} StepLinear(a: nat, b: nat)
    ensures Step(Xor(a, b)) == Xor(Step(a), Step(b))
  {
    XorParts(a, b);
    var x, y := if a % 2 == 1 then POLYNOMIAL else 0, if b % 2 == 1 then POLYNOMIAL else 0;
    XorZero(a / 2);
    XorZero(b / 2);
    XorZero(Xor(a / 2, b / 2));
    XorZero(POLYNOMIAL);
    XorVanishes(POLYNOMIAL, POLYNOMIAL);
    XorSwap(a / 2, x, b / 2, y);
  }

  lemma {:induction false} StepsLinear(n: nat, a: nat, b: nat)
    ensures Steps(n, Xor(a, b)) == Xor(Steps(n, a), Steps(n, b))
  {
    if n > 0 {
      StepLinear(a, b);
      StepsLinear(n - 1, Step(a), Step(b));
    }
  }

  lemma {:induction false} StepsAdd(m: nat, n: nat, c: nat)
    ensures Steps(m + n, c) == Steps(n, Steps(m, c))
  {
    if m > 0 {
      StepsAdd(m - 1, n, Step(c));
    }
  }

  lemma {:induction false} StepsShift(k: nat, m: nat)
    ensures Steps(k, Pow2(k) * m) == m
  {
    if k > 0 {
      Pow2Times(k, m);
      StepsEven(k, Pow2(k - 1) * m);
      StepsShift(k - 1, m);
    }
  }

  lemma {:induction false} StepsEven(n: nat, h: nat)
    requires n > 0
    ensures Steps(n, 2 * h) == Steps(n - 1, h)
  {
    assert Step(2 * h) == h;
  }

  /** No state but zero steps to zero: a difference is never lost. */
  lemma {:induction false} StepKeepsNonzero(c: nat)
    requires 0 < c < TWO32
    ensures 0 < Step(c) < TWO32
  {
    Pow2Values();
    XorBound(c / 2, POLYNOMIAL, 32);
    XorVanishes(c / 2, POLYNOMIAL);
  }

  lemma {:induction false} StepsKeepNonzero(n: nat, c: nat)
    requires 0 < c < TWO32
    ensures 0 < Steps(n, c) < TWO32
  {
    if n > 0 {
      StepKeepsNonzero(c);
      StepsKeepNonzero(n - 1, Step(c));
    }
  }

  // ---- the checksum of a message ------------------------------------------------------------

  function Absorb(c: nat, b: Byte): nat {
    Steps(8, Xor(c, b))
  }

  function State(c: nat, w: seq<Byte>): nat
    decreases w
  {
    if |w| == 0 then c else State(Absorb(c, w[0]), w[1..])
  }

  lemma {:induction false} StateBound(c: nat, w: seq<Byte>)
    requires c < TWO32
    ensures State(c, w) < TWO32
    decreases w
  {
    if w != [] {
      Pow2Values();
      XorBound(c, w[0], 32);
      ZeroOrKept(8, Xor(c, w[0]));
      StateBound(Absorb(c, w[0]), w[1..]);
    }
  }

  lemma {:induction false} ZeroOrKept(n: nat, c: nat)
    requires c < TWO32
    ensures Steps(n, c) < TWO32
  {
    if c == 0 {
      if n > 0 {
        ZeroOrKept(n - 1, 0);
      }
    } else {
      StepsKeepNonzero(n, c);
    }
  }

  /** Start from all ones, absorb every byte, complement. */
  function Checksum(w: seq<Byte>): (r: nat)
    ensures r < TWO32
  {
    StateBound(TWO32 - 1, w);
    TWO32 - 1 - State(TWO32 - 1, w)
  }

  /** Absorbing a byte and then meeting `tail` is eight steps on both together. */
  lemma {:induction false} AbsorbAhead(c: nat, b: Byte, tail: nat, both: nat)
    requires both == b + 256 * tail
    ensures Xor(Absorb(c, b), tail) == Steps(8, Xor(c, both))
  {
    Pow2Values();
    StepsShift(8, tail);
    XorAdds(b, 256 * tail, tail, 8);
    AbsorbJoined(c, b, tail, 256 * tail, both);
  }

  lemma {:induction false} AbsorbJoined(c: nat, b: Byte, tail: nat, high: nat, both: nat)
    requires Steps(8, high) == tail && Xor(b, high) == both
    ensures Xor(Absorb(c, b), tail) == Steps(8, Xor(c, both))
  {
    StepsLinear(8, Xor(c, b), high);
    XorAssoc(c, b, high);
  }

  /** The byte-by-byte loop is `8 * |w|` steps on the whole message at once. */
  lemma {:induction false} StateIsOneShift(c: nat, w: seq<Byte>)
    ensures State(c, w) == Steps(8 * |w|, Xor(c, Number(w)))
    decreases w
  {
    if w == [] {
      XorZero(c);
    } else {
      StateIsOneShift(Absorb(c, w[0]), w[1..]);
      AbsorbAhead(c, w[0], Number(w[1..]), Number(w));
      StepsAdd(8, 8 * |w[1..]|, Xor(c, Number(w)));
    }
  }

  /** Messages of one length whose numbers differ by a burst of at most 32 bits never
      share a checksum. */
  lemma {:induction false} BurstChangesChecksum(p: seq<Byte>, q: seq<Byte>, k: nat, m: nat)
    requires |p| == |q| && k <= 8 * |p| && 0 < m < TWO32
    requires Xor(Number(p), Number(q)) == Pow2(k) * m
    ensures Checksum(p) != Checksum(q)
  {
    var n, c := 8 * |p|, TWO32 - 1;
    StateIsOneShift(c, p);
    StateIsOneShift(c, q);
    StepsLinear(n, Xor(c, Number(p)), Xor(c, Number(q)));
    XorSwap(c, Number(p), c, Number(q));
    XorVanishes(c, c);
    XorZero(Pow2(k) * m);
    StepsAdd(k, n - k, Pow2(k) * m);
    StepsShift(k, m);
    StepsKeepNonzero(n - k, m);
    XorVanishes(State(c, p), State(c, q));
  }

  // ---- bursts of bytes ----------------------------------------------------------------------

  /** A common prefix cancels. */
  lemma {:induction false} XorPrefix(x: nat, y: nat, a: nat, k: nat, hx: nat, hy: nat)
    requires a < Pow2(k) && hx == Pow2(k) * x && hy == Pow2(k) * y
    ensures Xor(a + hx, a + hy) == Pow2(k) * Xor(x, y)
  {
    XorAdds(a, hx, x, k);
    XorAdds(a, hy, y, k);
    XorShift(x, y, k, hx, hy);
    XorCancels(a, hx, hy);
  }

  lemma {:induction false} XorCancels(a: nat, x: nat, y: nat)
    ensures Xor(Xor(a, x), Xor(a, y)) == Xor(x, y)
    ensures Xor(Xor(x, a), Xor(y, a)) == Xor(x, y)
  {
    XorSwap(a, x, a, y);
    XorSwap(x, a, y, a);
    XorVanishes(a, a);
    XorZero(Xor(x, y));
  }

  lemma {:induction false} XorShift(x: nat, y: nat, k: nat, hx: nat, hy: nat)
    requires hx == Pow2(k) * x && hy == Pow2(k) * y
    ensures Xor(hx, hy) == Pow2(k) * Xor(x, y)
  {
    if k > 0 {
      Pow2Times(k, x);
      Pow2Times(k, y);
      Pow2Times(k, Xor(x, y));
      XorDouble(hx / 2, hy / 2);
      XorShift(x, y, k - 1, hx / 2, hy / 2);
    }
  }

  lemma {:induction false} Pow2Times(k: nat, x: nat)
    requires k > 0
    ensures Pow2(k) * x == 2 * (Pow2(k - 1) * x)
  {
  }

  lemma {:induction false} XorDouble(a: nat, b: nat)
    ensures Xor(2 * a, 2 * b) == 2 * Xor(a, b)
  {
  }

  /** A common suffix cancels. */
  lemma {:induction false} XorSuffix(a: nat, b: nat, s: nat, k: nat, h: nat)
    requires a < Pow2(k) && b < Pow2(k) && h == Pow2(k) * s
    ensures Xor(a + h, b + h) == Xor(a, b)
  {
    XorAdds(a, h, s, k);
    XorAdds(b, h, s, k);
    XorCancels(h, a, b);
  }

  lemma {:induction false} PrefixNumbers(x: nat, y: nat, a: nat, k: nat)
    requires a < Pow2(k)
    ensures Xor(a + Pow2(k) * x, a + Pow2(k) * y) == Pow2(k) * Xor(x, y)
  {
    XorPrefix(x, y, a, k, Pow2(k) * x, Pow2(k) * y);
  }

  lemma {:induction false} SuffixNumbers(a: nat, b: nat, s: nat, k: nat)
    requires a < Pow2(k) && b < Pow2(k)
    ensures Xor(a + Pow2(k) * s, b + Pow2(k) * s) == Xor(a, b)
  {
    XorSuffix(a, b, s, k, Pow2(k) * s);
  }

  lemma {:induction false} PrefixCancels(pre: seq<Byte>, x: seq<Byte>, y: seq<Byte>)
    ensures Xor(Number(pre + x), Number(pre + y)) == Pow2(8 * |pre|) * Xor(Number(x), Number(y))
  {
    NumberBound(pre);
    NumberConcat(pre, x);
    NumberConcat(pre, y);
    PrefixNumbers(Number(x), Number(y), Number(pre), 8 * |pre|);
  }

  lemma {:induction false} SuffixCancels(u: seq<Byte>, v: seq<Byte>, post: seq<Byte>)
    requires |u| == |v|
    ensures Xor(Number(u + post), Number(v + post)) == Xor(Number(u), Number(v))
  {
    NumberBound(u);
    NumberBound(v);
    NumberConcat(u, post);
    NumberConcat(v, post);
    SuffixNumbers(Number(u), Number(v), Number(post), 8 * |u|);
  }

  /** The numbers of two messages that differ in one window differ by the windows. */
  lemma {:induction false} WindowDifference(pre: seq<Byte>, u: seq<Byte>, v: seq<Byte>, post: seq<Byte>)
    requires |u| == |v|
    ensures Xor(Number(pre + (u + post)), Number(pre + (v + post))) == Pow2(8 * |pre|) * Xor(Number(u), Number(v))
  {
    PrefixCancels(pre, u + post, v + post);
    SuffixCancels(u, v, post);
  }

  /** Different windows of at most four bytes differ by a nonzero 32-bit number. */
  lemma {:induction false} WindowNonzero(u: seq<Byte>, v: seq<Byte>)
    requires |u| == |v| <= 4 && u != v
    ensures 0 < Xor(Number(u), Number(v)) < TWO32
  {
    NumberBound(u);
    NumberBound(v);
    XorVanishes(Number(u), Number(v));
    if Number(u) == Number(v) {
      NumberInjective(u, v);
    }
    XorBound(Number(u), Number(v), 8 * |u|);
    Pow2Up(8 * |u|, 32);
    Pow2Values();
  }

  /** Replacing at most four consecutive bytes by different ones changes the checksum. */
  lemma {:induction false} FourBytesChangeChecksum(pre: seq<Byte>, u: seq<Byte>, v: seq<Byte>, post: seq<Byte>)
    requires |u| == |v| <= 4 && u != v
    ensures Checksum(pre + (u + post)) != Checksum(pre + (v + post))
  {
    WindowDifference(pre, u, v, post);
    WindowNonzero(u, v);
    BurstChangesChecksum(pre + (u + post), pre + (v + post), 8 * |pre|, Xor(Number(u), Number(v)));
  }
}
